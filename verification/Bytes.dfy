/** Bytes, and numbers in network and in host (little-endian) byte order. */
module Bytes {

  newtype byte = x: int | 0 <= x < 256

  function Pow256(n: nat): (p: nat)
    ensures p > 0
  {
    if n == 0 then 1 else 256 * Pow256(n - 1)
  }

  /** Network byte order. */
  function FromNet(s: seq<byte>): (v: nat)
    ensures v < Pow256(|s|)
  {
    if s == [] then 0 else FromNet(s[..|s| - 1]) * 256 + s[|s| - 1] as nat
  }

  function ToNet(v: nat, n: nat): (s: seq<byte>)
    ensures |s| == n
  {
    if n == 0 then [] else ToNet(v / 256, n - 1) + [(v % 256) as byte]
  }

  /** Host byte order. */
  function FromHost(s: seq<byte>): nat {
    if s == [] then 0 else s[0] as nat + 256 * FromHost(s[1..])
  }

  /** What ntohl, ntohs and priv_ntohull do to the bytes of a field in memory. */
  function Swap(s: seq<byte>): (r: seq<byte>)
    ensures |r| == |s|
  {
    if s == [] then [] else [s[|s| - 1]] + Swap(s[..|s| - 1])
  }

  lemma {:induction false} ToNetFromNet(v: nat, n: nat)
    requires v < Pow256(n)
    ensures FromNet(ToNet(v, n)) == v
  {
    if n > 0 {
      ToNetFromNet(v / 256, n - 1);
      var s := ToNet(v, n);
      assert s[..n - 1] == ToNet(v / 256, n - 1);
    }
  }

  /** Converting in place makes the host read the number that was sent. */
  lemma {:induction false} SwapReads(s: seq<byte>)
    ensures FromHost(Swap(s)) == FromNet(s)
  {
    if s != [] {
      SwapReads(s[..|s| - 1]);
      assert Swap(s)[1..] == Swap(s[..|s| - 1]);
    }
  }

  lemma {:induction false} SwapIndex(s: seq<byte>, i: nat)
    requires i < |s|
    ensures Swap(s)[i] == s[|s| - 1 - i]
  {
    if i > 0 {
      SwapIndex(s[..|s| - 1], i - 1);
    }
  }
}
