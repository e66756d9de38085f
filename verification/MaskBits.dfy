/** The multicast mask, a 32-bit integer with one bit for each client. */
module MaskBits {

  const MAXCLIENTS := 10

  function One(i: nat): bv32
    requires i < 32
  {
    (1 as bv32) << i
  }

  predicate Bit(m: bv32, i: nat)
    requires i < 32
  {
    m & One(i) != 0
  }

  lemma Apart(i: nat, j: nat)
    requires i < 32 && j < 32
    ensures One(i) & One(j) == if i == j then One(i) else 0
    ensures One(i) != 0
  {}

  lemma SetThis(m: bv32, i: nat)
    requires i < 32
    ensures Bit(m | One(i), i)
  {}

  lemma SetOther(m: bv32, i: nat, j: nat)
    requires i < 32 && j < 32 && i != j
    ensures (m | One(i)) & One(j) == m & One(j)
  {
    var a, b := One(i), One(j);
    Apart(i, j);
    assert a & b == 0;
    OrDistributes(m, a, b);
  }

  lemma ClearThis(m: bv32, i: nat)
    requires i < 32
    ensures !Bit(m & !One(i), i)
  {
    AndNotSelf(m, One(i));
  }

  lemma ClearOther(m: bv32, i: nat, j: nat)
    requires i < 32 && j < 32 && i != j
    ensures (m & !One(i)) & One(j) == m & One(j)
  {
    Apart(i, j);
    AndNot(m, One(i), One(j));
  }

  lemma OrDistributes(m: bv32, a: bv32, b: bv32)
    ensures (m | a) & b == (m & b) | (a & b)
  {}

  lemma AndNot(m: bv32, a: bv32, b: bv32)
    requires a & b == 0
    ensures (m & !a) & b == m & b
  {}

  lemma AndNotSelf(m: bv32, a: bv32)
    ensures (m & !a) & a == 0
  {}

  /** No bit beyond the last client. */
  predicate Small(m: bv32) {
    m & 0xffff_fc00 == 0
  }

  lemma OneSmall(i: nat)
    requires i < MAXCLIENTS
    ensures Small(One(i))
  {
    assert Small(One(0)) && Small(One(1)) && Small(One(2)) && Small(One(3)) && Small(One(4));
    assert Small(One(5)) && Small(One(6)) && Small(One(7)) && Small(One(8)) && Small(One(9));
  }

  lemma OrSmall(a: bv32, b: bv32)
    requires Small(a) && Small(b)
    ensures Small(a | b)
  {}

  lemma AndSmall(a: bv32, b: bv32)
    requires Small(a)
    ensures Small(a & b)
  {}

  lemma NoBits(m: bv32)
    requires Small(m) && forall i :: 0 <= i < MAXCLIENTS ==> !Bit(m, i)
    ensures m == 0
  {
    assert !Bit(m, 0) && !Bit(m, 1) && !Bit(m, 2) && !Bit(m, 3) && !Bit(m, 4);
    assert !Bit(m, 5) && !Bit(m, 6) && !Bit(m, 7) && !Bit(m, 8) && !Bit(m, 9);
  }
}
