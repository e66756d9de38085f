/** Window handles as values: the handles an on-screen display owns, and which free ones it is given. */
module OsdHandles {

  const MAX_OSD_OBJECT := 50

  /** The handles of a list, which ends before its first negative entry. */
  function Live(list: seq<int>): set<int> {
    if list == [] || list[0] < 0 then {} else {list[0]} + Live(list[1..])
  }

  /** No list, or one with an end. */
  ghost predicate Terminated(list: seq<int>) {
    list == [] || list[|list| - 1] < 0
  }

  /** The first `n` handles from `i` up that are not in use; fewer if there are not so many. */
  function Pick(used: set<int>, i: nat, n: nat): (r: seq<int>)
    requires i <= MAX_OSD_OBJECT
    ensures |r| <= n
    decreases MAX_OSD_OBJECT - i, n
  {
    if i == MAX_OSD_OBJECT || n == 0 then []
    else if i in used then Pick(used, i + 1, n)
    else [i] + Pick(used, i + 1, n - 1)
  }

  /** How many handles from `i` up are not in use. */
  function FreeFrom(used: set<int>, i: nat): nat
    requires i <= MAX_OSD_OBJECT
    decreases MAX_OSD_OBJECT - i, used
  {
    if i == MAX_OSD_OBJECT then 0 else (if i in used then 0 else 1) + FreeFrom(used, i + 1)
  }

  function Elements(s: seq<int>): set<int> {
    set h | h in s
  }

  lemma OneMoreElement(s: seq<int>, h: int)
    ensures Elements(s + [h]) == Elements(s) + {h}
  {
    var t := s + [h];
    forall x
      ensures x in Elements(t) <==> x in Elements(s) + {h}
    {
      if x in s {
        var i :| 0 <= i < |s| && s[i] == x;
        assert t[i] == x;
      }
      assert t[|s|] == h;
    }
  }

  /** The handles that asking for `n` marks as used. Asking for none marks handle 0. */
  function Marked(used: set<int>, n: nat): set<int> {
    if n == 0 then {0} - used else Elements(Pick(used, 0, n))
  }

  function Fill(n: nat): (r: seq<int>)
    ensures |r| == n && forall i :: 0 <= i < n ==> r[i] == -1
  {
    seq(n, _ => -1)
  }

  /** What is picked is free, in rising order and without gaps: every free handle below a picked one is picked too. */
  lemma {:induction false} PickIsLowest(used: set<int>, i: nat, n: nat)
    requires i <= MAX_OSD_OBJECT
    ensures var r := Pick(used, i, n);
            && (forall k :: 0 <= k < |r| ==> i <= r[k] < MAX_OSD_OBJECT && r[k] !in used)
            && (forall k, l :: 0 <= k < l < |r| ==> r[k] < r[l])
            && (forall h :: i <= h < MAX_OSD_OBJECT && h !in used && h !in r ==>
                |r| == n && forall k :: 0 <= k < |r| ==> r[k] < h)
    decreases MAX_OSD_OBJECT - i
  {
    if i < MAX_OSD_OBJECT && n > 0 {
      PickIsLowest(used, i + 1, if i in used then n else n - 1);
    }
  }

  /** As many as asked for, if there are so many. */
  lemma {:induction false} PickCount(used: set<int>, i: nat, n: nat)
    requires i <= MAX_OSD_OBJECT
    ensures |Pick(used, i, n)| == if n <= FreeFrom(used, i) then n else FreeFrom(used, i)
    decreases MAX_OSD_OBJECT - i
  {
    if i < MAX_OSD_OBJECT && n > 0 {
      PickCount(used, i + 1, if i in used then n else n - 1);
    }
  }

  lemma {:induction false} FewerUsed(used: set<int>, fewer: set<int>, i: nat)
    requires i <= MAX_OSD_OBJECT && fewer <= used
    ensures FreeFrom(used, i) <= FreeFrom(fewer, i)
    decreases MAX_OSD_OBJECT - i
  {
    if i < MAX_OSD_OBJECT {
      FewerUsed(used, fewer, i + 1);
    }
  }

  /** With `n` handles free beforehand, an on-screen display that first gives back its own is sure to get `n`. */
  lemma EnoughHandles(used: set<int>, own: set<int>, n: nat)
    requires n <= FreeFrom(used, 0)
    ensures |Pick(used - own, 0, n)| == n
  {
    FewerUsed(used, used - own, 0);
    PickCount(used - own, 0, n);
  }

  lemma SureOfHandles(used: set<int>, own: set<int>, n: nat)
    ensures n <= FreeFrom(used, 0) ==> |Pick(used - own, 0, n)| == n
  {
    if n <= FreeFrom(used, 0) {
      EnoughHandles(used, own, n);
    }
  }

  lemma {:induction false} LiveOfFilled(r: seq<int>, m: nat)
    requires forall k :: 0 <= k < |r| ==> r[k] >= 0
    ensures Live(r + Fill(m)) == Elements(r)
  {
    var list := r + Fill(m);
    if r == [] {
      assert list == Fill(m);
    } else {
      assert list[1..] == r[1..] + Fill(m);
      LiveOfFilled(r[1..], m);
    }
  }

  /** Cutting a list before an entry that is not negative leaves the rest. */
  lemma {:induction false} LiveSplit(list: seq<int>, k: nat)
    requires k <= |list| && forall j :: 0 <= j < k ==> list[j] >= 0
    ensures Live(list) == Live(list[..k]) + Live(list[k..])
  {
    if k == 0 {
      assert list[k..] == list;
    } else {
      assert list[..k][1..] == list[1..][..k - 1];
      LiveSplit(list[1..], k - 1);
    }
  }

  lemma {:induction false} LiveOne(list: seq<int>, k: nat)
    requires k < |list| && forall j :: 0 <= j <= k ==> list[j] >= 0
    ensures Live(list[..k + 1]) == Live(list[..k]) + {list[k]}
  {
    LiveSplit(list[..k + 1], k);
    assert list[..k + 1][..k] == list[..k] && list[..k + 1][k..] == [list[k]];
  }

  // ---------------------------------------------------------------- sharing

  /** Every owner has different handles, and the used handles are those with an owner and the leaked one. */
  ghost predicate Shared<T>(own: map<T, set<int>>, used: set<int>, leaked: set<int>) {
    && (forall o :: o in own ==> own[o] !! leaked && own[o] <= used)
    && (forall o, p :: o in own && p in own && o != p ==> own[o] !! own[p])
    && (forall h :: h in used ==> 0 <= h < MAX_OSD_OBJECT && (h in leaked || exists o :: o in own && h in own[o]))
    && leaked <= {0} && leaked <= used
  }

  lemma GiveBack<T>(own: map<T, set<int>>, used: set<int>, leaked: set<int>, o: T)
    requires Shared(own, used, leaked) && o in own
    ensures Shared(own[o := {}], used - own[o], leaked)
  {
    var own' := own[o := {}];
    forall h | h in used - own[o] && h !in leaked
      ensures exists p :: p in own' && h in own'[p]
    {
      var p :| p in own && h in own[p];
      assert h in own'[p];
    }
  }

  lemma Give<T>(own: map<T, set<int>>, used: set<int>, leaked: set<int>, o: T, more: set<int>)
    requires Shared(own, used, leaked) && o in own && own[o] == {}
    requires more !! used && forall h :: h in more ==> 0 <= h < MAX_OSD_OBJECT
    ensures Shared(own[o := more], used + more, leaked)
  {
    var own' := own[o := more];
    forall h | h in used + more && h !in leaked
      ensures exists p :: p in own' && h in own'[p]
    {
      if h in more {
        assert h in own'[o];
      } else {
        var p :| p in own && h in own[p];
        assert h in own'[p];
      }
    }
  }

  lemma Leave<T>(own: map<T, set<int>>, used: set<int>, leaked: set<int>, o: T)
    requires Shared(own, used, leaked) && o in own && own[o] == {}
    ensures Shared(own - {o}, used, leaked)
  {
    var own' := own - {o};
    forall h | h in used && h !in leaked
      ensures exists p :: p in own' && h in own'[p]
    {
      var p :| p in own && h in own[p];
      assert h in own'[p];
    }
  }

  lemma Enter<T>(own: map<T, set<int>>, used: set<int>, leaked: set<int>, o: T)
    requires Shared(own, used, leaked) && o !in own
    ensures Shared(own[o := {}], used, leaked)
  {
    var own' := own[o := {}];
    forall h | h in used && h !in leaked
      ensures exists p :: p in own' && h in own'[p]
    {
      var p :| p in own && h in own[p];
      assert h in own'[p];
    }
  }

  lemma Leak<T>(own: map<T, set<int>>, used: set<int>, leaked: set<int>)
    requires Shared(own, used, leaked)
    ensures Shared(own, used + {0}, leaked + ({0} - used))
  {
    var leaked' := leaked + ({0} - used);
    assert forall o :: o in own ==> 0 !in used ==> 0 !in own[o];
    assert forall h :: h in leaked' ==> h == 0;
  }

  /** Handles picked from the free ones are free. */
  lemma PickedAreFree(used: set<int>, n: nat)
    ensures forall k :: 0 <= k < |Pick(used, 0, n)| ==> Pick(used, 0, n)[k] >= 0
    ensures var more := Elements(Pick(used, 0, n));
            more !! used && forall h :: h in more ==> 0 <= h < MAX_OSD_OBJECT
  {
    PickIsLowest(used, 0, n);
  }

  lemma NoElements()
    ensures Elements([]) == {}
  {}

  /** One turn of the search: handle `i` is taken if it is free. */
  lemma PickStep(used: set<int>, i: nat, n: nat, taken: seq<int>)
    requires i < MAX_OSD_OBJECT && n > 0
    ensures taken + Pick(used, i, n) ==
            if i in used then taken + Pick(used, i + 1, n) else taken + [i] + Pick(used, i + 1, n - 1)
  {}

  lemma PickEnds(used: set<int>, i: nat, n: nat)
    requires i <= MAX_OSD_OBJECT && (n == 0 || i == MAX_OSD_OBJECT)
    ensures Pick(used, i, n) == []
  {}

  lemma PickNone(used: set<int>)
    ensures Elements(Pick(used, 0, 0)) == {}
  {}

  /** Marking handles for a display that has none. */
  lemma GiveMarked<T>(own: map<T, set<int>>, used: set<int>, leaked: set<int>, o: T, n: nat)
    requires Shared(own, used, leaked) && o in own && own[o] == {}
    ensures Shared(own[o := Elements(Pick(used, 0, n))], used + Marked(used, n),
                   leaked + if n == 0 then {0} - used else {})
  {
    PickedAreFree(used, n);
    if n == 0 {
      assert Elements(Pick(used, 0, n)) == {} && own[o := {}] == own;
      Leak(own, used, leaked);
      assert used + ({0} - used) == used + {0};
    } else {
      Give(own, used, leaked, o, Elements(Pick(used, 0, n)));
      assert leaked + {} == leaked;
    }
  }
}
