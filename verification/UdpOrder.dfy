/** Properties of the receive queue that hold over every run: order, accounting, bounds, re-sends. */
module UdpOrder {
  import opened Options
  import opened UdpWindow

  // ---------------------------------------------------------------- what one release does

  ghost predicate Ahead(w: Win, k: int) {
    forall u :: u in w.pending ==> w.base <= u <= w.base + k
  }

  ghost function Rest(m: map<int, Packet>, b: int): map<int, Packet> {
    map u | u in m && b <= u :: m[u]
  }

  /** Going from `w` to `w'` may only consume numbers below the new base: `r` is the first non-empty packet there,
      every other packet there was empty, everything from the new base on is still queued, and each number passed was
      delivered, dropped as empty, or counted as missed. */
  ghost predicate Released(w: Win, w': Win, r: Option<Packet>) {
    && w.base <= w'.base
    && w'.pending == Rest(w.pending, w'.base)
    && (r.None? ==>
          && w'.log == w.log
          && w'.base !in w'.pending
          && forall u :: u in w.pending && u < w'.base ==> w.pending[u].payload == [])
    && (r.Some? ==>
          && |w'.log| == |w.log| + 1
          && w'.log[..|w.log|] == w.log
          && var last := w'.log[|w.log|];
          && last.packet == r.value && r.value.payload != []
          && w.base <= last.number < w'.base
          && last.number in w.pending && w.pending[last.number] == r.value
          && (forall u :: u in w.pending && u < w'.base && u != last.number ==>
              u < last.number && w.pending[u].payload == []))
    && w'.base - w.base == (|w'.log| - |w.log|) + (w'.dropped - w.dropped) + (w'.missed - w.missed)
    && w.missed <= w'.missed && w.dropped <= w'.dropped
  }

  /** The rest of the link a release does not touch. */
  ghost predicate Frame(w: Win, w': Win) {
    && w'.current == w.current && w'.started == w.started && w'.padding == w.padding
    && w'.start == w.start && w'.fillers == w.fillers && w'.requests == w.requests && w'.epoch == w.epoch
  }

  lemma Inhabited(m: map<int, Packet>)
    ensures m == map[] || exists u :: u in m
  {
    if forall u :: u !in m {
      assert m == map[];
    }
  }

  lemma SkipEffect(w: Win)
    requires w.pending != map[] && Ahead(w, SEQ_RANGE - 1)
    ensures var s := Skip(w);
            && s.base in s.pending && w.base <= s.base && s.missed - w.missed == s.base - w.base
            && forall u :: u in w.pending ==> s.base <= u
  {
    Inhabited(w.pending);
    var u :| u in w.pending;
    assert First(w.pending, w.base, w.base + SEQ_RANGE) <= u;
  }

  lemma PopEffect(w: Win)
    requires Ahead(w, SEQ_RANGE - 1) && w.base in w.pending
    ensures var f := Flush(Pop(w));
            && w.base < f.base && f.pending == Rest(w.pending, f.base) && |f.pending| == |w.pending| - 1
            && Frame(w, f) && f.skips == w.skips && Ahead(f, SEQ_RANGE - 1)
            && (forall u :: u in w.pending && u != w.base ==> f.base <= u)
            && f.log == Pop(w).log && f.dropped == Pop(w).dropped
            && f.missed - w.missed == f.base - w.base - 1
            && (if w.padding then f.pending == map[] || f.base in f.pending else f.missed == w.missed)
  {
    Smaller(w.pending, w.base);
    var p := Pop(w);
    assert forall u :: u in w.pending && u != w.base ==> u in p.pending;
    if p.padding && p.pending != map[] {
      SkipEffect(p);
    }
  }

  lemma Compose(w: Win, f: Win, w': Win, r: Option<Packet>)
    requires w.base in w.pending && w.pending[w.base].payload == []
    requires w.base < f.base && f.pending == Rest(w.pending, f.base)
    requires forall u :: u in w.pending && u != w.base ==> f.base <= u
    requires f.log == w.log && f.dropped == w.dropped + 1 && f.missed - w.missed == f.base - w.base - 1
    requires Released(f, w', r)
    ensures Released(w, w', r)
  {
    assert Rest(f.pending, w'.base) == Rest(w.pending, w'.base);
    assert forall u :: u in w.pending && u != w.base ==> u in f.pending && f.pending[u] == w.pending[u];
  }

  lemma {:induction false} DrainEffect(w: Win)
    requires Ahead(w, SEQ_RANGE - 1)
    ensures var (w', r) := Drain(w);
            && Released(w, w', r) && Frame(w, w') && w'.skips == w.skips
            && (w.base in w.pending ==> w.base < w'.base)
            && (w.base in w.pending && w.pending[w.base].payload == [] ==> w.dropped < w'.dropped)
            && (w.padding && w.base in w.pending ==> w'.pending == map[] || w'.base in w'.pending)
            && (!w.padding ==> w'.missed == w.missed)
            && (|w'.log| - |w.log|) + (w'.dropped - w.dropped) + |w'.pending| == |w.pending|
    decreases |w.pending|
  {
    if w.base !in w.pending {
      assert Rest(w.pending, w.base) == w.pending;
    } else {
      PopEffect(w);
      var f := Flush(Pop(w));
      if w.pending[w.base].payload == [] {
        DrainEffect(f);
        Compose(w, f, Drain(f).0, Drain(f).1);
      }
    }
  }

  lemma ComposeSkip(w: Win, s: Win, w': Win, r: Option<Packet>)
    requires s.pending == w.pending && s.log == w.log && s.dropped == w.dropped
    requires w.base <= s.base && s.missed - w.missed == s.base - w.base
    requires forall u :: u in w.pending ==> s.base <= u
    requires Released(s, w', r)
    ensures Released(w, w', r)
  {}

  lemma RestSmaller(m: map<int, Packet>, b: int)
    ensures |Rest(m, b)| <= |m|
    ensures forall u :: u in m && u < b ==> |Rest(m, b)| < |m|
  {
    var r := Rest(m, b);
    assert r.Keys <= m.Keys;
    Subset(r.Keys, m.Keys);
    if u :| u in m && u < b {
      Subset(r.Keys, m.Keys - {u});
    }
  }

  lemma UnwrapNear(base: int, u: int)
    requires base - SEQ_RANGE <= u < base + SEQ_RANGE
    ensures Unwrap(base, u) == if u < base then u + SEQ_RANGE else u
  {}

  lemma ResidueNear(c: int, base: int)
    requires base - SEQ_RANGE < c < base + SEQ_RANGE
    ensures (c - base) % SEQ_RANGE == if c < base then c - base + SEQ_RANGE else c - base
  {}

  // ---------------------------------------------------------------- moving the base over queued packets

  lemma SameResidue(u: int, v: int)
    requires u % SEQ_RANGE == v % SEQ_RANGE && -SEQ_RANGE < u - v < SEQ_RANGE
    ensures u == v
  {}

  /** Two numbers of one window with the same sequence byte are the same. */
  lemma SameNumber(base: int, b: int, u: int, v: int)
    requires u % SEQ_RANGE == v % SEQ_RANGE
    ensures base <= u < base + SEQ_RANGE && base <= v < base + SEQ_RANGE ==> u == v
    ensures b <= u < b + SEQ_RANGE && b <= v < b + SEQ_RANGE ==> u == v
    ensures base <= u < base + SEQ_RANGE ==> Unwrap(base, v) == u
  {
    hide Unwrap;
    if -SEQ_RANGE < u - v < SEQ_RANGE {
      SameResidue(u, v);
    }
    if base <= u < base + SEQ_RANGE {
      SameResidue(Unwrap(base, v), u);
    }
  }

  lemma RekeyDropAt(m: map<int, Packet>, base: int, b: int, u: int, x: int)
    requires u in m && base <= u < base + SEQ_RANGE
    ensures Unwrap(b, u) in Rekey(m, base, b)
    ensures x in Rekey(m - {u}, base, b) <==> x in Rekey(m, base, b) && x != Unwrap(b, u)
    ensures x in Rekey(m - {u}, base, b) ==> Rekey(m - {u}, base, b)[x] == Rekey(m, base, b)[x]
  {
    hide Unwrap;
    var v, y := Unwrap(b, u), Unwrap(base, x);
    SameNumber(base, b, u, v);
    if y == u {
      SameNumber(base, b, x, v);
    }
  }

  /** Moving all packets but one is moving all and taking out that one. */
  lemma RekeyDrop(m: map<int, Packet>, base: int, b: int, u: int)
    requires u in m && base <= u < base + SEQ_RANGE
    ensures Unwrap(b, u) in Rekey(m, base, b)
    ensures Rekey(m - {u}, base, b) == Rekey(m, base, b) - {Unwrap(b, u)}
  {
    hide Rekey, Unwrap;
    RekeyDropAt(m, base, b, u, 0);
    forall x
      ensures x in Rekey(m - {u}, base, b) <==> x in Rekey(m, base, b) && x != Unwrap(b, u)
      ensures x in Rekey(m - {u}, base, b) ==> Rekey(m - {u}, base, b)[x] == Rekey(m, base, b)[x]
    {
      RekeyDropAt(m, base, b, u, x);
    }
  }

  /** No packet is lost or doubled. */
  lemma {:induction false} RekeySize(m: map<int, Packet>, base: int, b: int)
    requires forall u :: u in m ==> base <= u < base + SEQ_RANGE
    ensures |Rekey(m, base, b)| == |m|
    decreases |m|
  {
    hide Unwrap;
    Inhabited(m);
    if u :| u in m {
      Smaller(m, u);
      RekeyDrop(m, base, b, u);
      RekeySize(m - {u}, base, b);
      Smaller(Rekey(m, base, b), Unwrap(b, u));
    } else {
      assert Rekey(m, base, b) == map[];
    }
  }

  lemma {:induction false} Subset<T>(a: set<T>, b: set<T>)
    requires a <= b
    ensures |a| <= |b|
  {
    if a != {} {
      var x :| x in a;
      Subset(a - {x}, b - {x});
    }
  }

  /** The socket is only read in such a state: head slot empty, at most 64 packets queued, and none at all
      after a padding packet. */
  ghost predicate Idle(w: Win) {
    w.base !in w.pending && |w.pending| <= MAX_QUEUED && (w.padding ==> w.pending == map[])
  }

  /** udp_process_queue: what it hands on and what it gives up. Numbers are only skipped when too many packets are
      queued or padding was seen. */
  lemma ProcessEffect(w: Win)
    requires Ahead(w, SEQ_RANGE - 1) && |w.pending| <= MAX_QUEUED + 1
    ensures var (w', r) := Process(w);
            && Released(w, w', r) && Frame(w, w')
            && (r.None? ==> Idle(w'))
            && (w.base in w.pending ==> w.base < w'.base)
            && (w.base in w.pending && w.pending[w.base].payload == [] ==> w.dropped < w'.dropped)
            && (|w.pending| <= MAX_QUEUED && !w.padding ==> w'.missed == w.missed)
  {
    if w.pending == map[] {
      assert Rest(w.pending, w.base) == w.pending;
    } else {
      SkipEffect(w);
      var s := Shrink(w);
      SkipEffect(s);
      var f := Flush(s);
      DrainEffect(f);
      ComposeSkip(s, f, Drain(f).0, Drain(f).1);
      ComposeSkip(w, s, Drain(f).0, Drain(f).1);
      RestSmaller(w.pending, Drain(f).0.base);
    }
  }

  // ---------------------------------------------------------------- the scan for the end of a gap

  lemma ScanNext(m: map<int, Packet>, base: int, u: int, top: int)
    requires u < top && Unwrap(base, u) !in m
    ensures Scan(m, base, u, top) == Scan(m, base, u + 1, top)
  {}

  lemma ScanDone(m: map<int, Packet>, base: int, u: int, top: int)
    requires u >= top || Unwrap(base, u) in m
    ensures Scan(m, base, u, top) == u
  {}
}
