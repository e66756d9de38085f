/** The stack of open on-screen displays and the window handles they share. */
module OsdStack {
  import opened OsdHandles

  datatype AreaError = Ok | BaseError | TooManyAreas | BppNotSupported

  class Osd {
    const layer: nat
    var visible: bool

    /** Empty while there is no list. */
    var handles: seq<int>

    constructor (layer: nat)
      ensures this.layer == layer && visible && handles == [] && Live(handles) == {}
    {
      this.layer, visible, handles := layer, true, [];
    }

    method Show()
      modifies `visible
      ensures visible
    {
      visible := true;
    }

    method Hide()
      modifies `visible
      ensures !visible
    {
      visible := false;
    }
  }

  /** All different, and higher layers further down. */
  ghost predicate Layered(s: seq<Osd>) {
    forall i, j :: 0 <= i < j < |s| ==> s[i] != s[j] && s[i].layer <= s[j].layer
  }

  lemma LayeredInsert(s: seq<Osd>, o: Osd, at: nat)
    requires Layered(s) && o !in s && at <= |s|
    requires forall k :: 0 <= k < |s| ==> (s[k].layer < o.layer <==> k < at)
    ensures Layered(s[..at] + [o] + s[at..])
  {
    var t := s[..at] + [o] + s[at..];
    forall i, j | 0 <= i < j < |t|
      ensures t[i] != t[j] && t[i].layer <= t[j].layer
    {
      assert i < at ==> t[i] == s[i];
      assert j < at ==> t[j] == s[j];
      assert i > at ==> t[i] == s[i - 1];
      assert j > at ==> t[j] == s[j - 1];
    }
  }

  lemma MembersInsert(s: seq<Osd>, o: Osd, at: nat)
    requires at <= |s|
    ensures forall p :: p in s[..at] + [o] + s[at..] <==> p in s || p == o
  {
    assert s == s[..at] + s[at..];
  }

  lemma LayeredRemove(s: seq<Osd>, at: nat)
    requires Layered(s) && at < |s|
    ensures Layered(s[..at] + s[at + 1..])
    ensures forall p :: p in s[..at] + s[at + 1..] <==> p in s && p != s[at]
  {
    var t := s[..at] + s[at + 1..];
    assert forall k :: 0 <= k < at ==> t[k] == s[k];
    assert forall k :: at <= k < |t| ==> t[k] == s[k + 1];
    assert forall k :: at < k < |s| ==> s[k] == t[k - 1];
  }

  /** The on-screen displays of one device. */
  class Provider {
    /** Whether only the topmost display is to be seen. */
    const mixerNone: bool

    /** From the topmost down. */
    var stack: seq<Osd>

    /** The handles whose bits are set. */
    var bitmap: set<int>

    /** Handle 0, once it was marked for nobody. */
    ghost var leaked: set<int>

    /** The handles of every display. */
    ghost function Owners(): map<Osd, set<int>>
      reads `stack, stack`handles
    {
      map o | o in stack :: Live(o.handles)
    }

    ghost predicate HandlesShared()
      reads `stack, `bitmap, `leaked, stack`handles
    {
      Shared(Owners(), bitmap, leaked) && forall o :: o in stack ==> Terminated(o.handles)
    }

    /** Higher layers are further down. With the mixer off exactly the topmost display is to be seen, else every one. */
    ghost predicate Stacked()
      reads `stack, stack`visible
    {
      Layered(stack) && forall i :: 0 <= i < |stack| ==> (stack[i].visible <==> i == 0 || !mixerNone)
    }

    ghost predicate Valid()
      reads this, stack
    {
      HandlesShared() && Stacked()
    }

    constructor (mixerNone: bool)
      ensures Valid() && stack == [] && this.mixerNone == mixerNone
    {
      this.mixerNone, stack, bitmap, leaked := mixerNone, [], {}, {};
    }

    // -------------------------------------------------------------- window handles

    method FreeWindowHandles(o: Osd)
      requires Valid() && o in stack
      modifies `bitmap, o`handles
      ensures Valid() && bitmap == old(bitmap) - Live(old(o.handles))
      ensures o.handles == [] && Live(o.handles) == {}
    {
      hide Shared, Stacked;
      GiveBack(Owners(), bitmap, leaked, o);
      ghost var own := Owners();
      if o.handles != [] {
        ClearHandles(o.handles);
        o.handles := [];
      }
      assert Owners() == own[o := {}];
    }

    method ClearHandles(list: seq<int>)
      requires list != [] && Terminated(list)
      modifies `bitmap
      ensures bitmap == old(bitmap) - Live(list)
    {
      var wnd := 0;
      while list[wnd] >= 0
        invariant wnd < |list| && forall k :: 0 <= k < wnd ==> list[k] >= 0
        invariant bitmap == old(bitmap) - Live(list[..wnd])
        decreases |list| - wnd
      {
        LiveOne(list, wnd);
        bitmap := bitmap - {list[wnd]};
        wnd := wnd + 1;
      }
      LiveSplit(list, wnd);
    }

    /** Take free handles from the lowest up until there are `n`. When none are wanted, handle 0 is still looked at. */
    method TakeFree(list: array<int>, n: nat) returns (wnd: nat)
      requires list.Length == n + 1
      modifies `bitmap, list
      ensures n > 0 ==> wnd <= n && list[..wnd] == Pick(old(bitmap), 0, n)
      ensures n == 0 ==> wnd <= 1
      ensures bitmap == old(bitmap) + Marked(old(bitmap), n)
    {
      hide Elements, Pick;
      ghost var used, taken: seq<int> := bitmap, [];
      NoElements();
      var index := 0;
      wnd := 0;
      while index < MAX_OSD_OBJECT
        invariant index <= MAX_OSD_OBJECT && wnd <= n && (wnd == n ==> index == 0 && n == 0)
        invariant |taken| == wnd && list[..wnd] == taken
        invariant bitmap == used + Elements(taken) && forall h :: h in Elements(taken) ==> h < index
        invariant taken + Pick(used, index, n - wnd) == Pick(used, 0, n)
      {
        if n > 0 {
          PickStep(used, index, n - wnd, taken);
        }
        if index !in bitmap {
          OneMoreElement(taken, index);
          list[wnd] := index;
          wnd := wnd + 1;
          taken := taken + [index];
          bitmap := bitmap + {index};
        }
        if wnd >= n {
          break;
        }
        index := index + 1;
      }
      if n > 0 {
        PickEnds(used, index, n - wnd);
        assert taken + [] == taken;
      }
    }

    /** End the list after the first `wnd` handles. */
    method EndList(list: array<int>, wnd: nat)
      requires 0 < list.Length && wnd <= list.Length
      modifies list
      ensures var k := if wnd < list.Length then wnd else wnd - 1;
              list[..] == old(list[..k]) + Fill(list.Length - k)
    {
      var n := list.Length - 1;
      list[n] := -1;
      var i := wnd;
      while i < n
        invariant wnd <= i && (wnd <= n ==> i <= n) && list[n] == -1
        invariant forall k :: 0 <= k < wnd && k < n ==> list[k] == old(list[k])
        invariant forall k :: wnd <= k < i && k < n ==> list[k] == -1
      {
        list[i] := -1;
        i := i + 1;
      }
    }

    /** Mark the lowest free handles and list them. */
    method MarkHandles(n: nat) returns (handles: seq<int>, got: nat)
      modifies `bitmap
      ensures bitmap == old(bitmap) + Marked(old(bitmap), n)
      ensures var r := Pick(old(bitmap), 0, n);
              handles == r + Fill(n + 1 - |r|) && got == if |r| == n then n else 0
    {
      var list := new int[n + 1];
      var wnd := TakeFree(list, n);
      got := if wnd < n then 0 else n;
      EndList(list, wnd);
      handles := list[..];
    }

    /** Give a display that has none the lowest free handles. */
    method GiveHandles(o: Osd, n: nat) returns (got: nat)
      requires Valid() && o in stack && Live(o.handles) == {}
      modifies `bitmap, `leaked, o`handles
      ensures Valid() && leaked == old(leaked) + if n == 0 then {0} - old(bitmap) else {}
      ensures bitmap == old(bitmap) + Marked(old(bitmap), n)
      ensures var r := Pick(old(bitmap), 0, n);
              && o.handles == r + Fill(n + 1 - |r|) && Live(o.handles) == Elements(r)
              && got == if |r| == n then n else 0
    {
      hide Shared, Stacked, Pick, Elements, Marked, Live, Fill;
      ghost var own, r := Owners(), Pick(bitmap, 0, n);
      GiveMarked(own, bitmap, leaked, o, n);
      PickedAreFree(bitmap, n);
      LiveOfFilled(r, n + 1 - |r|);
      leaked := leaked + if n == 0 then {0} - bitmap else {};
      o.handles, got := MarkHandles(n);
      assert Owners() == own[o := Elements(r)];
    }

    /** Give a display the lowest free handles instead of its own. Zero is returned when there are too few, and when
        none are asked for. */
    method AllocWindowHandles(o: Osd, n: nat) returns (got: nat)
      requires Valid() && o in stack
      modifies `bitmap, `leaked, o`handles
      ensures Valid() && (0 < n ==> leaked == old(leaked))
      ensures var used := old(bitmap) - Live(old(o.handles));
              var r := Pick(used, 0, n);
              && bitmap == used + Marked(used, n)
              && o.handles == r + Fill(n + 1 - |r|) && Live(o.handles) == Elements(r)
              && got == if |r| == n then n else 0
    {
      hide HandlesShared, Stacked, Pick, Elements, Marked, Live, Fill;
      FreeWindowHandles(o);
      got := GiveHandles(o, n);
    }

    /** Close a display's windows and open `n` new ones. `base` tells whether the base class accepts the areas. It
        succeeds whenever CanHandleAreas has just found room for so many. */
    method SetAreas(o: Osd, n: nat, base: bool) returns (result: AreaError)
      requires Valid() && o in stack
      modifies `bitmap, `leaked, o`handles
      ensures Valid() && (0 < n || !base ==> leaked == old(leaked))
      ensures base && 0 < n <= FreeFrom(old(bitmap), 0) ==> result == Ok
      ensures var used := old(bitmap) - Live(old(o.handles));
              && (result == Ok <==> base && 0 < n && |Pick(used, 0, n)| == n)
              && (result == BaseError <==> !base)
              && (result == Ok ==> Live(o.handles) == Elements(Pick(used, 0, n)) && bitmap == used + Live(o.handles))
              && (result != Ok ==> o.handles == [] && bitmap == if base && n == 0 then used + {0} else used)
    {
      hide HandlesShared, Stacked, Pick;
      SureOfHandles(bitmap, Live(o.handles), n);
      FreeWindowHandles(o);
      if !base {
        return BaseError;
      }
      ghost var used := bitmap;
      assert used - Live(o.handles) == used;
      var got := AllocWindowHandles(o, n);
      PickedAreFree(used, n);
      PickNone(used);
      if got == 0 {
        FreeWindowHandles(o);
        return TooManyAreas;
      }
      return Ok;
    }

    /** Whether areas of these depths could be opened. `base` is the base class's answer. */
    method CanHandleAreas(bpp: seq<int>, base: bool, trueColor: bool) returns (result: AreaError)
      ensures result ==
              if !base then BaseError
              else if |bpp| > MAX_OSD_OBJECT then TooManyAreas
              else if (bpp == [32] && !trueColor) || (bpp != [32] && exists i :: 0 <= i < |bpp| && !(1 <= bpp[i] <= 8))
                then BppNotSupported
              else if |bpp| > FreeFrom(bitmap, 0) then TooManyAreas
              else Ok
    {
      if !base {
        return BaseError;
      }
      if |bpp| > MAX_OSD_OBJECT {
        return TooManyAreas;
      }
      if |bpp| == 1 && bpp[0] == 32 {
        if !trueColor {
          return BppNotSupported;
        }
      } else {
        for i := 0 to |bpp|
          invariant forall k :: 0 <= k < i ==> 1 <= bpp[k] <= 8
        {
          if bpp[i] < 1 || bpp[i] > 8 {
            return BppNotSupported;
          }
        }
      }
      var index, windows := 0, |bpp|;
      while index < MAX_OSD_OBJECT && windows > 0
        invariant index <= MAX_OSD_OBJECT && windows >= 0
        invariant windows > 0 ==> windows - FreeFrom(bitmap, index) == |bpp| - FreeFrom(bitmap, 0)
        invariant windows == 0 ==> |bpp| <= FreeFrom(bitmap, 0)
      {
        if index !in bitmap {
          windows := windows - 1;
        }
        index := index + 1;
      }
      result := if windows > 0 then TooManyAreas else Ok;
    }

    // -------------------------------------------------------------- the stack

    /** Put a new display above the first one whose layer is not lower, and show or hide those it covers. */
    method CreateOsd(level: nat) returns (osd: Osd, ghost at: nat)
      requires Valid()
      modifies `stack, stack`visible
      ensures Valid() && fresh(osd) && osd.layer == level && osd.handles == []
      ensures at <= |old(stack)| && stack == old(stack)[..at] + [osd] + old(stack)[at..]
      ensures forall k :: 0 <= k < |old(stack)| ==> (old(stack)[k].layer < level <==> k < at)
    {
      hide Shared, Layered, Stacked, Live;
      osd := new Osd(level);
      ghost var own := Owners();
      Enter(own, bitmap, leaked, osd);
      at := Insert(osd);
      assert Owners() == own[osd := {}];
    }

    method Insert(osd: Osd) returns (ghost at: nat)
      requires Stacked() && osd !in stack
      modifies `stack, stack`visible, osd`visible
      ensures Stacked() && forall p :: p in stack <==> p in old(stack) || p == osd
      ensures at <= |old(stack)| && stack == old(stack)[..at] + [osd] + old(stack)[at..]
      ensures forall k :: 0 <= k < |old(stack)| ==> (old(stack)[k].layer < osd.layer <==> k < at)
    {
      var i := 0;
      while i < |stack| && stack[i].layer < osd.layer
        invariant i <= |stack| && forall k :: 0 <= k < i ==> stack[k].layer < osd.layer
      {
        i := i + 1;
      }
      at := i;
      LayeredInsert(stack, osd, i);
      MembersInsert(stack, osd, i);
      stack := stack[..i] + [osd] + stack[i..];
      ShowStack();
    }

    /** From the bottom up, show or hide every display but the topmost, and then show that one. */
    method ShowStack()
      requires stack != [] && Layered(stack)
      modifies stack`visible
      ensures Stacked()
    {
      var i := |stack| - 1;
      while i > 0
        invariant 0 <= i < |stack|
        invariant forall k :: i < k < |stack| ==> (stack[k].visible <==> !mixerNone)
      {
        if mixerNone {
          stack[i].Hide();
        } else {
          stack[i].Show();
        }
        i := i - 1;
      }
      stack[0].Show();
    }

    /** Take a display off the stack; its handles become free and the topmost of the others is shown. */
    method Destroy(o: Osd, ghost at: nat)
      requires Valid() && at < |stack| && stack[at] == o
      modifies `stack, `bitmap, o`handles, stack`visible
      ensures Valid() && stack == old(stack)[..at] + old(stack)[at + 1..]
      ensures bitmap == old(bitmap) - Live(old(o.handles))
    {
      hide Shared, Layered, Stacked, Live;
      FreeWindowHandles(o);
      ghost var own := Owners();
      Leave(own, bitmap, leaked, o);
      Remove(o, at);
      assert Owners() == own - {o};
    }

    /** Take a display off the stack and show the topmost of the others. */
    method Remove(o: Osd, ghost at: nat)
      requires Stacked() && at < |stack| && stack[at] == o
      modifies `stack, stack`visible
      ensures Stacked() && forall p :: p in stack <==> p in old(stack) && p != o
      ensures stack == old(stack)[..at] + old(stack)[at + 1..]
    {
      var i := 0;
      while stack[i] != o
        invariant i <= at
        decreases at - i
      {
        i := i + 1;
      }
      LayeredRemove(stack, at);
      stack := stack[..i] + stack[i + 1..];
      if stack != [] {
        stack[0].Show();
      }
    }
  }
}
