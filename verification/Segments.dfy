/** Suspending and resuming a segment of slots (common/segment.cpp) with the
    handlers of the base class, one event after the other. */
module Segments {
  import opened Common
  import opened Stats
  import opened Calls
  import opened Exchange
  import opened Timeslots
  import Keeping

  // ---- the states between events ---------------------------------------------

  /** No release is under way and no invite holds a reservation. */
  ghost predicate Quiet(cfg: Config, c: Core) {
    && cfg.kind == Base
    && (forall i :: 0 <= i < |c.slots| ==> c.slots[i].phase == Settled)
    && SlotsOk(c) && FreeOk(c) && BucketsOk(c) && CallsOk(c) && TraceOk(c)
    && CountsOk(cfg, System(c, []))
  }

  /** The rest of the world after slot `i` alone has changed. */
  ghost predicate OthersKept(c: Core, c': Core, i: nat) {
    |c'.slots| == |c.slots| && forall j :: 0 <= j < |c.slots| && j != i ==> c'.slots[j] == c.slots[j]
  }

  // ---- one slot --------------------------------------------------------------

  /** The records that disabling slot `i` posts. */
  function Stops(c: Core, i: nat, wall: nat): seq<Record>
    requires i < |c.slots|
  {
    if c.slots[i].started == 0 then [] else [StopRecord(c.slots[i], i, wall)]
  }

  /** Disabling in one expression: an idle slot only leaves the free list, a
      slot in a call leaves its bucket, gives its counts back and posts its STOP. */
  function Disabled(cfg: Config, c: Core, i: nat, wall: nat): Core
    requires i < |c.slots|
  {
    var s := c.slots[i];
    if s.started == 0 then GoOffline(c, i, wall)
    else
      c.Put(i, Ended(cfg, Parted(s)).(started := wall, handler := OfflineHandler))
       .(free := Delist([i] + c.free, i), buckets := c.buckets[PathOf(s.cid) := Delist(c.buckets[PathOf(s.cid)], i)],
         nodes := RefundAll(c.nodes, Owed(cfg, s), s.entry, wall), log := c.log + Stops(c, i, wall))
  }

  lemma DisableIsDisabled(cfg: Config, c: Core, i: nat, wall: nat)
    requires i < |c.slots| && cfg.kind == Base
    ensures Disable(cfg, c, i, wall) == Disabled(cfg, c, i, wall)
  {
    hide RefundAll;
    if c.slots[i].started != 0 {
      var h := Hangup(cfg, c, i);
      assert h == c.Put(i, Parted(c.slots[i])) by {
        assert c.acts + [] == c.acts;
      }
      ReleaseInOneGo(cfg, h, i, wall);
      assert Owed(cfg, h.slots[i]) == Owed(cfg, c.slots[i]);
      assert h.acts + [] == h.acts;
      var d := Finish(BeginRelease(cfg, h, i, wall), i, wall);
      assert GoOffline(d, i, wall).slots == Disabled(cfg, c, i, wall).slots;
    }
  }

  lemma {:induction false} RefundCounts(ns: seq<Node>, owed: seq<nat>, e: Entry, wall: nat, n: nat, d: Entry, x: int)
    requires n < |ns| && ns[n].At(d).current == x % SHORT
    ensures RefundAll(ns, owed, e, wall)[n].At(d).current == (x - if d == e then Count(owed, n) else 0) % SHORT
    decreases |owed|
  {
    if owed != [] {
      WrapDown(x, SHORT);
      var y := if owed[0] == n && d == e then x - 1 else x;
      RefundCounts(Refund(ns, owed[0], e, wall), owed[1..], e, wall, n, d, y);
    }
  }

  lemma DisableCount(cfg: Config, c: Core, i: nat, wall: nat, n: nat, e: Entry)
    requires i < |c.slots| && SlotOk(c.slots[i]) && c.slots[i].phase == Settled && c.slots[i].handler != OfflineHandler
    requires n < |c.nodes| && c.nodes[n].At(e).current == Total(cfg, System(c, []), n, e) % SHORT
    ensures var c' := Disabled(cfg, c, i, wall);
            |c'.nodes| == |c.nodes| && c'.nodes[n].At(e).current == Total(cfg, System(c', []), n, e) % SHORT
  {
    hide Stops, StopRecord, Delist, RefundAll, Released;
    var c', s := Disabled(cfg, c, i, wall), c.slots[i];
    var t := c'.slots[i];
    Keeping.SlotSumPut(cfg, c.slots, i, t, |c.slots|, n, e);
    assert c'.slots == c.slots[i := t] && Charge(cfg, t, n, e) == 0;
    if s.started != 0 {
      RefundCounts(c.nodes, Owed(cfg, s), s.entry, wall, n, e, Total(cfg, System(c, []), n, e));
    }
  }

  lemma DisableCounts(cfg: Config, c: Core, i: nat, wall: nat)
    requires Quiet(cfg, c) && i < |c.slots| && c.slots[i].handler != OfflineHandler
    ensures CountsOk(cfg, System(Disabled(cfg, c, i, wall), []))
  {
    assert SlotOk(c.slots[i]);
    forall n: nat, e: Entry | n < |c.nodes|
      ensures var c' := Disabled(cfg, c, i, wall);
              |c'.nodes| == |c.nodes| && c'.nodes[n].At(e).current == Total(cfg, System(c', []), n, e) % SHORT
    {
      DisableCount(cfg, c, i, wall, n, e);
    }
  }

  lemma FreeWithout(c: Core, c': Core, i: nat, t: Slot)
    requires FreeOk(c) && i < |c.slots| && c'.slots == c.slots[i := t] && t.handler == OfflineHandler
    requires c'.free == Delist(c.free, i)
    ensures FreeOk(c')
  {
    DelistMembers(c.free, i);
    assert forall j: nat :: OnFree(c', j) <==> OnFree(c, j) && j != i;
  }

  /** A bucketed slot leaves its bucket, any other slot was in none. */
  lemma BucketsWithout(c: Core, c': Core, i: nat, t: Slot)
    requires BucketsOk(c) && i < |c.slots| && c'.slots == c.slots[i := t]
    requires !Bucketed(t) && t.call == c.slots[i].call
    requires var path := PathOf(c.slots[i].cid); c'.buckets == c.buckets[path := Delist(c.buckets[path], i)]
    ensures BucketsOk(c')
  {
    forall p: Path ensures Descending(c'.slots, c'.buckets[p]) && forall j: nat :: j in c'.buckets[p] <==> OnBucket(c', p, j) {
      var b, b' := c.buckets[p], c'.buckets[p];
      assert Descending(c.slots, b);
      assert forall j: nat :: j in b <==> OnBucket(c, p, j);
      assert forall j: nat :: OnBucket(c', p, j) <==> OnBucket(c, p, j) && j != i;
      Keeping.DescendingNoDup(c.slots, b);
      DelistMembers(b, i);
      Keeping.DescendingDelist(c.slots, b, i);
      assert Descending(c.slots, b');
      SameOrder(c.slots, c'.slots, b');
    }
  }

  lemma SameOrder(slots: seq<Slot>, slots': seq<Slot>, list: seq<nat>)
    requires Descending(slots, list) && |slots'| == |slots|
    requires forall j :: 0 <= j < |slots| ==> slots'[j].call == slots[j].call
    ensures Descending(slots', list)
  {
  }

  /** The pushes and pulls of a disable cancel out: the slot leaves whichever list it is on. */
  lemma DisableUnlinks(cfg: Config, c: Core, i: nat, wall: nat)
    requires FreeOk(c) && BucketsOk(c) && i < |c.slots| && SlotOk(c.slots[i])
    requires c.slots[i].phase == Settled && c.slots[i].handler != OfflineHandler
    ensures var c', path := Disabled(cfg, c, i, wall), PathOf(c.slots[i].cid);
            c'.free == Delist(c.free, i) && c'.buckets == c.buckets[path := Delist(c.buckets[path], i)]
  {
    hide Ended, Stops;
    var path := PathOf(c.slots[i].cid);
    if c.slots[i].started != 0 {
      assert !OnFree(c, i);
      assert i !in c.free;
      DelistPushed(c.free, i);
    } else {
      assert !OnBucket(c, path, i);
      assert i !in c.buckets[path];
      assert c.buckets == c.buckets[path := Delist(c.buckets[path], i)];
    }
  }

  lemma DisableCalls(cfg: Config, c: Core, i: nat, wall: nat)
    requires SlotsOk(c) && CallsOk(c) && i < |c.slots| && wall > 0
    requires c.slots[i].phase == Settled && c.slots[i].handler != OfflineHandler
    ensures CallsOk(Disabled(cfg, c, i, wall)) && SlotsOk(Disabled(cfg, c, i, wall))
  {
    hide Stops;
    var c' := Disabled(cfg, c, i, wall);
    assert SlotOk(c.slots[i]);
    assert c'.log[..|c.log|] == c.log;
    assert forall j :: 0 <= j < |c.slots| && j != i ==> c'.slots[j] == c.slots[j];
    assert forall k :: 0 <= k < |c.log| ==> c'.log[k] == c.log[k];
  }

  lemma DisableLists(cfg: Config, c: Core, i: nat, wall: nat)
    requires Quiet(cfg, c) && i < |c.slots| && c.slots[i].handler != OfflineHandler && wall > 0
    ensures var c' := Disabled(cfg, c, i, wall);
            c'.free == Delist(c.free, i) && FreeOk(c') && BucketsOk(c') && CallsOk(c') && SlotsOk(c')
  {
    hide CountsOk, TraceOk, CallsOk, FreeOk, BucketsOk, Stops;
    var c' := Disabled(cfg, c, i, wall);
    assert SlotOk(c.slots[i]);
    DisableUnlinks(cfg, c, i, wall);
    DisableCalls(cfg, c, i, wall);
    FreeWithout(c, c', i, c'.slots[i]);
    BucketsWithout(c, c', i, c'.slots[i]);
  }

  lemma DisableTrace(cfg: Config, c: Core, i: nat, wall: nat)
    requires Quiet(cfg, c) && i < |c.slots| && c.slots[i].handler != OfflineHandler
    ensures TraceOk(Disabled(cfg, c, i, wall))
  {
    hide FreeOk, BucketsOk, CallsOk, CountsOk;
    var c' := Disabled(cfg, c, i, wall);
    assert SlotOk(c.slots[i]);
    if c.slots[i].started == 0 {
      assert c'.log == c.log;
    } else {
      var r := StopRecord(c.slots[i], i, wall);
      assert c'.log == c.log + [r];
      forall j | 0 <= j < |c.slots|
        ensures Read(c'.log, j, |c'.log|) ==
                if InCall(c'.slots[j]) then Open(c'.slots[j].sequence, c'.slots[j].started) else Closed(c'.slots[j].sequence)
      {
        Keeping.ReadPrefix(c.log, [r], j, |c.log|);
      }
    }
  }

  /** What one DISABLE does to a slot that is not offline yet. */
  ghost predicate TakenOffline(c: Core, c': Core, i: nat, wall: nat)
    requires i < |c.slots|
  {
    && OthersKept(c, c', i) && c'.slots[i].handler == OfflineHandler && c'.slots[i].started == wall
    && c'.slots[i].timer == None && !c'.slots[i].connected
    && c'.free == Delist(c.free, i) && c'.log == c.log + Stops(c, i, wall)
  }

  lemma DisabledIsOffline(cfg: Config, c: Core, i: nat, wall: nat)
    requires Quiet(cfg, c) && i < |c.slots| && c.slots[i].handler != OfflineHandler && wall > 0
    ensures Quiet(cfg, Disabled(cfg, c, i, wall)) && TakenOffline(c, Disabled(cfg, c, i, wall), i, wall)
    ensures Unlisted(Disabled(cfg, c, i, wall), i)
  {
    DisableLists(cfg, c, i, wall);
    DisableCounts(cfg, c, i, wall);
    DisableTrace(cfg, c, i, wall);
    OfflineIsUnlisted(Disabled(cfg, c, i, wall), i);
  }

  ghost predicate Unlisted(c: Core, i: nat) { i !in c.free && forall p: Path :: i !in c.buckets[p] }

  lemma OfflineIsUnlisted(c: Core, i: nat)
    requires FreeOk(c) && BucketsOk(c) && SlotsOk(c) && i < |c.slots| && c.slots[i].handler == OfflineHandler
    ensures Unlisted(c, i)
  {
    assert SlotOk(c.slots[i]) && !OnFree(c, i);
    forall p: Path ensures i !in c.buckets[p] {
      assert !OnBucket(c, p, i);
    }
  }

  lemma DisablePosts(cfg: Config, c: Core, i: nat, clk: Clock, scr: Script)
    requires i < |c.slots| && cfg.kind == Base && c.slots[i].phase == Settled
    ensures Post(cfg, c, i, DISABLE, clk, scr) ==
            if c.slots[i].handler == OfflineHandler then Handled(c, REJECT, 0)
            else Handled(Disabled(cfg, c, i, clk.wall), RELEASE, if c.slots[i].started == 0 then 1 else 2)
  {
    DisableIsDisabled(cfg, c, i, clk.wall);
  }

  /** What one ENABLE does to an offline slot. */
  ghost predicate BroughtBack(c: Core, c': Core, i: nat)
    requires i < |c.slots|
  {
    && OthersKept(c, c', i) && c'.slots[i].handler == IdleHandler && c'.slots[i].started == 0
    && c'.slots[i].timer == None && !c'.slots[i].connected
    && c'.free == [i] + c.free && c'.log == c.log
  }

  lemma EnablePosts(cfg: Config, c: Core, i: nat, clk: Clock, scr: Script)
    requires i < |c.slots| && c.slots[i].phase == Settled
    ensures Post(cfg, c, i, ENABLE, clk, scr) ==
            if c.slots[i].handler == OfflineHandler then Handled(Enable(c, i), RELEASE, 1) else Handled(c, REJECT, 0)
  {
  }

  lemma EnableLists(c: Core, i: nat)
    requires SlotsOk(c) && FreeOk(c) && BucketsOk(c) && i < |c.slots| && c.slots[i].handler == OfflineHandler
    ensures FreeOk(Enable(c, i)) && BucketsOk(Enable(c, i))
  {
    var c' := Enable(c, i);
    assert SlotOk(c.slots[i]);
    assert !OnFree(c, i);
    assert i !in c.free;
    assert forall j: nat :: OnFree(c', j) <==> OnFree(c, j) || j == i;
    assert forall j: nat :: j in c'.free <==> j in c.free || j == i;
    assert forall p: Path, j: nat :: OnBucket(c', p, j) == OnBucket(c, p, j);
    forall p: Path ensures Descending(c'.slots, c'.buckets[p]) {
      assert Descending(c.slots, c.buckets[p]);
      SameOrder(c.slots, c'.slots, c.buckets[p]);
    }
  }

  lemma EnabledIsBack(cfg: Config, c: Core, i: nat)
    requires Quiet(cfg, c) && i < |c.slots| && c.slots[i].handler == OfflineHandler
    ensures Quiet(cfg, Enable(c, i)) && BroughtBack(c, Enable(c, i), i)
  {
    var c' := Enable(c, i);
    assert SlotOk(c.slots[i]);
    EnableLists(c, i);
    forall n: nat, e: Entry | n < |c.nodes|
      ensures c'.nodes[n].At(e).current == Total(cfg, System(c', []), n, e) % SHORT
    {
      assert c.nodes[n].At(e).current == Total(cfg, System(c, []), n, e) % SHORT;
      Keeping.SlotSumPut(cfg, c.slots, i, c'.slots[i], |c.slots|, n, e);
    }
  }

  // ---- a range of slots ----------------------------------------------------------

  /** What is left of a list when the slots of a range are gone. */
  function Without(s: seq<nat>, lo: nat, hi: nat): seq<nat> {
    if s == [] then []
    else if lo <= s[0] < hi then Without(s[1..], lo, hi)
    else [s[0]] + Without(s[1..], lo, hi)
  }

  /** The records, with the STOP of each call among `m` slots from `first` on. */
  function LogAfter(c: Core, first: nat, m: nat, wall: nat): seq<Record> {
    if m == 0 then c.log
    else if first + m - 1 < |c.slots| then LogAfter(c, first, m - 1, wall) + Stops(c, first + m - 1, wall)
    else LogAfter(c, first, m - 1, wall)
  }

  /** The same slots, as resume pushes them. */
  function Pushed(c: Core, first: nat, m: nat): seq<nat> {
    if m == 0 then []
    else (if first + m - 1 < |c.slots| then [first + m - 1] else []) + Pushed(c, first, m - 1)
  }

  /** Exactly these slots have gone offline: each is off every list, its call has
      posted its STOP, and other slots keep their fields and their order. */
  ghost predicate RangeOffline(c: Core, c': Core, first: nat, m: nat, wall: nat) {
    && |c'.slots| == |c.slots|
    && (forall i :: 0 <= i < |c.slots| ==>
          if first <= i < first + m then c'.slots[i].handler == OfflineHandler else c'.slots[i] == c.slots[i])
    && c'.free == Without(c.free, first, first + m)
    && c'.log == LogAfter(c, first, m, wall)
  }

  /** Exactly these slots are back in service, on top of the free list. */
  ghost predicate RangeBack(c: Core, c': Core, first: nat, m: nat) {
    && |c'.slots| == |c.slots|
    && (forall i :: 0 <= i < |c.slots| ==>
          if first <= i < first + m then c'.slots[i].handler == IdleHandler else c'.slots[i] == c.slots[i])
    && c'.free == Pushed(c, first, m) + c.free
    && c'.log == c.log
  }

  ghost predicate NoneOffline(c: Core, first: nat, m: nat) {
    forall i :: first <= i < first + m && i < |c.slots| ==> c.slots[i].handler != OfflineHandler
  }

  ghost predicate AllOffline(c: Core, first: nat, m: nat) {
    forall i :: first <= i < first + m && i < |c.slots| ==> c.slots[i].handler == OfflineHandler
  }

  /** Slot `i` rejects the event: DISABLE when offline, ENABLE when not. */
  ghost predicate Refuses(c: Core, i: nat, id: Event) {
    i < |c.slots| && (c.slots[i].handler == OfflineHandler <==> id == DISABLE)
  }

  lemma {:induction false} WithoutNone(s: seq<nat>, lo: nat)
    ensures Without(s, lo, lo) == s
  {
    if s != [] {
      WithoutNone(s[1..], lo);
    }
  }

  lemma {:induction false} WithoutTwice(s: seq<nat>, lo: nat, mid: nat)
    requires lo <= mid
    ensures Without(Without(s, lo, mid), mid, mid + 1) == Without(s, lo, mid + 1)
  {
    if s != [] {
      WithoutTwice(s[1..], lo, mid);
      var r := Without(s[1..], lo, mid);
      assert ([s[0]] + r)[1..] == r;
    }
  }

  lemma {:induction false} WithoutAppend(a: seq<nat>, b: seq<nat>, lo: nat, hi: nat)
    ensures Without(a + b, lo, hi) == Without(a, lo, hi) + Without(b, lo, hi)
  {
    if a == [] {
      assert a + b == b;
    } else {
      assert (a + b)[0] == a[0] && (a + b)[1..] == a[1..] + b;
      WithoutAppend(a[1..], b, lo, hi);
    }
  }

  lemma {:induction false} WithoutStranger(s: seq<nat>, x: nat)
    requires x !in s
    ensures Without(s, x, x + 1) == s
  {
    if s != [] {
      assert x !in s[1..];
      WithoutStranger(s[1..], x);
    }
  }

  lemma WithoutOne(s: seq<nat>, x: nat)
    requires NoDup(s)
    ensures Delist(s, x) == Without(s, x, x + 1)
  {
    if x in s {
      var p := IndexOf(s, x);
      var a, b := s[..p], s[p + 1..];
      assert s == a + ([x] + b);
      assert x !in a && x !in b;
      WithoutAppend(a, [x] + b, x, x + 1);
      WithoutStranger(a, x);
      WithoutStranger(b, x);
      assert ([x] + b)[1..] == b;
    } else {
      WithoutStranger(s, x);
    }
  }

  lemma NothingYet(c: Core, first: nat, wall: nat)
    ensures RangeOffline(c, c, first, 0, wall) && RangeBack(c, c, first, 0)
  {
    WithoutNone(c.free, first);
    assert [] + c.free == c.free;
  }

  /** One more slot offline. */
  lemma RangeGrows(c: Core, d: Core, d': Core, first: nat, m: nat, wall: nat)
    requires RangeOffline(c, d, first, m, wall) && NoDup(d.free)
    requires if first + m < |c.slots| then TakenOffline(d, d', first + m, wall) else d' == d && first + m !in d.free
    ensures RangeOffline(c, d', first, m + 1, wall)
  {
    hide StopRecord, Delist, IndexOf, NoDup, Without;
    WithoutTwice(c.free, first, first + m);
    if first + m < |c.slots| {
      WithoutOne(d.free, first + m);
      assert Stops(d, first + m, wall) == Stops(c, first + m, wall);
    } else {
      WithoutStranger(d.free, first + m);
    }
  }

  /** The slot that comes next has not been touched. */
  lemma NextSlot(c: Core, d: Core, first: nat, m: nat, wall: nat)
    requires RangeOffline(c, d, first, m, wall)
    ensures |d.slots| == |c.slots| && (first + m < |c.slots| ==> d.slots[first + m] == c.slots[first + m])
  {
  }

  /** One more slot back. */
  lemma BackGrows(c: Core, d: Core, d': Core, first: nat, m: nat)
    requires RangeBack(c, d, first, m)
    requires if first + m < |c.slots| then BroughtBack(d, d', first + m) else d' == d
    ensures RangeBack(c, d', first, m + 1)
  {
    if first + m < |c.slots| {
      assert [first + m] + (Pushed(c, first, m) + c.free) == Pushed(c, first, m + 1) + c.free;
    } else {
      assert Pushed(c, first, m + 1) == [] + Pushed(c, first, m);
    }
  }

  lemma FreeSlots(cfg: Config, c: Core, i: nat)
    requires Quiet(cfg, c)
    ensures NoDup(c.free) && (i >= |c.slots| ==> i !in c.free)
  {
    assert i in c.free <==> OnFree(c, i);
  }

  /** Suspend and resume are inverse: what a suspend took offline, resume accepts
      and returns to the free list, and nothing else has changed. */
  lemma SuspendResume(c: Core, c1: Core, c2: Core, first: nat, m: nat, wall: nat)
    requires RangeOffline(c, c1, first, m, wall)
    ensures AllOffline(c1, first, m) && forall i :: first <= i < first + m ==> !Refuses(c1, i, ENABLE)
    ensures RangeBack(c1, c2, first, m) ==>
              && c2.free == Pushed(c, first, m) + Without(c.free, first, first + m)
              && c2.log == LogAfter(c, first, m, wall)
              && |c2.slots| == |c.slots|
              && (forall i :: 0 <= i < |c.slots| ==>
                    if first <= i < first + m then c2.slots[i].handler == IdleHandler else c2.slots[i] == c.slots[i])
  {
    PushedSame(c, c1, first, m);
  }

  lemma {:induction false} PushedSame(c: Core, d: Core, first: nat, m: nat)
    requires |d.slots| == |c.slots|
    ensures Pushed(d, first, m) == Pushed(c, first, m)
  {
    if m > 0 {
      PushedSame(c, d, first, m - 1);
    }
  }

  // ---- the segment object -----------------------------------------------------------

  class Segment {
    var live: bool
    const first: nat
    const count: nat

    constructor (first: nat, count: nat)
      ensures live && this.first == first && this.count == count
    {
      live, this.first, this.count := true, first, count;
    }

    /** Succeeds iff the segment was live and none of its slots was offline; then
        exactly its slots have gone offline.  A suspend that fails half way leaves
        the `m` slots before the first offline one disabled. */
    method Suspend(sb: Switchboard, clk: Clock, scr: Script) returns (error: bool, ghost m: nat)
      requires sb.Populated() && Quiet(sb.cfg, sb.Whole()) && clk.wall > 0
      modifies this`live, sb.slots, sb`timeslots, sb`buckets, sb`log, sb`acts, sb`drops, sb`tallies, sb.nodes
      ensures sb.Populated() && Quiet(sb.cfg, sb.Whole())
      ensures live <==> old(live) && error
      ensures RangeOffline(old(sb.Whole()), sb.Whole(), first, m, clk.wall)
      ensures if !old(live) then m == 0 && error else if !error then m == count
              else m < count && Refuses(old(sb.Whole()), first + m, DISABLE)
      ensures old(live) ==> NoneOffline(old(sb.Whole()), first, m)
    {
      hide RangeOffline, Quiet;
      NothingYet(sb.Whole(), first, clk.wall);
      if !live {
        return true, 0;
      }
      var done := 0;
      done, error := DisableAll(sb, sb.Whole(), clk, scr);
      m := done;
      if !error {
        live := false;
      }
    }

    /** The loop of suspend. */
    method DisableAll(sb: Switchboard, ghost c: Core, clk: Clock, scr: Script) returns (m: nat, error: bool)
      requires Progress(sb, c, 0, clk.wall) && clk.wall > 0
      modifies sb.slots, sb`timeslots, sb`buckets, sb`log, sb`acts, sb`drops, sb`tallies, sb.nodes
      ensures Progress(sb, c, m, clk.wall)
      ensures if error then m < count && Refuses(c, first + m, DISABLE) else m == count
    {
      hide Progress;
      m, error := 0, false;
      var tsc, tsid := count, first;
      while tsc > 0 && !error
        invariant Progress(sb, c, m, clk.wall)
        invariant tsid == first + m && m == count - tsc
        invariant error ==> m < count && Refuses(c, first + m, DISABLE)
        decreases tsc, !error
      {
        var r := DisableNext(sb, tsid, c, m, clk, scr);
        if r == REJECT {
          error := true;
        } else {
          tsc, tsid, m := tsc - 1, tsid + 1, m + 1;
        }
      }
    }

    ghost predicate Progress(sb: Switchboard, c: Core, m: nat, wall: nat)
      reads sb, sb.slots, sb.nodes, sb.registrations
    {
      && sb.Populated() && Quiet(sb.cfg, sb.Whole())
      && RangeOffline(c, sb.Whole(), first, m, wall) && NoneOffline(c, first, m)
    }

    /** One turn of the loop; a number beyond the last slot is passed over. */
    method DisableNext(sb: Switchboard, tsid: nat, ghost c: Core, ghost m: nat, clk: Clock, scr: Script) returns (r: Event)
      requires Progress(sb, c, m, clk.wall) && tsid == first + m && clk.wall > 0
      modifies sb.slots, sb`timeslots, sb`buckets, sb`log, sb`acts, sb`drops, sb`tallies, sb.nodes
      ensures if r == REJECT then Progress(sb, c, m, clk.wall) && Refuses(c, tsid, DISABLE)
              else Progress(sb, c, m + 1, clk.wall)
    {
      hide RangeOffline, TakenOffline, Quiet;
      ghost var d := sb.Whole();
      FreeSlots(sb.cfg, d, tsid);
      NextSlot(c, d, first, m, clk.wall);
      r := DISABLE;
      if tsid < |sb.slots| {
        r := PostDisable(sb, tsid, clk, scr);
      }
      if r != REJECT {
        RangeGrows(c, d, sb.Whole(), first, m, clk.wall);
      }
    }

    method PostDisable(sb: Switchboard, i: nat, clk: Clock, scr: Script) returns (r: Event)
      requires sb.Populated() && Quiet(sb.cfg, sb.Whole()) && clk.wall > 0 && i < |sb.slots|
      modifies sb.slots, sb`timeslots, sb`buckets, sb`log, sb`acts, sb`drops, sb`tallies, sb.nodes
      ensures sb.Populated() && Quiet(sb.cfg, sb.Whole())
      ensures r == REJECT <==> old(sb.Whole()).slots[i].handler == OfflineHandler
      ensures if r == REJECT then sb.Whole() == old(sb.Whole()) else TakenOffline(old(sb.Whole()), sb.Whole(), i, clk.wall)
    {
      DisablePosts(sb.cfg, sb.Whole(), i, clk, scr);
      if sb.Whole().slots[i].handler != OfflineHandler {
        DisabledIsOffline(sb.cfg, sb.Whole(), i, clk.wall);
      }
      r := sb.PostTo(i, DISABLE, clk, scr);
    }

    /** Succeeds iff the segment was suspended and all of its slots are offline;
        then exactly its slots are back on the free list. */
    method Resume(sb: Switchboard, clk: Clock, scr: Script) returns (error: bool, ghost m: nat)
      requires sb.Populated() && Quiet(sb.cfg, sb.Whole())
      modifies this`live, sb.slots, sb`timeslots, sb`buckets, sb`log, sb`acts, sb`drops, sb`tallies, sb.nodes
      ensures sb.Populated() && Quiet(sb.cfg, sb.Whole())
      ensures live <==> old(live) || !error
      ensures RangeBack(old(sb.Whole()), sb.Whole(), first, m)
      ensures if old(live) then m == 0 && error else if !error then m == count
              else m < count && Refuses(old(sb.Whole()), first + m, ENABLE)
      ensures !old(live) ==> AllOffline(old(sb.Whole()), first, m)
    {
      hide RangeBack, Quiet;
      NothingYet(sb.Whole(), first, clk.wall);
      if live {
        return true, 0;
      }
      var done := 0;
      done, error := EnableAll(sb, sb.Whole(), clk, scr);
      m := done;
      if !error {
        live := true;
      }
    }

    /** The loop of resume. */
    method EnableAll(sb: Switchboard, ghost c: Core, clk: Clock, scr: Script) returns (m: nat, error: bool)
      requires Return(sb, c, 0)
      modifies sb.slots, sb`timeslots, sb`buckets, sb`log, sb`acts, sb`drops, sb`tallies, sb.nodes
      ensures Return(sb, c, m)
      ensures if error then m < count && Refuses(c, first + m, ENABLE) else m == count
    {
      hide Return;
      m, error := 0, false;
      var tsc, tsid := count, first;
      while tsc > 0 && !error
        invariant Return(sb, c, m)
        invariant tsid == first + m && m == count - tsc
        invariant error ==> m < count && Refuses(c, first + m, ENABLE)
        decreases tsc, !error
      {
        var r := EnableNext(sb, tsid, c, m, clk, scr);
        if r == REJECT {
          error := true;
        } else {
          tsc, tsid, m := tsc - 1, tsid + 1, m + 1;
        }
      }
    }

    ghost predicate Return(sb: Switchboard, c: Core, m: nat)
      reads sb, sb.slots, sb.nodes, sb.registrations
    {
      && sb.Populated() && Quiet(sb.cfg, sb.Whole())
      && RangeBack(c, sb.Whole(), first, m) && AllOffline(c, first, m)
    }

    method EnableNext(sb: Switchboard, tsid: nat, ghost c: Core, ghost m: nat, clk: Clock, scr: Script) returns (r: Event)
      requires Return(sb, c, m) && tsid == first + m
      modifies sb.slots, sb`timeslots, sb`buckets, sb`log, sb`acts, sb`drops, sb`tallies, sb.nodes
      ensures if r == REJECT then Return(sb, c, m) && Refuses(c, tsid, ENABLE)
              else Return(sb, c, m + 1)
    {
      ghost var d := sb.Whole();
      r := ENABLE;
      if tsid < |sb.slots| {
        r := PostEnable(sb, tsid, clk, scr);
      }
      if r != REJECT {
        BackGrows(c, d, sb.Whole(), first, m);
      }
    }

    method PostEnable(sb: Switchboard, i: nat, clk: Clock, scr: Script) returns (r: Event)
      requires sb.Populated() && Quiet(sb.cfg, sb.Whole()) && i < |sb.slots|
      modifies sb.slots, sb`timeslots, sb`buckets, sb`log, sb`acts, sb`drops, sb`tallies, sb.nodes
      ensures sb.Populated() && Quiet(sb.cfg, sb.Whole())
      ensures r == REJECT <==> old(sb.Whole()).slots[i].handler != OfflineHandler
      ensures if r == REJECT then sb.Whole() == old(sb.Whole()) else BroughtBack(old(sb.Whole()), sb.Whole(), i)
    {
      EnablePosts(sb.cfg, sb.Whole(), i, clk, scr);
      if sb.Whole().slots[i].handler == OfflineHandler {
        EnabledIsBack(sb.cfg, sb.Whole(), i);
      }
      r := sb.PostTo(i, ENABLE, clk, scr);
    }
  }
}
