/** The base class in service, one operation after the other: taking slots and
    posting events, from the constructors on, leave the exchange in the state from
    which a segment may be suspended. */
module Service {
  import opened Common
  import opened Stats
  import opened Calls
  import opened Exchange
  import opened Segments
  import T = Timeslots
  import Keeping

  /** Taking slot `i`, with its registration counted before, or an event for it. */
  datatype Deed =
    | Take(i: nat, cid: nat, entry: Entry, registry: Option<nat>, wall: nat)
    | Tell(i: nat, d: Delivery)

  predicate Possible(c: Core, deed: Deed) {
    match deed
    case Take(i, _, _, _, wall) => i < |c.slots| && c.slots[i].handler == IdleHandler && c.slots[i].phase == Settled && wall > 0
    case Tell(i, d) => i < |c.slots| && c.slots[i].phase == Settled && d.id != SHUTDOWN && d.clk.wall > 0
  }

  function Counted(cfg: Config, c: Core, registry: Option<nat>, e: Entry): Core {
    c.(nodes := AccountAll(c.nodes, One(RegNode(cfg, registry)), e))
  }

  function Done(cfg: Config, c: Core, deed: Deed): (r: Core)
    requires Possible(c, deed)
    ensures |r.slots| == |c.slots|
  {
    match deed
    case Take(i, cid, e, registry, wall) => Allocate(cfg, Counted(cfg, c, registry, e), i, cid, e, registry, wall)
    case Tell(i, d) => Delivered(cfg, c, i, d).core
  }

  ghost predicate Serves(cfg: Config, c: Core, deeds: seq<Deed>, c': Core)
    decreases |deeds|
  {
    if deeds == [] then c == c'
    else Possible(c, deeds[0]) && Serves(cfg, Done(cfg, c, deeds[0]), deeds[1..], c')
  }

  /** After the constructors. */
  ghost predicate Fresh(cfg: Config, c: Core) {
    var n := |c.slots|;
    && cfg.kind == Base
    && (forall i :: 0 <= i < n ==> c.slots[i] == Standing(c.slots[i]) && c.slots[i].phase == Settled)
    && |c.free| == n && (forall k :: 0 <= k < n ==> c.free[k] == n - 1 - k)
    && (forall p: Path :: c.buckets[p] == [])
    && (forall k :: 0 <= k < |c.nodes| ==> c.nodes[k] == UNTOUCHED)
    && c.log == []
  }

  /** Idle and never used; its span and board may be set. */
  function Standing(s: Slot): Slot { Idle(s).(sequence := 0, registry := None) }

  lemma {:induction false} NoCharges(cfg: Config, slots: seq<Slot>, k: nat, n: nat, e: Entry)
    requires k <= |slots| && forall i :: 0 <= i < |slots| ==> slots[i].handler == IdleHandler && slots[i].phase == Settled
    ensures SlotSum(cfg, slots, k, n, e) == 0
  {
    if k > 0 {
      NoCharges(cfg, slots, k - 1, n, e);
    }
  }

  lemma FreshIsQuiet(cfg: Config, c: Core)
    requires Fresh(cfg, c)
    ensures Quiet(cfg, c)
  {
    forall n: nat, e: Entry | n < |c.nodes| ensures c.nodes[n].At(e).current == Total(cfg, System(c, []), n, e) % SHORT {
      NoCharges(cfg, c.slots, |c.slots|, n, e);
    }
    assert FreeOk(c) by {
      forall i: nat ensures i in c.free <==> OnFree(c, i) {
        if i < |c.slots| {
          assert c.free[|c.slots| - 1 - i] == i;
        }
      }
    }
  }

  // ---- taking a slot --------------------------------------------------------------------

  lemma {:induction false} AccountCounts(ns: seq<Node>, taken: seq<nat>, e: Entry, n: nat, d: Entry, x: int)
    requires n < |ns| && ns[n].At(d).current == x % SHORT
    ensures AccountAll(ns, taken, e)[n].At(d).current == (x + if d == e then Count(taken, n) else 0) % SHORT
    decreases |taken|
  {
    if taken != [] {
      WrapUp(x, SHORT);
      var y := if taken[0] == n && d == e then x + 1 else x;
      AccountCounts(Account(ns, taken[0], e), taken[1..], e, n, d, y);
    }
  }

  /** What is counted when a slot is taken is what it will owe. */
  lemma TakenIsOwed(cfg: Config, s: Slot, n: nat)
    ensures Count(One(RegNode(cfg, s.registry)) + Seats(s), n) == Count(Owed(cfg, s), n)
  {
    var r, b, d := One(RegNode(cfg, s.registry)), One(s.span), One(s.board);
    CountAppend(r, [0] + b + d, n);
    CountAppend([0], b + d, n);
    CountAppend(b, d, n);
    assert [0] + (b + d) == [0] + b + d;
    CountAppend([0] + r + b, d, n);
    CountAppend([0] + r, b, n);
    CountAppend([0], r, n);
  }

  lemma TakeCount(cfg: Config, c: Core, deed: Deed, n: nat, d: Entry)
    requires deed.Take? && Possible(c, deed) && n < |c.nodes|
    requires c.nodes[n].At(d).current == Total(cfg, System(c, []), n, d) % SHORT
    ensures var c' := Done(cfg, c, deed);
            |c'.nodes| == |c.nodes| && c'.nodes[n].At(d).current == Total(cfg, System(c', []), n, d) % SHORT
  {
    var c', i := Done(cfg, c, deed), deed.i;
    var t := c'.slots[i];
    var r := One(RegNode(cfg, deed.registry));
    Keeping.SlotSumPut(cfg, c.slots, i, t, |c.slots|, n, d);
    T.AccountAppend(c.nodes, r, Seats(t), deed.entry);
    assert Seats(t) == Seats(c.slots[i]);
    AccountCounts(c.nodes, r + Seats(t), deed.entry, n, d, Total(cfg, System(c, []), n, d));
    TakenIsOwed(cfg, t, n);
  }

  lemma TakeKeeps(cfg: Config, c: Core, deed: Deed)
    requires Quiet(cfg, c) && deed.Take? && Possible(c, deed)
    ensures Quiet(cfg, Done(cfg, c, deed))
  {
    hide CallsOk, FreeOk, BucketsOk, TraceOk, SlotsOk, Allocate;
    var b := Counted(cfg, c, deed.registry, deed.entry);
    NodesAside(c, b);
    var c' := Done(cfg, c, deed);
    Keeping.AllocateLists(cfg, b, deed.i, deed.cid, deed.entry, deed.registry, deed.wall);
    Keeping.AllocateTrace(cfg, b, deed.i, deed.cid, deed.entry, deed.registry, deed.wall);
    TakePhases(cfg, b, deed);
    forall n: nat, d: Entry | n < |c'.nodes| ensures c'.nodes[n].At(d).current == Total(cfg, System(c', []), n, d) % SHORT {
      assert c.nodes[n].At(d).current == Total(cfg, System(c, []), n, d) % SHORT;
      TakeCount(cfg, c, deed, n, d);
    }
  }

  lemma TakePhases(cfg: Config, b: Core, deed: Deed)
    requires deed.Take? && deed.i < |b.slots| && forall j :: 0 <= j < |b.slots| ==> b.slots[j].phase == Settled
    ensures var c' := Allocate(cfg, b, deed.i, deed.cid, deed.entry, deed.registry, deed.wall);
            |c'.nodes| == |b.nodes| && forall j :: 0 <= j < |c'.slots| ==> c'.slots[j].phase == Settled
  {
  }

  /** Counters, and what was said and heard, are no part of lists and records. */
  lemma NodesAside(c: Core, b: Core)
    requires b.slots == c.slots && b.free == c.free && b.buckets == c.buckets && b.log == c.log
    ensures SlotsOk(c) ==> SlotsOk(b)
    ensures FreeOk(c) ==> FreeOk(b)
    ensures BucketsOk(c) ==> BucketsOk(b)
    ensures CallsOk(c) ==> CallsOk(b)
    ensures TraceOk(c) ==> TraceOk(b)
  {
    assert forall i: nat :: OnFree(b, i) == OnFree(c, i);
    assert forall p: Path, i: nat :: OnBucket(b, p, i) == OnBucket(c, p, i);
  }

  // ---- an event ------------------------------------------------------------------------------

  /** A change inside a call, whatever is said or heard. */
  lemma CallKeeps(cfg: Config, c: Core, c': Core, i: nat, t: Slot)
    requires Quiet(cfg, c) && i < |c.slots| && Keeping.SameCall(c.slots[i], t)
    requires c'.slots == c.slots[i := t] && c'.free == c.free && c'.buckets == c.buckets && c'.log == c.log && c'.nodes == c.nodes
    ensures Quiet(cfg, c')
  {
    assert SlotOk(c.slots[i]);
    forall n: nat, e: Entry | n < |c.nodes| ensures c'.nodes[n].At(e).current == Total(cfg, System(c', []), n, e) % SHORT {
      assert c.nodes[n].At(e).current == Total(cfg, System(c, []), n, e) % SHORT;
      Keeping.SlotSumPut(cfg, c.slots, i, t, |c.slots|, n, e);
    }
    assert forall j: nat :: OnFree(c', j) == OnFree(c, j);
    assert forall p: Path, j: nat :: OnBucket(c', p, j) == OnBucket(c, p, j);
    forall p: Path ensures Descending(c'.slots, c'.buckets[p]) {
      assert Descending(c.slots, c.buckets[p]);
      SameOrder(c.slots, c'.slots, c.buckets[p]);
    }
  }

  lemma SaidAside(cfg: Config, c: Core, c': Core)
    requires Quiet(cfg, c) && c' == c.(acts := c'.acts, drops := c'.drops)
    ensures Quiet(cfg, c')
  {
    hide CallsOk, FreeOk, BucketsOk, TraceOk, SlotsOk;
    NodesAside(c, c');
    forall n: nat, e: Entry | n < |c.nodes| ensures c'.nodes[n].At(e).current == Total(cfg, System(c', []), n, e) % SHORT {
      assert c.nodes[n].At(e).current == Total(cfg, System(c, []), n, e) % SHORT;
    }
  }

  /** Releasing a call is disabling its slot and enabling it again. */
  lemma ReleaseIsBothWays(cfg: Config, c: Core, i: nat, wall: nat)
    requires Quiet(cfg, c) && i < |c.slots| && InCall(c.slots[i])
    ensures Finish(BeginRelease(cfg, c, i, wall), i, wall) == Enable(Disabled(cfg, c, i, wall), i)
  {
    hide CallsOk, BucketsOk, TraceOk, CountsOk, RefundAll;
    assert SlotOk(c.slots[i]);
    var d, e := Finish(BeginRelease(cfg, c, i, wall), i, wall), Enable(Disabled(cfg, c, i, wall), i);
    assert Owed(cfg, Parted(c.slots[i])) == Owed(cfg, c.slots[i]);
    DelistPushed(c.free, i);
    assert d.acts == c.acts + [] == c.acts;
    assert d.slots == e.slots;
    assert d.free == e.free;
  }

  lemma ReleaseKeeps(cfg: Config, c: Core, i: nat, wall: nat)
    requires Quiet(cfg, c) && i < |c.slots| && InCall(c.slots[i]) && wall > 0
    ensures Quiet(cfg, Finish(BeginRelease(cfg, c, i, wall), i, wall))
  {
    hide Quiet;
    ReleaseIsBothWays(cfg, c, i, wall);
    DisabledIsOffline(cfg, c, i, wall);
    EnabledIsBack(cfg, Disabled(cfg, c, i, wall), i);
  }

  lemma TellKeeps(cfg: Config, c: Core, i: nat, d: Delivery)
    requires Quiet(cfg, c) && Possible(c, Tell(i, d))
    ensures Quiet(cfg, Delivered(cfg, c, i, d).core)
  {
    var s := c.slots[i];
    assert SlotOk(s);
    if d.id == DISABLE || (s.handler == OfflineHandler && d.id == ENABLE) {
      AbleKeeps(cfg, c, i, d);
    } else if InCall(s) {
      InCallKeeps(cfg, c, i, d);
    }
  }

  lemma AbleKeeps(cfg: Config, c: Core, i: nat, d: Delivery)
    requires Quiet(cfg, c) && Possible(c, Tell(i, d))
    requires d.id == DISABLE || (c.slots[i].handler == OfflineHandler && d.id == ENABLE)
    ensures Quiet(cfg, Delivered(cfg, c, i, d).core)
  {
    hide CallsOk, FreeOk, BucketsOk, TraceOk, CountsOk, SlotsOk, Disabled, Enable;
    if d.id == DISABLE {
      DisablePosts(cfg, c, i, d.clk, d.scr);
      if c.slots[i].handler != OfflineHandler {
        DisabledIsOffline(cfg, c, i, d.clk.wall);
      }
    } else {
      EnablePosts(cfg, c, i, d.clk, d.scr);
      EnabledIsBack(cfg, c, i);
    }
  }

  lemma InCallKeeps(cfg: Config, c: Core, i: nat, d: Delivery)
    requires Quiet(cfg, c) && Possible(c, Tell(i, d)) && InCall(c.slots[i]) && d.id != DISABLE
    ensures Quiet(cfg, Delivered(cfg, c, i, d).core)
  {
    hide CallsOk, FreeOk, BucketsOk, TraceOk, CountsOk, SlotsOk, BeginRelease, Finish;
    var s, c' := c.slots[i], Delivered(cfg, c, i, d).core;
    T.CarriedThrough(cfg, c, i, d.clk.wall);
    if d.id == RELEASE || (d.id == TIMEOUT && s.handler == ReleaseHandler) {
      ReleaseKeeps(cfg, c, i, d.clk.wall);
    } else if s.handler == ScriptHandler && (d.id == DROP || d.id == HANGUP || d.id == TIMEOUT) {
      T.TalkIsWhole(cfg, c, i, d.id, d.clk, d.scr);
      CallKeeps(cfg, c, c', i, T.Talk(cfg, s, d.id, d.clk.ms, d.scr));
    } else {
      SaidAside(cfg, c, c');
    }
  }

  /** So whatever the base class has done since the constructors, suspending may
      begin, also with calls in progress. */
  lemma {:induction false} ServiceIsQuiet(cfg: Config, c: Core, deeds: seq<Deed>, c': Core)
    requires Quiet(cfg, c) && Serves(cfg, c, deeds, c')
    ensures Quiet(cfg, c')
    decreases |deeds|
  {
    if deeds != [] {
      hide Quiet;
      var d := Done(cfg, c, deeds[0]);
      match deeds[0] {
        case Take(_, _, _, _, _) => TakeKeeps(cfg, c, deeds[0]);
        case Tell(i, t) => TellKeeps(cfg, c, i, t);
      }
      ServiceIsQuiet(cfg, d, deeds[1..], c');
    }
  }

  // ---- what the counters then say -----------------------------------------------------------

  /** How often a call in slot `s` counts on node `n`: once for the driver, once for its
      registration, and once for its span and for its board. */
  function Places(cfg: Config, s: Slot, n: nat): nat {
    (if n == 0 then 1 else 0) + (if RegNode(cfg, s.registry) == Some(n) then 1 else 0) +
    (if s.span == Some(n) then 1 else 0) + (if s.board == Some(n) then 1 else 0)
  }

  function CallsOn(cfg: Config, slots: seq<Slot>, k: nat, n: nat, e: Entry): nat
    requires k <= |slots|
  {
    if k == 0 then 0
    else CallsOn(cfg, slots, k - 1, n, e) +
         if InCall(slots[k - 1]) && slots[k - 1].entry == e then Places(cfg, slots[k - 1], n) else 0
  }

  lemma OwedPlaces(cfg: Config, s: Slot, n: nat)
    ensures Count(Owed(cfg, s), n) == Places(cfg, s, n)
  {
    var r, b, d := One(RegNode(cfg, s.registry)), One(s.span), One(s.board);
    CountAppend([0] + r + b, d, n);
    CountAppend([0] + r, b, n);
    CountAppend([0], r, n);
    OneCount(RegNode(cfg, s.registry), n);
    OneCount(s.span, n);
    OneCount(s.board, n);
    OneCount(Some(0), n);
  }

  lemma OneCount(p: Option<nat>, n: nat)
    ensures Count(One(p), n) == if p == Some(n) then 1 else 0
  {
    assert p.Some? ==> One(p)[1..] == [];
  }

  lemma {:induction false} SumIsCallsOn(cfg: Config, slots: seq<Slot>, k: nat, n: nat, e: Entry)
    requires k <= |slots| && forall i :: 0 <= i < |slots| ==> slots[i].phase == Settled
    ensures SlotSum(cfg, slots, k, n, e) == CallsOn(cfg, slots, k, n, e)
  {
    if k > 0 {
      SumIsCallsOn(cfg, slots, k - 1, n, e);
      OwedPlaces(cfg, slots[k - 1], n);
    }
  }

  /** After any service the counters of driver, registrations, spans and boards are
      their calls in progress, modulo 65536. */
  lemma ServiceCounts(cfg: Config, c: Core, deeds: seq<Deed>, c': Core, n: nat, e: Entry)
    requires Fresh(cfg, c) && Serves(cfg, c, deeds, c') && n < |c'.nodes|
    ensures c'.nodes[n].At(e).current == CallsOn(cfg, c'.slots, |c'.slots|, n, e) % SHORT
  {
    hide Quiet, Fresh, Serves;
    FreshIsQuiet(cfg, c);
    ServiceIsQuiet(cfg, c, deeds, c');
    QuietCounts(cfg, c', n, e);
  }

  lemma QuietCounts(cfg: Config, c: Core, n: nat, e: Entry)
    requires Quiet(cfg, c) && n < |c.nodes|
    ensures c.nodes[n].At(e).current == CallsOn(cfg, c.slots, |c.slots|, n, e) % SHORT
  {
    hide SlotsOk, FreeOk, BucketsOk, CallsOk, TraceOk;
    SumIsCallsOn(cfg, c.slots, |c.slots|, n, e);
    assert c.nodes[n].At(e).current == Total(cfg, System(c, []), n, e) % SHORT;
  }

  /** Suspending and then resuming: the second accepts what the first has done. */
  method Cycle(segment: Segment, sb: T.Switchboard, clk: Clock, scr: Script) returns (suspended: bool, resumed: bool)
    requires sb.Populated() && Quiet(sb.cfg, sb.Whole()) && clk.wall > 0 && segment.live
    modifies segment`live, sb.slots, sb`timeslots, sb`buckets, sb`log, sb`acts, sb`drops, sb`tallies, sb.nodes
    ensures sb.Populated() && Quiet(sb.cfg, sb.Whole())
    ensures suspended <==> NoneOffline(old(sb.Whole()), segment.first, segment.count)
    ensures suspended ==> resumed && segment.live
    ensures suspended ==>
              var c, c2 := old(sb.Whole()), sb.Whole();
              && c2.free == Pushed(c, segment.first, segment.count) + Without(c.free, segment.first, segment.first + segment.count)
              && c2.log == LogAfter(c, segment.first, segment.count, clk.wall) && |c2.slots| == |c.slots|
              && (forall i :: 0 <= i < |c.slots| ==>
                    if segment.first <= i < segment.first + segment.count then c2.slots[i].handler == IdleHandler
                    else c2.slots[i] == c.slots[i])
  {
    hide Quiet, RangeOffline, RangeBack;
    ghost var c := sb.Whole();
    ghost var m, k: nat;
    var error;
    error, m := segment.Suspend(sb, clk, scr);
    suspended, resumed := !error, false;
    if suspended {
      ghost var c1 := sb.Whole();
      error, k := segment.Resume(sb, clk, scr);
      resumed := !error;
      SuspendResume(c, c1, sb.Whole(), segment.first, segment.count, clk.wall);
    }
  }
}
