/** What holds at every point of every run of the exchange. */
module Theorems {
  import opened Common
  import opened Stats
  import opened Calls
  import opened Exchange
  import Keeping

  /** `s` occurs in some run from the constructors. */
  ghost predicate Reachable(cfg: Config, s: System) {
    exists s0, steps :: Init(cfg, s0) && Runs(cfg, s0, steps, s)
  }

  lemma ReachableIsSafe(cfg: Config, s: System)
    requires Reachable(cfg, s)
    ensures Inv(cfg, s) && TimersOk(s.core)
  {
    var s0, steps :| Init(cfg, s0) && Runs(cfg, s0, steps, s);
    Keeping.InitHolds(cfg, s0);
    Keeping.Safety(cfg, s0, steps, s);
  }

  // ---- admission ------------------------------------------------------------------

  /** Slot `i` counts on node `n` in direction `e`: its call does, and is still
      going on or has not given that count back yet. */
  ghost predicate Owns(cfg: Config, s: Slot, n: nat, e: Entry) {
    s.entry == e && (if InCall(s) then n in Owed(cfg, s) else s.phase.GivingBack? && n in s.phase.owed)
  }

  ghost predicate Holds(cfg: Config, v: Invite, n: nat) {
    !v.Ready? && RegNode(cfg, Some(v.reg)) == Some(n)
  }

  ghost function Owners(cfg: Config, c: Core, k: nat, n: nat, e: Entry): (r: set<nat>)
    requires k <= |c.slots|
    ensures forall i: nat :: i in r <==> i < k && Owns(cfg, c.slots[i], n, e)
  {
    if k == 0 then {}
    else Owners(cfg, c, k - 1, n, e) + if Owns(cfg, c.slots[k - 1], n, e) then {k - 1} else {}
  }

  ghost function Holders(cfg: Config, s: System, k: nat, n: nat): (r: set<nat>)
    requires k <= |s.invites|
    ensures forall t: nat :: t in r <==> t < k && Holds(cfg, s.invites[t], n)
  {
    if k == 0 then {}
    else Holders(cfg, s, k - 1, n) + if Holds(cfg, s.invites[k - 1], n) then {k - 1} else {}
  }

  lemma {:induction false} CountIn(s: seq<nat>, x: nat)
    ensures Count(s, x) > 0 <==> x in s
  {
    if s != [] {
      CountIn(s[1..], x);
      assert s == [s[0]] + s[1..];
    }
  }

  lemma ChargeIsOwning(cfg: Config, s: System, i: nat, n: nat, e: Entry)
    requires Sound(cfg, |s.core.nodes|)
    requires i < |s.core.slots| && SipSlot(s.core.slots[i])
    ensures Charge(cfg, s.core.slots[i], n, e) == if Owns(cfg, s.core.slots[i], n, e) then 1 else 0
  {
    var v := s.core.slots[i];
    Keeping.OwedOnce(cfg, v, n);
    CountIn(Owed(cfg, v), n);
    if v.phase.GivingBack? {
      CountIn(v.phase.owed, n);
    }
  }

  lemma {:induction false} SumIsOwners(cfg: Config, s: System, k: nat, n: nat, e: Entry)
    requires Sound(cfg, |s.core.nodes|) && k <= |s.core.slots|
    requires forall i :: 0 <= i < |s.core.slots| ==> SipSlot(s.core.slots[i])
    ensures SlotSum(cfg, s.core.slots, k, n, e) == |Owners(cfg, s.core, k, n, e)|
  {
    hide Charge, Owns;
    if k > 0 {
      SumIsOwners(cfg, s, k - 1, n, e);
      ChargeIsOwning(cfg, s, k - 1, n, e);
      assert k - 1 !in Owners(cfg, s.core, k - 1, n, e);
    }
  }

  lemma {:induction false} SumIsHolders(cfg: Config, s: System, k: nat, n: nat)
    requires k <= |s.invites|
    ensures HoldSum(cfg, s.invites, k, n, INCOMING) == |Holders(cfg, s, k, n)|
  {
    if k > 0 {
      SumIsHolders(cfg, s, k - 1, n);
      assert k - 1 !in Holders(cfg, s, k - 1, n);
    }
  }

  /** The calls that really count on node `n`: the slots that they occupy, and the
      invites that hold a reservation but no slot. */
  ghost function InUse(cfg: Config, s: System, n: nat, e: Entry): nat {
    |Owners(cfg, s.core, |s.core.slots|, n, e)| + if e == INCOMING then |Holders(cfg, s, |s.invites|, n)| else 0
  }

  lemma TotalIsInUse(cfg: Config, s: System, n: nat, e: Entry)
    requires Inv(cfg, s)
    ensures Total(cfg, s, n, e) == InUse(cfg, s, n, e)
  {
    hide FreeOk, BucketsOk, CallsOk, CountsOk, TraceOk, ActsOk, LimitsOk, SlotsOk, Owners, Holders, SlotSum, HoldSum;
    SumIsOwners(cfg, s, |s.core.slots|, n, e);
    SumIsHolders(cfg, s, |s.invites|, n);
    Keeping.HoldSumBound(cfg, s.invites, |s.invites|, n);
  }

  /** Every node's counters in every reachable state.  They hold the calls that
      really count there, modulo their width, and what the admission test reads is
      the true number iff neither direction exceeds sixteen bits. */
  lemma NodeCounts(cfg: Config, s: System, n: nat)
    requires Reachable(cfg, s) && n < |s.core.nodes|
    ensures s.core.nodes[n].incoming.current == InUse(cfg, s, n, INCOMING) % SHORT
    ensures s.core.nodes[n].outgoing.current == InUse(cfg, s, n, OUTGOING) % SHORT
    ensures var i, o := InUse(cfg, s, n, INCOMING), InUse(cfg, s, n, OUTGOING);
            && s.core.nodes[n].Active() <= i + o
            && (s.core.nodes[n].Active() == i + o <==> i < SHORT && o < SHORT)
  {
    ReachableIsSafe(cfg, s);
    TotalIsInUse(cfg, s, n, INCOMING);
    TotalIsInUse(cfg, s, n, OUTGOING);
    assert s.core.nodes[n].At(INCOMING).current == Total(cfg, s, n, INCOMING) % SHORT;
    assert s.core.nodes[n].At(OUTGOING).current == Total(cfg, s, n, OUTGOING) % SHORT;
    Wrapped(InUse(cfg, s, n, INCOMING));
    Wrapped(InUse(cfg, s, n, OUTGOING));
  }

  lemma Wrapped(x: nat)
    ensures x % SHORT <= x && x % SHORT < SHORT && (x % SHORT == x <==> x < SHORT)
  {
  }

  /** Admission control.  A registration with a limit that sixteen bits can hold
      never has more calls than its limit, and its counters are exact.  Module
      Limits says what becomes of greater limits. */
  lemma AdmissionControl(cfg: Config, s: System, r: nat)
    requires Reachable(cfg, s) && r < |cfg.regs| && cfg.regs[r].node.Some? && 0 < cfg.regs[r].limit < SHORT
    ensures var n := cfg.regs[r].node.value;
            && n < |s.core.nodes|
            && s.core.nodes[n].incoming.current == InUse(cfg, s, n, INCOMING)
            && s.core.nodes[n].outgoing.current == InUse(cfg, s, n, OUTGOING)
            && s.core.nodes[n].Active() == InUse(cfg, s, n, INCOMING) + InUse(cfg, s, n, OUTGOING) <= cfg.regs[r].limit
  {
    ReachableIsSafe(cfg, s);
    var n := cfg.regs[r].node.value;
    assert Limited(cfg, s, r);
    TotalIsInUse(cfg, s, n, INCOMING);
    TotalIsInUse(cfg, s, n, OUTGOING);
    Wrapped(InUse(cfg, s, n, INCOMING));
    Wrapped(InUse(cfg, s, n, OUTGOING));
    NodeCounts(cfg, s, n);
  }

  /** This step takes one from node `n`. */
  predicate Takes(cfg: Config, s: System, step: Step, n: nat, e: Entry)
    requires Enabled(cfg, s, step)
  {
    match step
    case DoUndo(t, _) => e == INCOMING && RegNode(cfg, Some(s.invites[t].reg)) == Some(n)
    case DoGiveBack(i, _) =>
      var v := s.core.slots[i];
      v.entry == e && v.phase.owed != [] && v.phase.owed[0] == n
    case _ => false
  }

  /** No step takes from a node what is not there.  So the counter is at zero, and
      wraps, iff the true number is a multiple of 65536. */
  lemma NoUnderflow(cfg: Config, s: System, step: Step, n: nat, e: Entry)
    requires Reachable(cfg, s) && Enabled(cfg, s, step) && n < |s.core.nodes| && Takes(cfg, s, step, n, e)
    ensures InUse(cfg, s, n, e) > 0
    ensures s.core.nodes[n].At(e).current == 0 <==> InUse(cfg, s, n, e) % SHORT == 0
    ensures InUse(cfg, s, n, e) < SHORT ==> s.core.nodes[n].At(e).current > 0
  {
    ReachableIsSafe(cfg, s);
    TotalIsInUse(cfg, s, n, e);
    NodeCounts(cfg, s, n);
    if step.DoUndo? {
      Keeping.HoldSumAtLeast(cfg, s.invites, step.t, |s.invites|, n, INCOMING);
    } else {
      assert SlotOk(s.core.slots[step.i]);
      Keeping.SlotSumAtLeast(cfg, s.core.slots, step.i, |s.core.slots|, n, e);
    }
    Wrapped(InUse(cfg, s, n, e));
  }

  lemma {:induction false} BoundedSet(k: nat, a: set<nat>)
    requires forall i :: i in a ==> i < k
    ensures |a| <= k
  {
    if k > 0 {
      BoundedSet(k - 1, a - {k - 1});
      if k - 1 in a {
        assert |a - {k - 1}| == |a| - 1;
      } else {
        assert a - {k - 1} == a;
      }
    }
  }

  /** A slot that the driver counts: in a call, or not yet given back. */
  ghost predicate Counted(s: Slot, e: Entry) {
    s.entry == e && (InCall(s) || (s.phase.GivingBack? && 0 in s.phase.owed))
  }

  lemma CountedOwns(cfg: Config, s: Slot, e: Entry)
    ensures Owns(cfg, s, 0, e) <==> Counted(s, e)
  {
    assert Owed(cfg, s)[0] == 0;
  }

  /** Conservation of the driver's own counters: they count the slots in a call,
      and those whose release has yet to give the count back, exactly iff there are
      at most 65535 of these. */
  lemma DriverCounters(cfg: Config, s: System, e: Entry)
    requires Reachable(cfg, s)
    ensures |s.core.nodes| > 0
    ensures var k := |Owners(cfg, s.core, |s.core.slots|, 0, e)|;
            && k <= |s.core.slots| && s.core.nodes[0].At(e).current == k % SHORT
            && (s.core.nodes[0].At(e).current == k <==> k < SHORT)
    ensures forall i: nat :: i in Owners(cfg, s.core, |s.core.slots|, 0, e) <==> i < |s.core.slots| && Counted(s.core.slots[i], e)
  {
    hide Reachable, Inv, InUse, Owners;
    DriverHasNodes(cfg, s);
    NodeCounts(cfg, s, 0);
    DriverInUse(cfg, s, e);
    Wrapped(InUse(cfg, s, 0, e));
    forall i: nat | i < |s.core.slots| ensures Owns(cfg, s.core.slots[i], 0, e) <==> Counted(s.core.slots[i], e) {
      CountedOwns(cfg, s.core.slots[i], e);
    }
  }

  lemma DriverHasNodes(cfg: Config, s: System)
    requires Reachable(cfg, s)
    ensures Inv(cfg, s) && |s.core.nodes| > 0
  {
    ReachableIsSafe(cfg, s);
  }

  lemma DriverInUse(cfg: Config, s: System, e: Entry)
    requires Inv(cfg, s)
    ensures InUse(cfg, s, 0, e) == |Owners(cfg, s.core, |s.core.slots|, 0, e)| <= |s.core.slots|
  {
    hide FreeOk, BucketsOk, CallsOk, CountsOk, TraceOk, ActsOk, LimitsOk, SlotsOk, Owners, Holders, HoldSum;
    SumIsHolders(cfg, s, |s.invites|, 0);
    NoHoldOnDriver(cfg, s, |s.invites|, INCOMING);
    BoundedSet(|s.core.slots|, Owners(cfg, s.core, |s.core.slots|, 0, e));
  }

  lemma {:induction false} NoHoldOnDriver(cfg: Config, s: System, k: nat, e: Entry)
    requires Sound(cfg, |s.core.nodes|) && k <= |s.invites|
    ensures HoldSum(cfg, s.invites, k, 0, e) == 0
  {
    if k > 0 {
      NoHoldOnDriver(cfg, s, k - 1, e);
    }
  }

  // ---- lists ------------------------------------------------------------------------

  /** List partition.  Every slot is on exactly one list, once, and its handler
      and the progress of its release say which one. */
  lemma ListPartition(cfg: Config, s: System, i: nat)
    requires Reachable(cfg, s) && i < |s.core.slots|
    ensures NoDup(s.core.free) && forall p: Path :: NoDup(s.core.buckets[p])
    ensures forall p: Path :: i in s.core.buckets[p] <==> i !in s.core.free && p == PathOf(s.core.slots[i].cid)
    ensures var v := s.core.slots[i];
            && (i in s.core.free <==> v.handler == IdleHandler && v.phase == Settled)
            && (i in s.core.free ==> v.started == 0 && v.timer == None)
            && (i !in s.core.free ==>
                  || (InCall(v) && v.started != 0 && v.phase == Settled)
                  || (v.handler == IdleHandler && v.started == 0 && v.phase != Settled && v.phase.path == PathOf(v.cid)))
  {
    ReachableIsSafe(cfg, s);
    assert SlotOk(s.core.slots[i]) && SipSlot(s.core.slots[i]);
    forall p: Path ensures NoDup(s.core.buckets[p]) {
      assert Descending(s.core.slots, s.core.buckets[p]);
      Keeping.DescendingNoDup(s.core.slots, s.core.buckets[p]);
    }
    assert i in s.core.free <==> OnFree(s.core, i);
    forall p: Path ensures i in s.core.buckets[p] <==> i !in s.core.free && p == PathOf(s.core.slots[i].cid) {
      assert i in s.core.buckets[p] <==> OnBucket(s.core, p, i);
    }
  }

  /** The pointer operations of these steps meet their condition: a slot is
      enlisted only when it has just left the one list it was on. */
  lemma MovesAreSafe(cfg: Config, s: System, step: Step)
    requires Reachable(cfg, s) && Enabled(cfg, s, step)
    ensures step.DoRelink? ==>
              var path := s.core.slots[step.i].phase.path;
              step.i !in s.core.free && forall p: Path :: step.i in s.core.buckets[p] <==> p == path
    ensures step.DoClaim? && s.core.free != [] ==>
              s.core.free[0] < |s.core.slots| && forall p: Path :: s.core.free[0] !in s.core.buckets[p]
  {
    if step.DoRelink? {
      ListPartition(cfg, s, step.i);
    } else if step.DoClaim? && s.core.free != [] {
      ReachableIsSafe(cfg, s);
      assert s.core.free[0] in s.core.free && OnFree(s.core, s.core.free[0]);
      ListPartition(cfg, s, s.core.free[0]);
    }
  }

  // ---- lookup -----------------------------------------------------------------------

  /** The latest of the calls still bucketed under `cid`. */
  ghost predicate Newest(c: Core, cid: nat, i: nat) {
    && i < |c.slots| && Bucketed(c.slots[i]) && c.slots[i].cid == cid
    && (forall j :: 0 <= j < |c.slots| && Bucketed(c.slots[j]) && c.slots[j].cid == cid ==> c.slots[j].call <= c.slots[i].call)
  }

  lemma {:induction false} WalkStops(slots: seq<Slot>, list: seq<nat>, cid: nat)
    requires Descending(slots, list)
    ensures (forall k :: 0 <= k < |list| ==> slots[list[k]].cid != cid) ==> Walk(slots, list, cid) == None
    ensures forall k :: 0 <= k < |list| && slots[list[k]].cid == cid && (forall j :: 0 <= j < k ==> slots[list[j]].cid != cid) ==>
              Walk(slots, list, cid) == if slots[list[k]].started != 0 then Some(list[k]) else None
  {
    if list != [] {
      assert forall k :: 0 < k < |list| ==> list[1..][k - 1] == list[k];
      WalkStops(slots, list[1..], cid);
      forall k | 0 <= k < |list| && slots[list[k]].cid == cid && (forall j :: 0 <= j < k ==> slots[list[j]].cid != cid)
        ensures Walk(slots, list, cid) == if slots[list[k]].started != 0 then Some(list[k]) else None
      {
        if k > 0 {
          assert list[1..][k - 1] == list[k];
          assert forall j :: 0 <= j < k - 1 ==> list[1..][j] == list[j + 1];
        }
      }
    }
  }

  /** Either nothing in the bucket matches, or the first match is the newest. */
  lemma FirstIsNewest(c: Core, cid: nat) returns (k: nat)
    requires BucketsOk(c)
    ensures var b := c.buckets[PathOf(cid)];
            && k <= |b|
            && (forall j :: 0 <= j < k ==> c.slots[b[j]].cid != cid)
            && (k < |b| ==> c.slots[b[k]].cid == cid && Newest(c, cid, b[k]))
            && (k == |b| ==> forall i: nat :: !Newest(c, cid, i))
  {
    var b := c.buckets[PathOf(cid)];
    assert Descending(c.slots, b);
    k := 0;
    while k < |b| && c.slots[b[k]].cid != cid
      invariant k <= |b|
      invariant forall j :: 0 <= j < k ==> c.slots[b[j]].cid != cid
    {
      k := k + 1;
    }
    forall j | 0 <= j < |c.slots| && Bucketed(c.slots[j]) && c.slots[j].cid == cid
      ensures k < |b| && c.slots[j].call <= c.slots[b[k]].call
    {
      assert OnBucket(c, PathOf(cid), j);
      assert j in b;
      var l :| 0 <= l < |b| && b[l] == j;
    }
    if k < |b| {
      assert b[k] in b;
      assert OnBucket(c, PathOf(cid), b[k]);
    }
  }

  /** The index agrees with a plain scan of all slots, whatever cids repeat: the
      newest call bucketed under `cid` is returned, unless its release has begun,
      and then nothing is. */
  lemma IndexAgrees(cfg: Config, s: System, cid: nat)
    requires Reachable(cfg, s)
    ensures InRange(s.core)
    ensures forall i: nat :: Get(s.core, cid) == Some(i) <==> Newest(s.core, cid, i) && InCall(s.core.slots[i])
  {
    ReachableIsSafe(cfg, s);
    var c := s.core;
    assert InRange(c) by {
      forall p: Path, k | 0 <= k < |c.buckets[p]| ensures c.buckets[p][k] < |c.slots| {
        assert Descending(c.slots, c.buckets[p]);
      }
    }
    var b := c.buckets[PathOf(cid)];
    assert Descending(c.slots, b);
    WalkStops(c.slots, b, cid);
    var k := FirstIsNewest(c, cid);
    if k < |b| {
      assert SlotOk(c.slots[b[k]]) && SipSlot(c.slots[b[k]]);
      forall i: nat | Newest(c, cid, i) ensures i == b[k] {
        SameCallSameSlot(c, i, b[k]);
      }
    }
  }

  lemma SameCallSameSlot(c: Core, i: nat, j: nat)
    requires CallsOk(c) && i < |c.slots| && j < |c.slots|
    requires Bucketed(c.slots[i]) && Bucketed(c.slots[j]) && c.slots[i].call == c.slots[j].call
    ensures i == j
  {
  }

  // ---- farewells and scripts ---------------------------------------------------------

  /** One teardown per call: of terminating it, declining it and seeing the
      remote side disconnect, at most one happens, once. */
  lemma OneTeardown(cfg: Config, s: System)
    requires Reachable(cfg, s)
    ensures forall j, k :: 0 <= j < k < |s.core.acts| ==> s.core.acts[j].call != s.core.acts[k].call
    ensures forall k :: 0 <= k < |s.core.acts| ==> s.core.acts[k].call < |s.core.log|
  {
    ReachableIsSafe(cfg, s);
  }

  /** Scripts never stall: a slot in its script has an armed timer, and when that
      timer expires the script is stepped and either armed again or over. */
  lemma ScriptsNeverStall(cfg: Config, s: System, i: nat, clk: Clock, scr: Script)
    requires Reachable(cfg, s) && i < |s.core.slots| && s.core.slots[i].handler == ScriptHandler
    ensures s.core.slots[i].timer.Some?
    ensures s.core.slots[i].timer.value <= clk.ms ==>
              && Enabled(cfg, s, DoExpire(i, clk, scr))
              && var v := Next(cfg, s, DoExpire(i, clk, scr)).core.slots[i];
                 if scr.ok && !scr.hangs then v.handler == ScriptHandler && v.timer == Some(clk.ms + cfg.stepping)
                 else v.handler == ReleaseHandler && !Live(v)
  {
    ReachableIsSafe(cfg, s);
    assert SlotOk(s.core.slots[i]);
  }

  // ---- slots that nothing times ----------------------------------------------------------

  lemma RunsOn(cfg: Config, s: System, step: Step, rest: seq<Step>, s': System)
    requires Enabled(cfg, s, step) && Runs(cfg, Next(cfg, s, step), rest, s')
    ensures Runs(cfg, s, [step] + rest, s')
  {
    assert ([step] + rest)[1..] == rest;
  }

  lemma RunsNil(cfg: Config, s: System)
    ensures Runs(cfg, s, [], s)
  {
  }

  /** The first invite of a run takes the last slot. */
  lemma FirstInvite(cfg: Config, s0: System, o: Outcome) returns (s: System)
    requires Init(cfg, s0) && |cfg.regs| > 0 && |s0.core.slots| > 0 && |s0.invites| > 0
    ensures Enabled(cfg, s0, DoAttach(0, 0, 1)) && Enabled(cfg, Next(cfg, s0, DoAttach(0, 0, 1)), DoClaim(0, Clock(1, 0), o))
    ensures s == Next(cfg, Next(cfg, s0, DoAttach(0, 0, 1)), DoClaim(0, Clock(1, 0), o))
    ensures |s.core.slots| == |s0.core.slots| && |s.core.log| == 1 && s.core.acts == [] && s.core.drops == []
    ensures var v := s.core.slots[|s0.core.slots| - 1];
            v == Incoming(cfg, v.(tid := -1, did := -1, handler := ReleaseHandler, timer := None), o, 0) &&
            v.call == 0 && v.started == 1 && !v.connected && v.phase == Settled && v.registry == Some(0)
  {
    hide Account, AccountAll;
    var i := |s0.core.slots| - 1;
    assert s0.core.free[0] == i && Blank(s0.core.slots[i]);
    if cfg.regs[0].node.Some? {
      assert s0.core.nodes[cfg.regs[0].node.value] == UNTOUCHED;
    }
    var s1 := Next(cfg, s0, DoAttach(0, 0, 1));
    assert s1.invites[0] == Reserved(0, 1);
    s := Next(cfg, s1, DoClaim(0, Clock(1, 0), o));
    assert |[Start(i, s.core.slots[i].sequence, 1)]| == 1;
  }

  lemma InviteThen(cfg: Config, s0: System, o: Outcome, s: System, rest: seq<Step>, s': System)
    requires Enabled(cfg, s0, DoAttach(0, 0, 1)) && Enabled(cfg, Next(cfg, s0, DoAttach(0, 0, 1)), DoClaim(0, Clock(1, 0), o))
    requires s == Next(cfg, Next(cfg, s0, DoAttach(0, 0, 1)), DoClaim(0, Clock(1, 0), o)) && Runs(cfg, s, rest, s')
    ensures exists steps :: Runs(cfg, s0, steps, s')
  {
    RunsOn(cfg, Next(cfg, s0, DoAttach(0, 0, 1)), DoClaim(0, Clock(1, 0), o), rest, s');
    RunsOn(cfg, s0, DoAttach(0, 0, 1), [DoClaim(0, Clock(1, 0), o)] + rest, s');
  }

  /** In the release handler without a timer. */
  ghost predicate Unarmed(c: Core, i: nat) {
    i < |c.slots| && c.slots[i].handler == ReleaseHandler && c.slots[i].timer == None
  }

  /** A challenged invite leaves its slot so. */
  lemma ChallengedIsUnarmed(cfg: Config, s0: System)
    requires Init(cfg, s0) && |cfg.regs| > 0 && |s0.core.slots| > 0 && |s0.invites| > 0
    ensures exists steps, s :: Runs(cfg, s0, steps, s) && Unarmed(s.core, |s0.core.slots| - 1) &&
                               s.core.slots[|s0.core.slots| - 1].registry == Some(0)
  {
    var s := FirstInvite(cfg, s0, Challenged);
    InviteThen(cfg, s0, Challenged, s, [], s);
  }

  /** Such a slot is left alone by every step but a RELEASE event. */
  lemma UnarmedWaits(cfg: Config, s: System, i: nat, step: Step)
    requires Reachable(cfg, s) && Enabled(cfg, s, step) && i < |s.core.slots|
    requires s.core.slots[i].handler == ReleaseHandler && s.core.slots[i].timer == None
    requires step.DoPost? && step.i == i ==> step.id != TIMEOUT
    ensures Next(cfg, s, step).core.slots[i] == s.core.slots[i] <==>
            !(step.DoPost? && step.i == i && step.id == RELEASE)
  {
    ReachableIsSafe(cfg, s);
    var c := s.core;
    assert SlotOk(c.slots[i]) && SipSlot(c.slots[i]);
    if step.DoPost? && step.i == i {
      assert SipSlot(c.slots[i]);
    } else if step.DoPost? {
      Keeping.TouchesOnly(cfg, c, step.i, step.id, step.clk, step.scr, i);
    } else if step.DoExpire? {
      var d := c.Put(step.i, c.slots[step.i].(timer := None));
      Keeping.TouchesOnly(cfg, d, step.i, TIMEOUT, step.clk, step.scr, i);
    } else if step.DoClaim? && c.free != [] {
      assert c.free[0] in c.free && OnFree(c, c.free[0]);
    }
  }

  /** No RELEASE is posted to slot `i`, nor a TIMEOUT, which only timers send. */
  predicate Unreleased(steps: seq<Step>, i: nat) {
    forall n :: 0 <= n < |steps| && steps[n].DoPost? && steps[n].i == i ==> steps[n].id != RELEASE && steps[n].id != TIMEOUT
  }

  /** However long the run, until its RELEASE comes the slot stays taken, with its
      place in the registration's count. */
  lemma {:induction false} UnarmedStays(cfg: Config, s: System, steps: seq<Step>, s': System, i: nat)
    requires Reachable(cfg, s) && Runs(cfg, s, steps, s') && Unarmed(s.core, i) && Unreleased(steps, i)
    ensures Unarmed(s'.core, i) && s'.core.slots[i] == s.core.slots[i] && i !in s'.core.free
    ensures forall n: nat, e: Entry :: Owns(cfg, s'.core.slots[i], n, e) == Owns(cfg, s.core.slots[i], n, e)
    decreases |steps|
  {
    hide Reachable, Next, Owns;
    if steps == [] {
      ListPartition(cfg, s, i);
    } else {
      assert !(steps[0].DoPost? && steps[0].i == i && steps[0].id == RELEASE);
      NextReachable(cfg, s, steps[0]);
      UnarmedWaits(cfg, s, i, steps[0]);
      SlotsKept(cfg, s, steps[0]);
      UnarmedStays(cfg, Next(cfg, s, steps[0]), steps[1..], s', i);
    }
  }

  lemma SlotsKept(cfg: Config, s: System, step: Step)
    requires Enabled(cfg, s, step)
    ensures |Next(cfg, s, step).core.slots| == |s.core.slots|
  {
  }

  lemma StartsReachable(cfg: Config, s0: System)
    requires Init(cfg, s0)
    ensures Reachable(cfg, s0)
  {
    assert Runs(cfg, s0, [], s0);
  }

  lemma NextReachable(cfg: Config, s: System, step: Step)
    requires Reachable(cfg, s) && Enabled(cfg, s, step)
    ensures Reachable(cfg, Next(cfg, s, step))
  {
    var s0, steps :| Init(cfg, s0) && Runs(cfg, s0, steps, s);
    RunsThen(cfg, s0, steps, s, step);
  }

  lemma {:induction false} RunsThen(cfg: Config, s0: System, steps: seq<Step>, s: System, step: Step)
    requires Runs(cfg, s0, steps, s) && Enabled(cfg, s, step)
    ensures Runs(cfg, s0, steps + [step], Next(cfg, s, step))
    decreases |steps|
  {
    if steps == [] {
      assert Runs(cfg, Next(cfg, s, step), [], Next(cfg, s, step));
      RunsOn(cfg, s, step, [], Next(cfg, s, step));
      assert [] + [step] == [step] + [];
    } else {
      RunsThen(cfg, Next(cfg, s0, steps[0]), steps[1..], s, step);
      RunsOn(cfg, s0, steps[0], steps[1..] + [step], Next(cfg, s, step));
      assert [steps[0]] + (steps[1..] + [step]) == steps + [step];
    }
  }
}
