/** Which limits a registration keeps.  The admission test compares the limit with
    sixteen-bit counters, so a limit that these cannot reach refuses nobody. */
module Limits {
  import opened Common
  import opened Stats
  import opened Calls
  import opened Exchange
  import Keeping
  import T = Theorems

  ghost predicate FromStart(cfg: Config, s0: System, s: System) {
    Init(cfg, s0) && exists steps :: Runs(cfg, s0, steps, s)
  }

  lemma StepFromStart(cfg: Config, s0: System, s: System, step: Step)
    requires FromStart(cfg, s0, s) && Enabled(cfg, s, step)
    ensures FromStart(cfg, s0, Next(cfg, s, step))
  {
    var steps :| Runs(cfg, s0, steps, s);
    T.RunsThen(cfg, s0, steps, s, step);
  }

  lemma FromStartIsSafe(cfg: Config, s0: System, s: System)
    requires FromStart(cfg, s0, s)
    ensures T.Reachable(cfg, s) && Inv(cfg, s)
  {
    var steps :| Runs(cfg, s0, steps, s);
    assert T.Reachable(cfg, s);
    T.ReachableIsSafe(cfg, s);
  }

  ghost predicate SameSize(s0: System, s: System) {
    |s.core.slots| == |s0.core.slots| && |s.invites| == |s0.invites| && |s.core.nodes| == |s0.core.nodes|
  }

  lemma StepSize(cfg: Config, s: System, step: Step)
    requires Enabled(cfg, s, step)
    ensures SameSize(s, Next(cfg, s, step))
  {
  }

  lemma {:induction false} RunSize(cfg: Config, s: System, steps: seq<Step>, s': System)
    requires Runs(cfg, s, steps, s')
    ensures SameSize(s, s')
    decreases |steps|
  {
    if steps != [] {
      StepSize(cfg, s, steps[0]);
      RunSize(cfg, Next(cfg, s, steps[0]), steps[1..], s');
    }
  }

  // ---- filling the exchange ------------------------------------------------------------

  /** `k` slots serve calls of registration `r`, the first `t` threads hold
      reservations of it, and there is nothing else. */
  ghost predicate Loaded(cfg: Config, s0: System, s: System, r: nat, k: nat, t: nat) {
    && FromStart(cfg, s0, s) && SameSize(s0, s)
    && r < |cfg.regs| && cfg.regs[r].node.Some?
    && k + |s.core.free| == |s.core.slots|
    && (forall j :: t <= j < |s.invites| ==> s.invites[j] == Ready)
    && (forall m :: 0 <= m < |s.core.nodes| ==> s.core.nodes[m].outgoing.current == 0)
    && Total(cfg, s, cfg.regs[r].node.value, INCOMING) == k + t
  }

  lemma NothingLoaded(cfg: Config, s0: System, r: nat)
    requires Init(cfg, s0) && r < |cfg.regs| && cfg.regs[r].node.Some?
    ensures Loaded(cfg, s0, s0, r, 0, 0)
  {
    assert Runs(cfg, s0, [], s0);
    Keeping.EmptySums(cfg, s0, |s0.core.slots|, cfg.regs[r].node.value, INCOMING);
    Keeping.EmptySums(cfg, s0, |s0.invites|, cfg.regs[r].node.value, INCOMING);
  }

  /** One more than `k` calls pass the test. */
  predicate Passes(limit: nat, k: nat) { limit == 0 || limit >= SHORT || k < limit }

  /** The test lets thread `t` pass. */
  lemma OneMoreReserved(cfg: Config, s0: System, s: System, r: nat, k: nat, t: nat) returns (s': System)
    requires Loaded(cfg, s0, s, r, k, t) && t < |s.invites| && Passes(cfg.regs[r].limit, k + t)
    ensures Loaded(cfg, s0, s', r, k, t + 1) && s'.invites[t] == Reserved(r, 1)
  {
    hide FreeOk, BucketsOk, CallsOk, TraceOk, ActsOk, LimitsOk, SlotsOk, Runs;
    FromStartIsSafe(cfg, s0, s);
    var step := DoAttach(t, r, 1);
    var n := cfg.regs[r].node.value;
    assert s.core.nodes[n].At(INCOMING).current == Total(cfg, s, n, INCOMING) % SHORT;
    s' := Next(cfg, s, step);
    StepFromStart(cfg, s0, s, step);
    StepSize(cfg, s, step);
    Keeping.HoldChange(cfg, s, s', t, Reserved(r, 1));
  }

  lemma ClaimTotal(cfg: Config, s: System, t: nat, clk: Clock, n: nat)
    requires Inv(cfg, s) && Enabled(cfg, s, DoClaim(t, clk, Challenged)) && s.core.free != [] && n > 0
    ensures Total(cfg, Claim(cfg, s, t, clk, Challenged), n, INCOMING) == Total(cfg, s, n, INCOMING)
  {
    var i := s.core.free[0];
    assert i in s.core.free && OnFree(s.core, i);
    var Reserved(reg, cid) := s.invites[t];
    var a := System(Allocate(cfg, s.core, i, cid, INCOMING, Some(reg), clk.wall), s.invites[t := Ready]);
    Keeping.AllocateCounts(cfg, s, a, t, clk.wall);
    assert a.core.Put(i, a.core.slots[i]).slots == a.core.slots;
  }

  /** And its call gets a slot, as long as there is one. */
  lemma OneMoreServed(cfg: Config, s0: System, s: System, r: nat, k: nat) returns (s': System)
    requires Loaded(cfg, s0, s, r, k, 1) && |s.invites| > 0 && s.invites[0] == Reserved(r, 1) && s.core.free != []
    ensures Loaded(cfg, s0, s', r, k + 1, 0)
  {
    hide BucketsOk, CallsOk, TraceOk, ActsOk, LimitsOk, SlotsOk, Runs, CountsOk, AccountAll;
    FromStartIsSafe(cfg, s0, s);
    assert s.core.free[0] in s.core.free && OnFree(s.core, s.core.free[0]);
    var step := DoClaim(0, Clock(1, 0), Challenged);
    s' := Next(cfg, s, step);
    StepFromStart(cfg, s0, s, step);
    StepSize(cfg, s, step);
    ClaimTotal(cfg, s, 0, Clock(1, 0), cfg.regs[r].node.value);
    var seats := Seats(Allocated(cfg.kind, s.core.slots[s.core.free[0]], 1, INCOMING, Some(r), 1, |s.core.log|));
    OutgoingKept(s.core.nodes, seats);
  }

  lemma {:induction false} OutgoingKept(nodes: seq<Node>, ns: seq<nat>)
    requires forall m :: 0 <= m < |nodes| ==> nodes[m].outgoing.current == 0
    ensures forall m :: 0 <= m < |nodes| ==> AccountAll(nodes, ns, INCOMING)[m].outgoing.current == 0
    decreases |ns|
  {
    if ns != [] {
      OutgoingKept(Account(nodes, ns[0], INCOMING), ns[1..]);
    }
  }

  lemma {:induction false} SlotsFill(cfg: Config, s0: System, r: nat, k: nat) returns (s: System)
    requires Init(cfg, s0) && r < |cfg.regs| && cfg.regs[r].node.Some? && (k > 0 ==> Passes(cfg.regs[r].limit, k - 1))
    requires k <= |s0.core.slots| && |s0.invites| > 0
    ensures Loaded(cfg, s0, s, r, k, 0)
  {
    if k == 0 {
      NothingLoaded(cfg, s0, r);
      s := s0;
    } else {
      s := SlotsFill(cfg, s0, r, k - 1);
      s := OneMoreReserved(cfg, s0, s, r, k - 1, 0);
      s := OneMoreServed(cfg, s0, s, r, k - 1);
    }
  }

  lemma {:induction false} ThreadsFill(cfg: Config, s0: System, r: nat, k: nat, t: nat) returns (s: System)
    requires Init(cfg, s0) && r < |cfg.regs| && cfg.regs[r].node.Some? && (k + t > 0 ==> Passes(cfg.regs[r].limit, k + t - 1))
    requires k <= |s0.core.slots| && |s0.invites| > 0 && t <= |s0.invites|
    ensures Loaded(cfg, s0, s, r, k, t)
  {
    if t == 0 {
      s := SlotsFill(cfg, s0, r, k);
    } else {
      s := ThreadsFill(cfg, s0, r, k, t - 1);
      s := OneMoreReserved(cfg, s0, s, r, k, t - 1);
    }
  }

  // ---- registrations that nothing counts --------------------------------------------------

  /** Calls of registration `r`: in slots, and held by threads that have none. */
  function Served(slots: seq<Slot>, k: nat, r: nat): nat
    requires k <= |slots|
  {
    if k == 0 then 0 else Served(slots, k - 1, r) + if InCall(slots[k - 1]) && slots[k - 1].registry == Some(r) then 1 else 0
  }

  function Held(invites: seq<Invite>, k: nat, r: nat): nat
    requires k <= |invites|
  {
    if k == 0 then 0 else Held(invites, k - 1, r) + if !invites[k - 1].Ready? && invites[k - 1].reg == r then 1 else 0
  }

  function CallsOf(s: System, r: nat): nat {
    Served(s.core.slots, |s.core.slots|, r) + Held(s.invites, |s.invites|, r)
  }

  lemma {:induction false} ServedPut(slots: seq<Slot>, i: nat, t: Slot, k: nat, r: nat)
    requires i < |slots| && k <= |slots| && !InCall(slots[i]) && InCall(t) && t.registry == Some(r)
    ensures Served(slots[i := t], k, r) == Served(slots, k, r) + if i < k then 1 else 0
  {
    if k > 0 {
      ServedPut(slots, i, t, k - 1, r);
    }
  }

  lemma {:induction false} HeldPut(invites: seq<Invite>, t: nat, v: Invite, k: nat, r: nat)
    requires t < |invites| && k <= |invites|
    ensures Held(invites[t := v], k, r) + (if t < k && !invites[t].Ready? && invites[t].reg == r then 1 else 0) ==
            Held(invites, k, r) + if t < k && !v.Ready? && v.reg == r then 1 else 0
  {
    if k > 0 {
      HeldPut(invites, t, v, k - 1, r);
    }
  }

  lemma {:induction false} CallsFit(s: System, k: nat, t: nat, r: nat)
    requires k <= |s.core.slots| && t <= |s.invites|
    ensures Served(s.core.slots, k, r) <= k && Held(s.invites, t, r) <= t
    decreases k + t
  {
    if k > 0 {
      CallsFit(s, k - 1, t, r);
    }
    if t > 0 {
      CallsFit(s, k, t - 1, r);
    }
  }

  lemma {:induction false} NoCalls(s: System, k: nat, t: nat, r: nat)
    requires k <= |s.core.slots| && t <= |s.invites|
    requires forall i :: 0 <= i < |s.core.slots| ==> Blank(s.core.slots[i])
    requires forall j :: 0 <= j < |s.invites| ==> s.invites[j] == Ready
    ensures Served(s.core.slots, k, r) == 0 && Held(s.invites, t, r) == 0
    decreases k + t
  {
    if k > 0 {
      NoCalls(s, k - 1, t, r);
    }
    if t > 0 {
      NoCalls(s, k, t - 1, r);
    }
  }

  /** As Loaded, for a registration that has no statistics node. */
  ghost predicate Crowded(cfg: Config, s0: System, s: System, r: nat, k: nat, t: nat) {
    && FromStart(cfg, s0, s) && SameSize(s0, s)
    && r < |cfg.regs| && cfg.regs[r].node == None
    && k + |s.core.free| == |s.core.slots|
    && (forall j :: t <= j < |s.invites| ==> s.invites[j] == Ready)
    && CallsOf(s, r) == k + t
  }

  lemma OneMoreWaved(cfg: Config, s0: System, s: System, r: nat, k: nat, t: nat) returns (s': System)
    requires Crowded(cfg, s0, s, r, k, t) && t < |s.invites|
    ensures Crowded(cfg, s0, s', r, k, t + 1) && s'.invites[t] == Reserved(r, 1)
  {
    hide Runs, Init;
    var step := DoAttach(t, r, 1);
    s' := Next(cfg, s, step);
    StepFromStart(cfg, s0, s, step);
    HeldPut(s.invites, t, Reserved(r, 1), |s.invites|, r);
  }

  lemma OneMoreTaken(cfg: Config, s0: System, s: System, r: nat, k: nat) returns (s': System)
    requires Crowded(cfg, s0, s, r, k, 1) && |s.invites| > 0 && s.invites[0] == Reserved(r, 1) && s.core.free != []
    ensures Crowded(cfg, s0, s', r, k + 1, 0)
  {
    hide BucketsOk, CallsOk, TraceOk, ActsOk, LimitsOk, SlotsOk, Runs, CountsOk, AccountAll, Init;
    FromStartIsSafe(cfg, s0, s);
    var i := s.core.free[0];
    assert i in s.core.free && OnFree(s.core, i);
    var step := DoClaim(0, Clock(1, 0), Challenged);
    s' := Next(cfg, s, step);
    StepFromStart(cfg, s0, s, step);
    StepSize(cfg, s, step);
    ServedPut(s.core.slots, i, s'.core.slots[i], |s.core.slots|, r);
    HeldPut(s.invites, 0, Ready, |s.invites|, r);
    assert s'.core.slots == s.core.slots[i := s'.core.slots[i]];
  }

  lemma {:induction false} Crowd(cfg: Config, s0: System, r: nat, k: nat, t: nat) returns (s: System)
    requires Init(cfg, s0) && r < |cfg.regs| && cfg.regs[r].node == None
    requires k <= |s0.core.slots| && |s0.invites| > 0 && t <= |s0.invites|
    ensures Crowded(cfg, s0, s, r, k, t)
    decreases k, t
  {
    if t > 0 {
      s := Crowd(cfg, s0, r, k, t - 1);
      s := OneMoreWaved(cfg, s0, s, r, k, t - 1);
    } else if k > 0 {
      s := Crowd(cfg, s0, r, k - 1, 0);
      s := OneMoreWaved(cfg, s0, s, r, k - 1, 0);
      s := OneMoreTaken(cfg, s0, s, r, k - 1);
    } else {
      s := s0;
      assert Runs(cfg, s0, [], s0);
      NoCalls(s0, |s0.core.slots|, |s0.invites|, r);
    }
  }

  // ---- which limits are kept ---------------------------------------------------------------

  /** The calls that a registration has: those that really count on its node, or,
      if it got none, its calls in slots and in the hands of threads. */
  ghost function Load(cfg: Config, s: System, r: nat): nat
    requires r < |cfg.regs|
  {
    match cfg.regs[r].node
    case Some(n) => T.InUse(cfg, s, n, INCOMING) + T.InUse(cfg, s, n, OUTGOING)
    case None => CallsOf(s, r)
  }

  /** Sixteen bits can hold the limit, and there is a node to hold them. */
  predicate Testable(reg: Reg) { reg.node.Some? && reg.limit < SHORT }

  /** The failing run serves calls in slots first and then holds reservations. */
  lemma Overrun(cfg: Config, s0: System, r: nat)
    requires Init(cfg, s0) && r < |cfg.regs| && !Testable(cfg.regs[r])
    requires |s0.invites| > 0 && |s0.core.slots| + |s0.invites| > cfg.regs[r].limit
    ensures exists steps, s :: Runs(cfg, s0, steps, s) && Load(cfg, s, r) > cfg.regs[r].limit
  {
    hide Init, Runs, Load;
    var more := cfg.regs[r].limit + 1;
    var k := if |s0.core.slots| < more then |s0.core.slots| else more;
    var s := Full(cfg, s0, r, k, more - k);
    var steps :| Runs(cfg, s0, steps, s);
    assert Load(cfg, s, r) > cfg.regs[r].limit;
  }

  /** Whether counted or not. */
  lemma Full(cfg: Config, s0: System, r: nat, k: nat, t: nat) returns (s: System)
    requires Init(cfg, s0) && r < |cfg.regs| && !Testable(cfg.regs[r])
    requires k <= |s0.core.slots| && |s0.invites| > 0 && t <= |s0.invites|
    ensures FromStart(cfg, s0, s) && Load(cfg, s, r) >= k + t
  {
    hide Init, Runs, Inv, T.Reachable;
    if cfg.regs[r].node.Some? {
      s := ThreadsFill(cfg, s0, r, k, t);
      FromStartIsSafe(cfg, s0, s);
      T.TotalIsInUse(cfg, s, cfg.regs[r].node.value, INCOMING);
    } else {
      s := Crowd(cfg, s0, r, k, t);
    }
  }

  /** There are never more calls than slots and threads. */
  lemma LoadFits(cfg: Config, s: System, r: nat)
    requires Inv(cfg, s) && r < |cfg.regs|
    ensures Load(cfg, s, r) <= |s.core.slots| + |s.invites|
  {
    if cfg.regs[r].node.Some? {
      var n := cfg.regs[r].node.value;
      T.TotalIsInUse(cfg, s, n, INCOMING);
      T.TotalIsInUse(cfg, s, n, OUTGOING);
      Keeping.SlotSumBound(cfg, s, |s.core.slots|, n);
      Keeping.HoldSumBound(cfg, s.invites, |s.invites|, n);
    } else {
      CallsFit(s, |s.core.slots|, |s.invites|, r);
    }
  }

  /** Without SIP threads nothing ever happens. */
  lemma {:induction false} Untouched(cfg: Config, s: System, steps: seq<Step>, s': System)
    requires cfg.kind == Sip && Runs(cfg, s, steps, s') && |s.invites| == 0
    requires forall i :: 0 <= i < |s.core.slots| ==> Blank(s.core.slots[i])
    ensures s' == s
    decreases |steps|
  {
    if steps != [] {
      assert Next(cfg, s, steps[0]) == s;
      Untouched(cfg, s, steps[1..], s');
    }
  }

  lemma Idleness(cfg: Config, s0: System, r: nat)
    requires Init(cfg, s0) && Inv(cfg, s0) && r < |cfg.regs|
    ensures Load(cfg, s0, r) == 0
  {
    if cfg.regs[r].node.Some? {
      var n := cfg.regs[r].node.value;
      T.TotalIsInUse(cfg, s0, n, INCOMING);
      T.TotalIsInUse(cfg, s0, n, OUTGOING);
      Keeping.EmptySums(cfg, s0, |s0.core.slots|, n, INCOMING);
      Keeping.EmptySums(cfg, s0, |s0.invites|, n, INCOMING);
      Keeping.EmptySums(cfg, s0, |s0.core.slots|, n, OUTGOING);
      Keeping.EmptySums(cfg, s0, |s0.invites|, n, OUTGOING);
    } else {
      NoCalls(s0, |s0.core.slots|, |s0.invites|, r);
    }
  }

  lemma KeptWithin(cfg: Config, s0: System, r: nat, steps: seq<Step>, s: System)
    requires Init(cfg, s0) && r < |cfg.regs| && cfg.regs[r].limit > 0
    requires Testable(cfg.regs[r]) || |s0.invites| == 0 || |s0.core.slots| + |s0.invites| <= cfg.regs[r].limit
    requires Runs(cfg, s0, steps, s)
    ensures Load(cfg, s, r) <= cfg.regs[r].limit
  {
    hide FreeOk, BucketsOk, CallsOk, TraceOk, ActsOk, LimitsOk, SlotsOk;
    assert FromStart(cfg, s0, s);
    FromStartIsSafe(cfg, s0, s);
    if Testable(cfg.regs[r]) {
      T.AdmissionControl(cfg, s, r);
    } else if |s0.invites| == 0 {
      Untouched(cfg, s0, steps, s);
      Idleness(cfg, s0, r);
    } else {
      LoadFits(cfg, s, r);
      RunSize(cfg, s0, steps, s);
    }
  }

  /** Every registration with a limit.  It is exceeded in no run iff the registration
      got a statistics node and sixteen bits can hold the limit, or the whole
      exchange could not exceed it, or no thread takes invites. */
  lemma LimitKept(cfg: Config, s0: System, r: nat)
    requires Init(cfg, s0) && r < |cfg.regs| && cfg.regs[r].limit > 0
    ensures (forall steps, s :: Runs(cfg, s0, steps, s) ==> Load(cfg, s, r) <= cfg.regs[r].limit) <==>
            Testable(cfg.regs[r]) || |s0.invites| == 0 || |s0.core.slots| + |s0.invites| <= cfg.regs[r].limit
  {
    hide Init, Runs, Load;
    if Testable(cfg.regs[r]) || |s0.invites| == 0 || |s0.core.slots| + |s0.invites| <= cfg.regs[r].limit {
      forall steps, s | Runs(cfg, s0, steps, s) ensures Load(cfg, s, r) <= cfg.regs[r].limit {
        KeptWithin(cfg, s0, r, steps, s);
      }
    } else {
      Overrun(cfg, s0, r);
    }
  }

  // ---- and none is cut short ------------------------------------------------------------------

  lemma LoadReached(cfg: Config, s0: System, r: nat, k: nat)
    requires Init(cfg, s0) && r < |cfg.regs| && cfg.regs[r].node.Some? && 0 < cfg.regs[r].limit < SHORT && |s0.invites| > 0
    requires k <= cfg.regs[r].limit && k <= |s0.core.slots| + |s0.invites|
    ensures exists steps, s :: Runs(cfg, s0, steps, s) && Load(cfg, s, r) == k
  {
    hide Init, Runs, Inv, T.Reachable, T.InUse, Total;
    var served := if k <= |s0.core.slots| then k else |s0.core.slots|;
    var s := ThreadsFill(cfg, s0, r, served, k - served);
    FromStartIsSafe(cfg, s0, s);
    var n := cfg.regs[r].node.value;
    T.TotalIsInUse(cfg, s, n, INCOMING);
    T.AdmissionControl(cfg, s, r);
    var steps :| Runs(cfg, s0, steps, s);
    assert Load(cfg, s, r) == k;
  }

  /** A registration with a limit that sixteen bits can hold comes to have exactly
      the loads up to its limit for which there are slots and threads. */
  lemma LoadsReached(cfg: Config, s0: System, r: nat, k: nat)
    requires Init(cfg, s0) && r < |cfg.regs| && cfg.regs[r].node.Some? && 0 < cfg.regs[r].limit < SHORT && |s0.invites| > 0
    ensures (exists steps, s :: Runs(cfg, s0, steps, s) && Load(cfg, s, r) == k) <==>
            k <= cfg.regs[r].limit && k <= |s0.core.slots| + |s0.invites|
  {
    hide Init, Runs, Inv, Load, T.Reachable;
    if steps, s :| Runs(cfg, s0, steps, s) && Load(cfg, s, r) == k {
      KeptWithin(cfg, s0, r, steps, s);
      assert FromStart(cfg, s0, s);
      FromStartIsSafe(cfg, s0, s);
      LoadFits(cfg, s, r);
      RunSize(cfg, s0, steps, s);
    }
    if k <= cfg.regs[r].limit && k <= |s0.core.slots| + |s0.invites| {
      LoadReached(cfg, s0, r, k);
    }
  }
}
