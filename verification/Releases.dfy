/** A release that has begun is carried through, whatever else goes on meanwhile. */
module Releases {
  import opened Common
  import opened Stats
  import opened Calls
  import opened Exchange
  import Keeping
  import opened Theorems

  /** How many sections of its release a slot still has before it. */
  function SectionsLeft(s: Slot): nat {
    match s.phase
    case Settled => 0
    case GivingBack(_, owed) => |owed| + 2
    case Relinking(_) => 1
  }

  predicate IsSection(step: Step, i: nat) {
    match step
    case DoGiveBack(k, _) => k == i
    case DoRelink(k) => k == i
    case _ => false
  }

  function Sections(steps: seq<Step>, i: nat): nat {
    if steps == [] then 0 else (if IsSection(steps[0], i) then 1 else 0) + Sections(steps[1..], i)
  }

  /** Back on the free list, and counted nowhere. */
  ghost predicate Freed(cfg: Config, s: System, i: nat) {
    i < |s.core.slots| && i in s.core.free && forall n: nat, e: Entry :: i !in Owners(cfg, s.core, |s.core.slots|, n, e)
  }

  ghost predicate FreedWithin(cfg: Config, s: System, steps: seq<Step>, i: nat)
    decreases |steps|
  {
    Freed(cfg, s, i) || (steps != [] && Enabled(cfg, s, steps[0]) && FreedWithin(cfg, Next(cfg, s, steps[0]), steps[1..], i))
  }

  /** A section takes the slot one further; nobody else can touch it. */
  lemma SectionStep(cfg: Config, s: System, step: Step, i: nat)
    requires Inv(cfg, s) && Enabled(cfg, s, step) && i < |s.core.slots| && s.core.slots[i].phase != Settled
    ensures i < |Next(cfg, s, step).core.slots|
    ensures var v, v' := s.core.slots[i], Next(cfg, s, step).core.slots[i];
            v'.handler == v.handler == IdleHandler &&
            if IsSection(step, i) then SectionsLeft(v') == SectionsLeft(v) - 1 else v' == v
  {
    hide BucketsOk, CallsOk, CountsOk, LimitsOk, TraceOk, ActsOk;
    var c := s.core;
    assert SlotOk(c.slots[i]) && SipSlot(c.slots[i]);
    if step.DoPost? {
      assert SipSlot(c.slots[step.i]);
      if step.i != i {
        Keeping.TouchesOnly(cfg, c, step.i, step.id, step.clk, step.scr, i);
      }
    } else if step.DoExpire? {
      var d := c.Put(step.i, c.slots[step.i].(timer := None));
      Keeping.TouchesOnly(cfg, d, step.i, TIMEOUT, step.clk, step.scr, i);
    } else if step.DoClaim? && c.free != [] {
      assert c.free[0] in c.free && OnFree(c, c.free[0]);
    }
  }

  lemma SettledIsFreed(cfg: Config, s: System, i: nat)
    requires Reachable(cfg, s) && i < |s.core.slots|
    requires s.core.slots[i].handler == IdleHandler && s.core.slots[i].phase == Settled
    ensures Freed(cfg, s, i)
  {
    ListPartition(cfg, s, i);
  }

  /** In every run, once as many sections of the release have been gone through as
      it had left, the slot has come back to the free list, off every count. */
  lemma {:induction false} ReleaseCompletes(cfg: Config, s: System, steps: seq<Step>, s': System, i: nat)
    requires Reachable(cfg, s) && Runs(cfg, s, steps, s') && i < |s.core.slots| && s.core.slots[i].phase != Settled
    requires Sections(steps, i) >= SectionsLeft(s.core.slots[i])
    ensures FreedWithin(cfg, s, steps, i)
    decreases |steps|
  {
    hide Reachable, Inv, Next, Freed;
    ReachableIsSafe(cfg, s);
    SectionStep(cfg, s, steps[0], i);
    NextReachable(cfg, s, steps[0]);
    var v := Next(cfg, s, steps[0]);
    if v.core.slots[i].phase == Settled {
      SettledIsFreed(cfg, v, i);
    } else {
      ReleaseCompletes(cfg, v, steps[1..], s', i);
    }
  }

  /** Until then no step but its sections changes it, so it is lost to nobody. */
  lemma {:induction false} ReleaseWaits(cfg: Config, s: System, steps: seq<Step>, s': System, i: nat)
    requires Reachable(cfg, s) && Runs(cfg, s, steps, s') && i < |s.core.slots| && s.core.slots[i].phase != Settled
    requires Sections(steps, i) < SectionsLeft(s.core.slots[i])
    ensures i < |s'.core.slots| && SectionsLeft(s'.core.slots[i]) == SectionsLeft(s.core.slots[i]) - Sections(steps, i)
    decreases |steps|
  {
    hide Reachable, Inv, Next;
    if steps != [] {
      ReachableIsSafe(cfg, s);
      SectionStep(cfg, s, steps[0], i);
      NextReachable(cfg, s, steps[0]);
      ReleaseWaits(cfg, Next(cfg, s, steps[0]), steps[1..], s', i);
    }
  }

  /** From a call in the release handler to the first section of its release. */
  ghost predicate Begun(cfg: Config, s: Slot, v: Slot) {
    v.handler == IdleHandler && v.started == 0 && v.phase == GivingBack(PathOf(s.cid), Owed(cfg, s))
  }

  /** No step but one that begins its release changes a call in the release handler. */
  lemma WaitingStep(cfg: Config, s: System, step: Step, i: nat)
    requires Inv(cfg, s) && Enabled(cfg, s, step) && i < |s.core.slots| && s.core.slots[i].handler == ReleaseHandler
    ensures i < |Next(cfg, s, step).core.slots| && !IsSection(step, i)
    ensures var v := Next(cfg, s, step).core.slots[i]; v == s.core.slots[i] || Begun(cfg, s.core.slots[i], v)
  {
    hide BucketsOk, CallsOk, CountsOk, LimitsOk, TraceOk, ActsOk;
    var c := s.core;
    assert SlotOk(c.slots[i]) && SipSlot(c.slots[i]);
    if step.DoPost? {
      assert SipSlot(c.slots[step.i]);
      if step.i != i {
        Keeping.TouchesOnly(cfg, c, step.i, step.id, step.clk, step.scr, i);
      }
    } else if step.DoExpire? {
      if step.i != i {
        var d := c.Put(step.i, c.slots[step.i].(timer := None));
        Keeping.TouchesOnly(cfg, d, step.i, TIMEOUT, step.clk, step.scr, i);
      }
    } else if step.DoClaim? && c.free != [] {
      assert c.free[0] in c.free && OnFree(c, c.free[0]);
    }
  }

  /** So a call that waits for its release is freed once all its sections have run. */
  lemma {:induction false} WaitingCompletes(cfg: Config, s: System, steps: seq<Step>, s': System, i: nat)
    requires Reachable(cfg, s) && Runs(cfg, s, steps, s') && i < |s.core.slots| && s.core.slots[i].handler == ReleaseHandler
    requires Sections(steps, i) >= |Owed(cfg, s.core.slots[i])| + 2
    ensures FreedWithin(cfg, s, steps, i)
    decreases |steps|
  {
    hide Reachable, Inv, Next, Freed;
    ReachableIsSafe(cfg, s);
    WaitingStep(cfg, s, steps[0], i);
    NextReachable(cfg, s, steps[0]);
    var v := Next(cfg, s, steps[0]);
    if v.core.slots[i] == s.core.slots[i] {
      WaitingCompletes(cfg, v, steps[1..], s', i);
    } else {
      ReleaseCompletes(cfg, v, steps[1..], s', i);
    }
  }
}
