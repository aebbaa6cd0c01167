/** The call records that a run posts: per slot they alternate START, STOP, each
    STOP repeats its START, and sequence numbers count the slot's calls. */
module CallRecords {
  import opened Common
  import opened Stats
  import opened Calls
  import opened Exchange
  import Theorems

  /** START records of slot `i` among the first `k` records. */
  function Starts(log: seq<Record>, i: nat, k: nat): nat
    requires k <= |log|
  {
    if k == 0 then 0 else Starts(log, i, k - 1) + if log[k - 1].Start? && log[k - 1].slot == i then 1 else 0
  }

  ghost predicate Orderly(log: seq<Record>, i: nat) {
    forall k :: 0 <= k <= |log| ==> Read(log, i, k) != Broken
  }

  lemma {:induction false} BrokenStays(log: seq<Record>, i: nat, j: nat, k: nat)
    requires j <= k <= |log| && Read(log, i, j) == Broken
    ensures Read(log, i, k) == Broken
  {
    if j < k {
      BrokenStays(log, i, j, k - 1);
    }
  }

  lemma {:induction false} ReadCounts(log: seq<Record>, i: nat, k: nat)
    requires k <= |log| && Orderly(log, i)
    ensures !Read(log, i, k).Broken? && Read(log, i, k).sequence == Starts(log, i, k) % SEQUENCES
  {
    assert Read(log, i, k) != Broken;
    if k > 0 {
      ReadCounts(log, i, k - 1);
      WrapUp(Starts(log, i, k - 1), SEQUENCES);
    }
  }

  /** The latest record of slot `i` before `k`. */
  ghost predicate Latest(log: seq<Record>, i: nat, j: nat, k: nat) {
    j < k <= |log| && log[j].slot == i && forall l :: j < l < k ==> log[l].slot != i
  }

  lemma {:induction false} OpenSince(log: seq<Record>, i: nat, k: nat) returns (j: nat)
    requires k <= |log| && Read(log, i, k).Open?
    ensures Latest(log, i, j, k) && log[j] == Start(i, Read(log, i, k).sequence, Read(log, i, k).starting)
  {
    if log[k - 1].slot == i {
      j := k - 1;
    } else {
      j := OpenSince(log, i, k - 1);
    }
  }

  lemma {:induction false} ClosedSince(log: seq<Record>, i: nat, j: nat, k: nat)
    requires Latest(log, i, j, k) && Read(log, i, k).Closed?
    ensures log[j].Stop?
  {
    if j < k - 1 {
      ClosedSince(log, i, j, k - 1);
    }
  }

  ghost predicate StartOf(log: seq<Record>, i: nat, k: nat) {
    k < |log| && log[k].Start? && log[k].slot == i
  }

  /** A START numbers its call one above the calls before it. */
  ghost predicate Numbered(log: seq<Record>, i: nat, k: nat)
    requires StartOf(log, i, k)
  {
    log[k].sequence == NumberOf(Starts(log, i, k))
  }

  function NumberOf(before: nat): nat { (before + 1) % SEQUENCES }

  /** The record before it on its slot, if any, is a STOP. */
  ghost predicate FollowsStop(log: seq<Record>, i: nat, k: nat)
    requires StartOf(log, i, k)
  {
    forall j: nat :: Latest(log, i, j, k) ==> log[j].Stop?
  }

  /** The record before it on its slot is its own START. */
  ghost predicate ClosesItsStart(log: seq<Record>, i: nat, k: nat)
    requires k < |log| && log[k].Stop?
  {
    exists j: nat :: Latest(log, i, j, k) && log[j] == Start(i, log[k].sequence, log[k].starting)
  }

  lemma StartIsNext(log: seq<Record>, i: nat, k: nat)
    requires Orderly(log, i) && StartOf(log, i, k)
    ensures Numbered(log, i, k) && FollowsStop(log, i, k)
  {
    assert Read(log, i, k + 1) != Broken;
    ReadCounts(log, i, k);
    WrapUp(Starts(log, i, k), SEQUENCES);
    forall j: nat | Latest(log, i, j, k) ensures log[j].Stop? {
      ClosedSince(log, i, j, k);
    }
  }

  lemma StopMatches(log: seq<Record>, i: nat, k: nat)
    requires Orderly(log, i) && k < |log| && log[k].Stop? && log[k].slot == i
    ensures ClosesItsStart(log, i, k)
  {
    assert Read(log, i, k + 1) != Broken;
    var j := OpenSince(log, i, k);
  }

  /** Call-record trace of every run. */
  lemma RecordTrace(cfg: Config, s: System, i: nat)
    requires Theorems.Reachable(cfg, s) && i < |s.core.slots|
    ensures Orderly(s.core.log, i)
    ensures forall k: nat :: StartOf(s.core.log, i, k) ==> Numbered(s.core.log, i, k) && FollowsStop(s.core.log, i, k)
    ensures forall k: nat :: k < |s.core.log| && s.core.log[k].Stop? && s.core.log[k].slot == i ==>
                               ClosesItsStart(s.core.log, i, k)
  {
    Theorems.ReachableIsSafe(cfg, s);
    var log := s.core.log;
    forall k | 0 <= k <= |log| ensures Read(log, i, k) != Broken {
      if Read(log, i, k) == Broken {
        BrokenStays(log, i, k, |log|);
      }
    }
    forall k: nat | StartOf(log, i, k) ensures Numbered(log, i, k) && FollowsStop(log, i, k) {
      StartIsNext(log, i, k);
    }
    forall k: nat | k < |log| && log[k].Stop? && log[k].slot == i ensures ClosesItsStart(log, i, k) {
      StopMatches(log, i, k);
    }
  }

  lemma {:induction false} StartsGrow(log: seq<Record>, i: nat, j: nat, k: nat)
    requires j <= k <= |log|
    ensures Starts(log, i, j) <= Starts(log, i, k)
    ensures j < k && log[j].Start? && log[j].slot == i ==> Starts(log, i, j) < Starts(log, i, k)
  {
    if j < k {
      StartsGrow(log, i, j, k - 1);
    }
  }

  lemma {:induction false} NthStart(log: seq<Record>, i: nat, n: nat, k: nat) returns (j: nat)
    requires k <= |log| && n < Starts(log, i, k)
    ensures j < k && log[j].Start? && log[j].slot == i && Starts(log, i, j) == n
  {
    if n < Starts(log, i, k - 1) {
      j := NthStart(log, i, n, k - 1);
    } else {
      j := k - 1;
    }
  }

  /** No two calls of slot `i` share a sequence number. */
  ghost predicate Distinct(log: seq<Record>, i: nat) {
    forall j: nat, k: nat :: j < k && StartOf(log, i, j) && StartOf(log, i, k) ==> log[j].sequence != log[k].sequence
  }

  /** Slot and sequence identify a call, for the first 2^32 calls of a slot and
      no longer. */
  lemma SequenceIdentifies(cfg: Config, s: System, i: nat)
    requires Theorems.Reachable(cfg, s) && i < |s.core.slots|
    ensures Distinct(s.core.log, i) <==> Starts(s.core.log, i, |s.core.log|) <= SEQUENCES
  {
    RecordTrace(cfg, s, i);
    NumberedStarts(s.core.log, i);
  }

  lemma NumberedStarts(log: seq<Record>, i: nat)
    requires forall k: nat :: StartOf(log, i, k) ==> Numbered(log, i, k)
    ensures Distinct(log, i) <==> Starts(log, i, |log|) <= SEQUENCES
  {
    if Starts(log, i, |log|) <= SEQUENCES {
      forall j: nat, k: nat | j < k && StartOf(log, i, j) && StartOf(log, i, k) ensures log[j].sequence != log[k].sequence {
        StartsGrow(log, i, j, k);
        StartsGrow(log, i, k, |log|);
        assert Numbered(log, i, j) && Numbered(log, i, k);
        SameNumber(Starts(log, i, j), Starts(log, i, k));
      }
    } else {
      Repeats(log, i);
    }
  }

  lemma Repeats(log: seq<Record>, i: nat)
    requires forall k: nat :: StartOf(log, i, k) ==> Numbered(log, i, k)
    requires Starts(log, i, |log|) > SEQUENCES
    ensures !Distinct(log, i)
  {
    var j := NthStart(log, i, 0, |log|);
    var k := NthStart(log, i, SEQUENCES, |log|);
    if k <= j {
      StartsGrow(log, i, k, j);
    }
    assert StartOf(log, i, j) && StartOf(log, i, k);
    assert Numbered(log, i, j) && Numbered(log, i, k);
    assert NumberOf(0) == NumberOf(SEQUENCES);
  }

  lemma SameNumber(a: nat, b: nat)
    requires a < b < SEQUENCES
    ensures NumberOf(a) != NumberOf(b)
  {
  }

  // ---- the times that records tell ----------------------------------------------------

  /** `duration` seconds after `starting` it is `wall`, on a clock that wraps. */
  predicate Elapsed(starting: nat, duration: nat, wall: nat) {
    duration < LONG && (starting + duration) % LONG == wall % LONG
  }

  lemma ElapsedSince(starting: nat, wall: nat)
    ensures Elapsed(starting, (wall - starting) % LONG, wall)
  {
    var d := (wall - starting) % LONG;
    var q := (wall - starting) / LONG;
    var p, r := wall / LONG, wall % LONG;
    assert starting + d == (p - q) * LONG + r;
    ModUnique(starting + d, p - q, r, LONG);
  }

  /** Unless the clock has been set back, a duration is the time that went by. */
  lemma ElapsedIsDifference(starting: nat, duration: nat, wall: nat)
    requires Elapsed(starting, duration, wall) && starting <= wall < LONG
    ensures duration == wall - starting
  {
    ElapsedSince(starting, wall);
  }

  function WallOf(step: Step): nat {
    match step
    case DoClaim(_, clk, _) => clk.wall
    case DoPost(_, _, clk, _) => clk.wall
    case DoExpire(_, clk, _) => clk.wall
    case _ => 0
  }

  /** Record `r` ends the call that slot `i` is in. */
  ghost predicate EndsCall(c: Core, i: nat, r: Record, wall: nat)
    requires i < |c.slots|
  {
    var v := c.slots[i];
    InCall(v) && r.Stop? && r.slot == i && r.sequence == v.sequence && r.starting == v.started &&
    Elapsed(r.starting, r.duration, wall)
  }

  lemma HandlePosts(cfg: Config, c: Core, i: nat, id: Event, clk: Clock, scr: Script)
    requires cfg.kind == Sip && i < |c.slots| && c.slots[i].handler != OfflineHandler && id != SHUTDOWN
    ensures var log := Handle(cfg, c, i, id, clk, scr).core.log;
            log == c.log || exists r :: log == c.log + [r] && EndsCall(c, i, r, clk.wall)
  {
    hide Elapsed;
    var v := c.slots[i];
    ElapsedSince(v.started, clk.wall);
    if InCall(v) {
      assert EndsCall(c, i, StopRecord(v, i, clk.wall), clk.wall);
    }
  }

  /** A START tells the time of the claim that posts it; a STOP closes the START of
      its call and tells how long before the event that posts it this was. */
  ghost predicate Timed(log: seq<Record>, r: Record, step: Step) {
    match r
    case Start(_, _, starting) => step.DoClaim? && starting == WallOf(step)
    case Stop(i, sequence, starting, duration) =>
      && (step.DoPost? || step.DoExpire?)
      && exists j: nat :: Latest(log, i, j, |log|) && log[j] == Start(i, sequence, starting) &&
                          Elapsed(log[j].starting, duration, WallOf(step))
  }

  lemma EndIsTimed(c: Core, i: nat, r: Record, step: Step)
    requires TraceOk(c) && i < |c.slots| && EndsCall(c, i, r, WallOf(step)) && (step.DoPost? || step.DoExpire?)
    ensures Timed(c.log, r, step)
  {
    assert Read(c.log, i, |c.log|) == Open(r.sequence, r.starting);
    var j := OpenSince(c.log, i, |c.log|);
  }

  /** A step posts at most one record, and that tells its time. */
  lemma StepIsTimed(cfg: Config, s: System, step: Step)
    requires Theorems.Reachable(cfg, s) && Enabled(cfg, s, step)
    ensures var log, log' := s.core.log, Next(cfg, s, step).core.log;
            log' == log || exists r :: log' == log + [r] && Timed(log, r, step)
  {
    hide Handle, Timed;
    Theorems.ReachableIsSafe(cfg, s);
    var c := s.core;
    match step
    case DoClaim(t, clk, o) =>
      if c.free != [] {
        var r := Start(c.free[0], (c.slots[c.free[0]].sequence + 1) % SEQUENCES, clk.wall);
        assert Next(cfg, s, step).core.log == c.log + [r];
        StartIsTimed(c.log, r, step);
      }
    case DoPost(i, id, clk, scr) =>
      assert SipSlot(c.slots[i]);
      HandlePosts(cfg, c, i, id, clk, scr);
      if r :| Next(cfg, s, step).core.log == c.log + [r] && EndsCall(c, i, r, clk.wall) {
        EndIsTimed(c, i, r, step);
      }
    case DoExpire(i, clk, scr) =>
      var d := c.Put(i, c.slots[i].(timer := None));
      assert SipSlot(c.slots[i]);
      HandlePosts(cfg, d, i, TIMEOUT, clk, scr);
      if r :| Next(cfg, s, step).core.log == c.log + [r] && EndsCall(d, i, r, clk.wall) {
        EndIsTimed(c, i, r, step);
      }
    case _ =>
  }

  lemma StartIsTimed(log: seq<Record>, r: Record, step: Step)
    requires r.Start? && step.DoClaim? && r.starting == WallOf(step)
    ensures Timed(log, r, step)
  {
  }

  /** When each record of a run was posted. */
  function Posted(cfg: Config, s: System, steps: seq<Step>): seq<nat>
    decreases |steps|
  {
    if steps == [] || !Enabled(cfg, s, steps[0]) then []
    else
      var s' := Next(cfg, s, steps[0]);
      (if s'.core.log == s.core.log then [] else [WallOf(steps[0])]) + Posted(cfg, s', steps[1..])
  }

  /** What the log says of the time, given when each record was posted. */
  ghost predicate TellsTime(log: seq<Record>, at: seq<nat>, k: nat)
    requires k < |log| == |at|
  {
    match log[k]
    case Start(_, _, starting) => starting == at[k]
    case Stop(i, _, _, duration) => exists j: nat :: Latest(log, i, j, k) && log[j].Start? && Elapsed(at[j], duration, at[k])
  }

  ghost predicate TimesRight(log: seq<Record>, at: seq<nat>) {
    |at| == |log| && forall k: nat :: k < |log| ==> TellsTime(log, at, k)
  }

  lemma OneMoreTimed(log: seq<Record>, at: seq<nat>, r: Record, step: Step)
    requires TimesRight(log, at) && Timed(log, r, step)
    ensures TimesRight(log + [r], at + [WallOf(step)])
  {
    var log', at' := log + [r], at + [WallOf(step)];
    forall k: nat | k < |log'| ensures TellsTime(log', at', k) {
      if k < |log| {
        assert TellsTime(log, at, k);
        if log[k].Stop? {
          var j: nat :| Latest(log, log[k].slot, j, k) && log[j].Start? && Elapsed(at[j], log[k].duration, at[k]);
          assert Latest(log', log[k].slot, j, k);
        }
      } else if r.Stop? {
        var j: nat :| Latest(log, r.slot, j, |log|) && log[j] == Start(r.slot, r.sequence, r.starting) &&
                      Elapsed(log[j].starting, r.duration, WallOf(step));
        assert TellsTime(log, at, j);
        assert Latest(log', r.slot, j, k);
      }
    }
  }

  lemma {:induction false} TimesThrough(cfg: Config, s: System, steps: seq<Step>, s': System, at: seq<nat>)
    requires Theorems.Reachable(cfg, s) && Runs(cfg, s, steps, s') && TimesRight(s.core.log, at)
    ensures TimesRight(s'.core.log, at + Posted(cfg, s, steps))
    decreases |steps|
  {
    hide Theorems.Reachable, Next, TimesRight, Timed;
    if steps == [] {
      assert at + Posted(cfg, s, steps) == at;
    } else {
      var t, log := Next(cfg, s, steps[0]), s.core.log;
      Theorems.NextReachable(cfg, s, steps[0]);
      StepIsTimed(cfg, s, steps[0]);
      if t.core.log == log {
        TimesThrough(cfg, t, steps[1..], s', at);
      } else {
        var r :| t.core.log == log + [r] && Timed(log, r, steps[0]);
        OneMoreTimed(log, at, r, steps[0]);
        TimesThrough(cfg, t, steps[1..], s', at + [WallOf(steps[0])]);
        assert at + [WallOf(steps[0])] + Posted(cfg, t, steps[1..]) == at + Posted(cfg, s, steps);
      }
      assert at + Posted(cfg, t, steps[1..]) == at + ([] + Posted(cfg, t, steps[1..]));
    }
  }

  /** Call times of every run: each START was posted at the time that it tells, and
      each STOP as long after the START of its call as its duration says. */
  lemma CallTimes(cfg: Config, s0: System, steps: seq<Step>, s: System)
    requires Init(cfg, s0) && Runs(cfg, s0, steps, s)
    ensures TimesRight(s.core.log, Posted(cfg, s0, steps))
  {
    Theorems.StartsReachable(cfg, s0);
    TimesThrough(cfg, s0, steps, s, []);
    assert [] + Posted(cfg, s0, steps) == Posted(cfg, s0, steps);
  }
}
