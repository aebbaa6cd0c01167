/** The exchange and its timer thread together: every slot's timer is the one
    that the thread watches, and only the thread's scan delivers TIMEOUT. */
module Deadlines {
  import opened Common
  import opened Calls
  import E = Exchange
  import opened B = Background
  import Keeping
  import R = Releases
  import T = Theorems

  datatype Joint = Joint(s: E.System, w: World)

  /** A step of the exchange that expires no timer, a step of the thread that
      visits no slot, and the visit of the scan to its next slot. */
  datatype Move =
    | Work(step: E.Step, at: nat)
    | Thread(turn: B.Step)
    | Scan(clk: Clock, scr: Script)

  function Timers(c: Core): (r: seq<Option<nat>>)
    ensures |r| == |c.slots| && forall i :: 0 <= i < |r| ==> r[i] == c.slots[i].timer
  {
    seq(|c.slots|, i requires 0 <= i < |c.slots| => c.slots[i].timer)
  }

  predicate Agree(j: Joint) { j.w.timers == Timers(j.s.core) }

  predicate Ticks(step: E.Step, at: nat) {
    match step
    case DoClaim(_, clk, _) => clk.ms == at
    case DoPost(_, _, clk, _) => clk.ms == at
    case _ => true
  }

  predicate Able(cfg: Config, j: Joint, m: Move) {
    && Agree(j) && Formed(j.w)
    && match m
       case Work(step, at) => E.Enabled(cfg, j.s, step) && !step.DoExpire? && j.w.now <= at && Ticks(step, at)
       case Thread(b) => B.Enabled(j.w, b) && (b.Notify? || b.Begin? || b.Wake? || b.End?)
       case Scan(clk, _) => B.Enabled(j.w, Visit(clk.ms, None)) && !j.s.core.slots[j.w.place.k - 1].phase.GivingBack?
  }

  /** Whoever arms a timer still owes its notify. */
  function Rearmed(w: World, timers: seq<Option<nat>>, at: nat): (r: World)
    requires |timers| == |w.timers| == |w.owing|
    ensures |r.owing| == |r.timers|
  {
    w.(now := at, timers := timers,
       owing := seq(|timers|, i requires 0 <= i < |timers| =>
                  w.owing[i] + if timers[i].Some? && timers[i] != w.timers[i] then 1 else 0))
  }

  function Left(timer: Option<nat>, now: nat): Option<nat> {
    if timer.Some? && timer.value >= now then Some(timer.value - now) else None
  }

  function After(cfg: Config, j: Joint, m: Move): (r: Joint)
    requires Able(cfg, j, m)
  {
    match m
    case Work(step, at) =>
      var s := E.Next(cfg, j.s, step);
      Joint(s, if |s.core.slots| == |j.w.timers| then Rearmed(j.w, Timers(s.core), at) else j.w)
    case Thread(b) => Joint(j.s, B.Next(j.w, b))
    case Scan(clk, scr) =>
      var i := j.w.place.k - 1;
      if Due(j.w.timers[i], clk.ms) then
        var s := E.Next(cfg, j.s, E.DoExpire(i, clk, scr));
        Joint(s, B.Next(j.w, Visit(clk.ms, Left(s.core.slots[i].timer, clk.ms))))
      else Joint(j.s, B.Next(j.w, Visit(clk.ms, None)))
  }

  ghost predicate Starts(cfg: Config, j: Joint) {
    E.Init(cfg, j.s) && B.Init(j.w) && Agree(j)
  }

  ghost predicate Plays(cfg: Config, j: Joint, moves: seq<Move>, j': Joint)
    decreases |moves|
  {
    if moves == [] then j == j'
    else Able(cfg, j, moves[0]) && Plays(cfg, After(cfg, j, moves[0]), moves[1..], j')
  }

  ghost predicate Reached(cfg: Config, j: Joint) {
    exists j0, moves :: Starts(cfg, j0) && Plays(cfg, j0, moves, j)
  }

  ghost predicate Fine(cfg: Config, j: Joint) {
    E.Inv(cfg, j.s) && E.TimersOk(j.s.core) && Sane(j.w) && Agree(j)
  }

  // ---- both invariants hold of the whole -------------------------------------------

  lemma RearmedIsSane(w: World, timers: seq<Option<nat>>, at: nat)
    requires Sane(w) && |timers| == |w.timers| == |w.owing| && w.now <= at
    ensures Sane(Rearmed(w, timers, at))
  {
    var w' := Rearmed(w, timers, at);
    forall i | 0 <= i < |timers| ensures Covered(w', i) {
      assert Covered(w, i);
    }
  }

  lemma SameSlots(cfg: Config, s: E.System, step: E.Step)
    requires E.Enabled(cfg, s, step)
    ensures |E.Next(cfg, s, step).core.slots| == |s.core.slots|
  {
  }

  /** A TIMEOUT leaves its slot's timer disarmed or armed for the future. */
  lemma TimeoutTimer(cfg: Config, c: Core, i: nat, clk: Clock, scr: Script)
    requires cfg.kind == Sip && i < |c.slots| && c.slots[i].handler != OfflineHandler
    requires c.slots[i].handler == IdleHandler ==> c.slots[i].timer == None
    ensures var t := Expire(cfg, c, i, clk, scr).core.slots[i].timer; t.Some? ==> t.value >= clk.ms
  {
  }

  /** The scan's visit is the exchange's expiry. */
  lemma ScanAgrees(cfg: Config, j: Joint, clk: Clock, scr: Script)
    requires Fine(cfg, j) && Able(cfg, j, Scan(clk, scr)) && Due(j.w.timers[j.w.place.k - 1], clk.ms)
    ensures var i := j.w.place.k - 1;
            E.Enabled(cfg, j.s, E.DoExpire(i, clk, scr)) && Agree(After(cfg, j, Scan(clk, scr)))
  {
    hide E.FreeOk, E.BucketsOk, E.CallsOk, E.CountsOk, E.LimitsOk, E.TraceOk, E.ActsOk, Sane, Handle;
    var i := j.w.place.k - 1;
    var c := j.s.core;
    assert E.SlotOk(c.slots[i]) && E.SipSlot(c.slots[i]);
    TimeoutTimer(cfg, c, i, clk, scr);
    var d := c.Put(i, c.slots[i].(timer := None));
    var j' := After(cfg, j, Scan(clk, scr));
    forall k | 0 <= k < |c.slots| && k != i ensures j'.s.core.slots[k] == c.slots[k] {
      Keeping.TouchesOnly(cfg, d, i, TIMEOUT, clk, scr, k);
    }
    assert j'.w.timers == Timers(j'.s.core);
  }

  lemma AfterKeeps(cfg: Config, j: Joint, m: Move)
    requires Fine(cfg, j) && Able(cfg, j, m)
    ensures Fine(cfg, After(cfg, j, m))
  {
    hide E.Inv, E.TimersOk;
    match m
    case Work(step, at) =>
      Keeping.NextKeeps(cfg, j.s, step);
      Keeping.TimersKeep(cfg, j.s, step);
      SameSlots(cfg, j.s, step);
      RearmedIsSane(j.w, Timers(E.Next(cfg, j.s, step).core), at);
    case Thread(b) => B.NextKeeps(j.w, b);
    case Scan(clk, scr) =>
      var i := j.w.place.k - 1;
      if Due(j.w.timers[i], clk.ms) {
        var step := E.DoExpire(i, clk, scr);
        ScanAgrees(cfg, j, clk, scr);
        Keeping.NextKeeps(cfg, j.s, step);
        Keeping.TimersKeep(cfg, j.s, step);
        B.NextKeeps(j.w, Visit(clk.ms, Left(E.Next(cfg, j.s, step).core.slots[i].timer, clk.ms)));
      } else {
        B.NextKeeps(j.w, Visit(clk.ms, None));
      }
  }

  lemma {:induction false} PlayKeeps(cfg: Config, j: Joint, moves: seq<Move>, j': Joint)
    requires Fine(cfg, j) && Plays(cfg, j, moves, j')
    ensures Fine(cfg, j')
    decreases |moves|
  {
    if moves != [] {
      AfterKeeps(cfg, j, moves[0]);
      PlayKeeps(cfg, After(cfg, j, moves[0]), moves[1..], j');
    }
  }

  lemma ReachedIsFine(cfg: Config, j: Joint)
    requires Reached(cfg, j)
    ensures Fine(cfg, j)
  {
    var j0, moves :| Starts(cfg, j0) && Plays(cfg, j0, moves, j);
    Keeping.InitHolds(cfg, j0.s);
    PlayKeeps(cfg, j0, moves, j);
  }

  /** Every script is stepped again.  In every joint run, a slot in the script
      handler has a timer; once its own notify has been sent, the thread never
      means to sleep past it by more than the last scan took, and no decision of
      the thread after that moment is other than to scan; and the scan's visit to a
      slot whose timer is due either steps the script, which arms the timer again
      and signals the thread, or ends the call. */
  lemma ScriptsAreStepped(cfg: Config, j: Joint, i: nat)
    requires Reached(cfg, j) && i < |j.s.core.slots| && j.s.core.slots[i].handler == ScriptHandler
    ensures Formed(j.w) && |j.w.timers| == |j.s.core.slots| && j.w.timers[i] == j.s.core.slots[i].timer && j.w.timers[i].Some?
    ensures var d := j.w.timers[i].value;
            j.w.owing[i] == 0 ==>
              && (j.w.place.Asleep? && !j.w.signalled ==> j.w.place.until <= d + j.w.lag)
              && (forall b: B.Step :: B.Enabled(j.w, b) && (b.Begin? || b.Wake?) && d + j.w.lag <= b.at ==>
                    B.Next(j.w, b).place == Scanning(|j.w.timers|, None, b.at))
    ensures forall clk, scr :: Able(cfg, j, Scan(clk, scr)) && j.w.place.k == i + 1 && Due(j.w.timers[i], clk.ms) ==>
              var j' := After(cfg, j, Scan(clk, scr));
              var v := j'.s.core.slots[i];
              if scr.ok && !scr.hangs then v.handler == ScriptHandler && v.timer == Some(clk.ms + cfg.stepping) && j'.w.signalled
              else v.handler == ReleaseHandler && !E.Live(v)
  {
    hide E.FreeOk, E.BucketsOk, E.CallsOk, E.CountsOk, E.LimitsOk, E.TraceOk, E.ActsOk;
    ReachedIsFine(cfg, j);
    assert E.SlotOk(j.s.core.slots[i]);
    assert Covered(j.w, i);
  }

  // ---- within which time -------------------------------------------------------------

  function At(m: Move): nat {
    match m case Work(_, at) => at case Thread(b) => b.at case Scan(clk, _) => clk.ms
  }

  ghost predicate PromptPlays(cfg: Config, j: Joint, moves: seq<Move>, j': Joint, scan: nat)
    decreases |moves|
  {
    if moves == [] then j == j'
    else Able(cfg, j, moves[0]) && Prompt(j.w, At(moves[0]), scan) && PromptPlays(cfg, After(cfg, j, moves[0]), moves[1..], j', scan)
  }

  ghost predicate PromptlyReached(cfg: Config, j: Joint, scan: nat) {
    exists j0, moves :: Starts(cfg, j0) && PromptPlays(cfg, j0, moves, j, scan)
  }

  ghost predicate Good(cfg: Config, j: Joint, scan: nat) { Fine(cfg, j) && OnTime(j.w, scan) }

  /** The exchange arms timers for the future only. */
  lemma ArmsAhead(cfg: Config, s: E.System, step: E.Step, at: nat, i: nat)
    requires E.Inv(cfg, s) && E.Enabled(cfg, s, step) && !step.DoExpire? && Ticks(step, at) && i < |s.core.slots|
    ensures i < |E.Next(cfg, s, step).core.slots|
    ensures var t := E.Next(cfg, s, step).core.slots[i].timer; t.Some? && t != s.core.slots[i].timer ==> t.value >= at
  {
    hide E.FreeOk, E.BucketsOk, E.CallsOk, E.CountsOk, E.LimitsOk, E.TraceOk, E.ActsOk, E.SlotsOk;
    SameSlots(cfg, s, step);
    if step.DoPost? {
      assert E.SipSlot(s.core.slots[step.i]);
      PostArmsAhead(cfg, s.core, step.i, step.id, step.clk, step.scr);
      if step.i != i {
        Keeping.TouchesOnly(cfg, s.core, step.i, step.id, step.clk, step.scr, i);
      }
    }
  }

  lemma PostArmsAhead(cfg: Config, c: Core, i: nat, id: Event, clk: Clock, scr: Script)
    requires cfg.kind == Sip && i < |c.slots| && c.slots[i].handler != OfflineHandler
    ensures var t := Handle(cfg, c, i, id, clk, scr).core.slots[i].timer; t.Some? && t != c.slots[i].timer ==> t.value >= clk.ms
  {
  }

  lemma RearmedOnTime(w: World, timers: seq<Option<nat>>, at: nat, scan: nat)
    requires OnTime(w, scan) && |timers| == |w.timers| && w.now <= at && Prompt(w, at, scan)
    requires forall i :: 0 <= i < |timers| && timers[i].Some? && timers[i] != w.timers[i] ==> timers[i].value >= at
    ensures OnTime(Rearmed(w, timers, at), scan)
  {
    RearmedIsSane(w, timers, at);
    var w' := Rearmed(w, timers, at);
    forall i | 0 <= i < |timers| ensures Timely(w', i, scan) {
      assert Covered(w, i) && Timely(w, i, scan);
    }
  }

  lemma AfterGood(cfg: Config, j: Joint, m: Move, scan: nat)
    requires Good(cfg, j, scan) && Able(cfg, j, m) && Prompt(j.w, At(m), scan)
    ensures Good(cfg, After(cfg, j, m), scan)
  {
    hide E.Inv, E.TimersOk, OnTime, Sane, Prompt;
    AfterKeeps(cfg, j, m);
    match m
    case Work(step, at) =>
      var timers := Timers(E.Next(cfg, j.s, step).core);
      SameSlots(cfg, j.s, step);
      forall i | 0 <= i < |timers| && timers[i].Some? && timers[i] != j.w.timers[i] ensures timers[i].value >= at {
        ArmsAhead(cfg, j.s, step, at, i);
      }
      RearmedOnTime(j.w, timers, at, scan);
    case Thread(b) => NextOnTime(j.w, b, scan);
    case Scan(clk, scr) =>
      var i := j.w.place.k - 1;
      if Due(j.w.timers[i], clk.ms) {
        ScanAgrees(cfg, j, clk, scr);
        NextOnTime(j.w, Visit(clk.ms, Left(E.Next(cfg, j.s, E.DoExpire(i, clk, scr)).core.slots[i].timer, clk.ms)), scan);
      } else {
        NextOnTime(j.w, Visit(clk.ms, None), scan);
      }
  }

  lemma {:induction false} PlayGood(cfg: Config, j: Joint, moves: seq<Move>, j': Joint, scan: nat)
    requires Good(cfg, j, scan) && PromptPlays(cfg, j, moves, j', scan)
    ensures Good(cfg, j', scan)
    decreases |moves|
  {
    if moves != [] {
      AfterGood(cfg, j, moves[0], scan);
      PlayGood(cfg, After(cfg, j, moves[0]), moves[1..], j', scan);
    }
  }

  lemma PromptlyReachedIsGood(cfg: Config, j: Joint, scan: nat)
    requires PromptlyReached(cfg, j, scan)
    ensures Good(cfg, j, scan)
  {
    var j0, moves :| Starts(cfg, j0) && PromptPlays(cfg, j0, moves, j, scan);
    Keeping.InitHolds(cfg, j0.s);
    PlayGood(cfg, j0, moves, j, scan);
  }

  /** This move delivers slot `i` its TIMEOUT, at `end` or before.  A script is
      stepped, which arms it again or ends its call; a call that only waits for its
      release begins it. */
  ghost predicate StepsScript(cfg: Config, j: Joint, m: Move, i: nat, end: nat)
    requires Able(cfg, j, m) && i < |j.w.timers|
  {
    && m.Scan? && j.w.place.k == i + 1 && Due(j.w.timers[i], m.clk.ms) && m.clk.ms <= end
    && var j' := After(cfg, j, m);
       i < |j'.s.core.slots| && i in j'.w.fired[|j.w.fired|..] && TimeoutOutcome(cfg, m, j.s.core.slots[i], j'.s.core.slots[i], j'.w)
  }

  ghost predicate TimeoutOutcome(cfg: Config, m: Move, s: Slot, v: Slot, w: World)
    requires m.Scan?
  {
    if s.handler == ReleaseHandler then
      v.handler == IdleHandler && v.started == 0 && v.phase == GivingBack(PathOf(s.cid), Owed(cfg, s))
    else if m.scr.ok && !m.scr.hangs then v.handler == ScriptHandler && v.timer == Some(m.clk.ms + cfg.stepping) && w.signalled
    else v.handler == ReleaseHandler && !E.Live(v)
  }

  /** In this run slot `i` has its TIMEOUT, or another thread changes it first, at
      `end` or before. */
  ghost predicate MetBy(cfg: Config, j: Joint, moves: seq<Move>, i: nat, end: nat)
    decreases |moves|
  {
    moves != [] && Able(cfg, j, moves[0]) && i < |j.w.timers| == |j.s.core.slots| &&
    ( || StepsScript(cfg, j, moves[0], i, end)
      || (At(moves[0]) <= end && WorksOn(cfg, j, moves[0], i))
      || MetBy(cfg, After(cfg, j, moves[0]), moves[1..], i, end))
  }

  ghost predicate WorksOn(cfg: Config, j: Joint, m: Move, i: nat)
    requires Able(cfg, j, m) && i < |j.s.core.slots|
  {
    m.Work? && i < |After(cfg, j, m).s.core.slots| && After(cfg, j, m).s.core.slots[i] != j.s.core.slots[i]
  }

  lemma DueScanSteps(cfg: Config, j: Joint, m: Move, i: nat, scan: nat)
    requires Good(cfg, j, scan) && Able(cfg, j, m) && Prompt(j.w, At(m), scan)
    requires i < |j.s.core.slots| && InCall(j.s.core.slots[i])
    requires m.Scan? && j.w.place.k == i + 1 && Due(j.w.timers[i], m.clk.ms)
    ensures i < |j.w.timers| && StepsScript(cfg, j, m, i, j.w.timers[i].value + 2 * scan)
  {
    hide E.FreeOk, E.BucketsOk, E.CallsOk, E.CountsOk, E.LimitsOk, E.TraceOk, E.ActsOk, Sane;
    assert E.SlotOk(j.s.core.slots[i]) && E.SipSlot(j.s.core.slots[i]);
    assert Timely(j.w, i, scan);
    SameSlots(cfg, j.s, E.DoExpire(i, m.clk, m.scr));
    var f := j.w.fired;
    assert (f + [i])[|f|..] == [i];
  }

  /** Any other move that leaves the slot alone leaves it as it was. */
  lemma OthersLeave(cfg: Config, j: Joint, m: Move, i: nat)
    requires Fine(cfg, j) && Able(cfg, j, m) && i < |j.s.core.slots|
    requires !m.Work? && !(m.Scan? && j.w.place.k == i + 1 && Due(j.w.timers[i], m.clk.ms))
    ensures i < |After(cfg, j, m).s.core.slots| && After(cfg, j, m).s.core.slots[i] == j.s.core.slots[i]
  {
    hide E.FreeOk, E.BucketsOk, E.CallsOk, E.CountsOk, E.LimitsOk, E.TraceOk, E.ActsOk, Sane, Handle;
    if m.Scan? {
      var k := j.w.place.k - 1;
      if Due(j.w.timers[k], m.clk.ms) {
        var c := j.s.core;
        assert E.SipSlot(c.slots[k]);
        ScanAgrees(cfg, j, m.clk, m.scr);
        Keeping.TouchesOnly(cfg, c.Put(k, c.slots[k].(timer := None)), k, TIMEOUT, m.clk, m.scr, i);
      }
    }
  }

  lemma Overdue(cfg: Config, j: Joint, i: nat, scan: nat)
    requires Good(cfg, j, scan) && i < |j.s.core.slots| && j.s.core.slots[i].timer.Some?
    ensures |j.w.timers| == |j.s.core.slots| && j.w.timers[i] == j.s.core.slots[i].timer
    ensures j.w.now <= j.s.core.slots[i].timer.value + 2 * scan
  {
    hide E.Inv, E.TimersOk;
    assert Timely(j.w, i, scan);
  }

  lemma SameSize(cfg: Config, j: Joint, m: Move)
    requires Able(cfg, j, m) && |j.s.core.slots| == |j.w.timers|
    ensures |After(cfg, j, m).s.core.slots| == |j.s.core.slots|
  {
    if m.Work? {
      SameSlots(cfg, j.s, m.step);
    }
  }

  lemma MoveInTime(cfg: Config, j: Joint, m: Move, i: nat, scan: nat)
    requires Good(cfg, j, scan) && Able(cfg, j, m) && Prompt(j.w, At(m), scan)
    requires i < |j.s.core.slots| && j.s.core.slots[i].timer.Some?
    ensures At(m) <= j.s.core.slots[i].timer.value + 2 * scan
  {
    hide E.Inv, E.TimersOk, OnTime, Sane, Prompt;
    Overdue(cfg, j, i, scan);
    NextInTime(j.w, i, At(m), scan);
  }

  /** The known bound.  In every prompt joint run a call with a timer has had its
      TIMEOUT within two scans of its deadline, once that moment has passed, unless
      another thread has changed its slot before. */
  lemma {:induction false} SteppedInTime(cfg: Config, j: Joint, moves: seq<Move>, j': Joint, i: nat, scan: nat)
    requires Good(cfg, j, scan) && i < |j.s.core.slots| && InCall(j.s.core.slots[i])
    requires PromptPlays(cfg, j, moves, j', scan)
    requires j.s.core.slots[i].timer.Some? && j'.w.now > j.s.core.slots[i].timer.value + 2 * scan
    ensures MetBy(cfg, j, moves, i, j.s.core.slots[i].timer.value + 2 * scan)
    decreases |moves|
  {
    hide E.Inv, E.TimersOk, OnTime, Sane, Prompt, After, StepsScript;
    Overdue(cfg, j, i, scan);
    var m := moves[0];
    SameSize(cfg, j, m);
    MoveInTime(cfg, j, m, i, scan);
    if m.Scan? && j.w.place.k == i + 1 && Due(j.w.timers[i], m.clk.ms) {
      DueScanSteps(cfg, j, m, i, scan);
    } else if !WorksOn(cfg, j, m, i) {
      AfterGood(cfg, j, m, scan);
      if !m.Work? {
        OthersLeave(cfg, j, m, i);
      }
      SteppedInTime(cfg, After(cfg, j, m), moves[1..], j', i, scan);
    }
  }

  /** The same from the start of the run: a live script has a timer, it is never
      overdue by more than two scans, and by then the script has been stepped or
      something else has happened to its call. */
  lemma LiveScriptsAreStepped(cfg: Config, j: Joint, i: nat, scan: nat)
    requires PromptlyReached(cfg, j, scan) && i < |j.s.core.slots| && j.s.core.slots[i].handler == ScriptHandler
    ensures j.s.core.slots[i].timer.Some? && j.w.now <= j.s.core.slots[i].timer.value + 2 * scan
    ensures forall moves, j' :: PromptPlays(cfg, j, moves, j', scan) && j'.w.now > j.s.core.slots[i].timer.value + 2 * scan ==>
              MetBy(cfg, j, moves, i, j.s.core.slots[i].timer.value + 2 * scan)
  {
    PromptlyReachedIsGood(cfg, j, scan);
    assert Timely(j.w, i, scan);
    forall moves, j' | PromptPlays(cfg, j, moves, j', scan) && j'.w.now > j.s.core.slots[i].timer.value + 2 * scan
      ensures MetBy(cfg, j, moves, i, j.s.core.slots[i].timer.value + 2 * scan)
    {
      SteppedInTime(cfg, j, moves, j', i, scan);
    }
  }

  // ---- calls that wait for their release ------------------------------------------------

  /** In this run the release of slot `i` has begun, at `end` or before. */
  ghost predicate BegunBy(cfg: Config, j: Joint, moves: seq<Move>, i: nat, end: nat)
    decreases |moves|
  {
    moves != [] && Able(cfg, j, moves[0]) && i < |j.s.core.slots| &&
    ( || (At(moves[0]) <= end && i < |After(cfg, j, moves[0]).s.core.slots| &&
          R.Begun(cfg, j.s.core.slots[i], After(cfg, j, moves[0]).s.core.slots[i]))
      || BegunBy(cfg, After(cfg, j, moves[0]), moves[1..], i, end))
  }

  lemma DueScanBegins(cfg: Config, j: Joint, m: Move, i: nat, scan: nat)
    requires Good(cfg, j, scan) && Able(cfg, j, m) && Prompt(j.w, At(m), scan)
    requires i < |j.s.core.slots| && j.s.core.slots[i].handler == ReleaseHandler
    requires m.Scan? && j.w.place.k == i + 1 && Due(j.w.timers[i], m.clk.ms)
    ensures i < |After(cfg, j, m).s.core.slots| && R.Begun(cfg, j.s.core.slots[i], After(cfg, j, m).s.core.slots[i])
  {
    hide E.Inv, E.TimersOk, OnTime, Sane, Prompt, After;
    DueScanSteps(cfg, j, m, i, scan);
  }

  /** In every prompt run a call that waits for its release with a timer has begun
      it within two scans of the deadline, once that moment has passed. */
  lemma {:induction false} ReleasedInTime(cfg: Config, j: Joint, moves: seq<Move>, j': Joint, i: nat, scan: nat)
    requires Good(cfg, j, scan) && i < |j.s.core.slots| && j.s.core.slots[i].handler == ReleaseHandler
    requires PromptPlays(cfg, j, moves, j', scan)
    requires j.s.core.slots[i].timer.Some? && j'.w.now > j.s.core.slots[i].timer.value + 2 * scan
    ensures BegunBy(cfg, j, moves, i, j.s.core.slots[i].timer.value + 2 * scan)
    decreases |moves|
  {
    hide E.Inv, E.TimersOk, OnTime, Sane, Prompt, After, R.Begun;
    Overdue(cfg, j, i, scan);
    var m := moves[0];
    SameSize(cfg, j, m);
    MoveInTime(cfg, j, m, i, scan);
    AfterGood(cfg, j, m, scan);
    if m.Scan? && j.w.place.k == i + 1 && Due(j.w.timers[i], m.clk.ms) {
      DueScanBegins(cfg, j, m, i, scan);
    } else {
      if m.Work? {
        WorkBegins(cfg, j, m, i);
      } else {
        OthersLeave(cfg, j, m, i);
      }
      var v := After(cfg, j, m);
      if v.s.core.slots[i] == j.s.core.slots[i] {
        ReleasedInTime(cfg, v, moves[1..], j', i, scan);
      }
    }
  }

  lemma WorkBegins(cfg: Config, j: Joint, m: Move, i: nat)
    requires Fine(cfg, j) && Able(cfg, j, m) && m.Work? && i < |j.s.core.slots| && j.s.core.slots[i].handler == ReleaseHandler
    ensures i < |After(cfg, j, m).s.core.slots|
    ensures var v := After(cfg, j, m).s.core.slots[i]; v == j.s.core.slots[i] || R.Begun(cfg, j.s.core.slots[i], v)
  {
    hide E.Inv, E.TimersOk, Sane, R.Begun;
    SameSize(cfg, j, m);
    R.WaitingStep(cfg, j.s, m.step, i);
  }

  /** The steps of the exchange in a joint run. */
  ghost function StepsOf(cfg: Config, j: Joint, moves: seq<Move>): seq<E.Step>
    decreases |moves|
  {
    if moves == [] || !Able(cfg, j, moves[0]) then []
    else OwnSteps(j, moves[0]) + StepsOf(cfg, After(cfg, j, moves[0]), moves[1..])
  }

  function OwnSteps(j: Joint, m: Move): seq<E.Step> {
    match m
    case Work(step, _) => [step]
    case Thread(_) => []
    case Scan(clk, scr) =>
      if j.w.place.Scanning? && 0 < j.w.place.k <= |j.w.timers| && Due(j.w.timers[j.w.place.k - 1], clk.ms)
      then [E.DoExpire(j.w.place.k - 1, clk, scr)] else []
  }

  lemma OwnRun(cfg: Config, j: Joint, m: Move, rest: seq<E.Step>, s': E.System)
    requires Fine(cfg, j) && Able(cfg, j, m) && E.Runs(cfg, After(cfg, j, m).s, rest, s')
    ensures E.Runs(cfg, j.s, OwnSteps(j, m) + rest, s')
  {
    hide E.Inv, E.TimersOk, E.Runs;
    assert [] + rest == rest;
    match m {
      case Work(step, _) => T.RunsOn(cfg, j.s, step, rest, s');
      case Thread(_) =>
      case Scan(clk, scr) =>
        if Due(j.w.timers[j.w.place.k - 1], clk.ms) {
          ScanAgrees(cfg, j, clk, scr);
          T.RunsOn(cfg, j.s, E.DoExpire(j.w.place.k - 1, clk, scr), rest, s');
        }
    }
  }

  lemma {:induction false} StepsRun(cfg: Config, j: Joint, moves: seq<Move>, j': Joint, scan: nat)
    requires Good(cfg, j, scan) && PromptPlays(cfg, j, moves, j', scan)
    ensures E.Runs(cfg, j.s, StepsOf(cfg, j, moves), j'.s)
    decreases |moves|
  {
    if moves == [] {
      T.RunsNil(cfg, j.s);
    } else {
      hide E.Inv, E.TimersOk, OnTime, Sane, Prompt, E.Runs, After, OwnSteps;
      var v := After(cfg, j, moves[0]);
      AfterGood(cfg, j, moves[0], scan);
      StepsRun(cfg, v, moves[1..], j', scan);
      OwnRun(cfg, j, moves[0], StepsOf(cfg, v, moves[1..]), j'.s);
    }
  }

  /** A joint run is a run of the exchange. */
  lemma {:induction false} PlaysReach(cfg: Config, j: Joint, moves: seq<Move>, j': Joint, scan: nat)
    requires T.Reachable(cfg, j.s) && Good(cfg, j, scan) && PromptPlays(cfg, j, moves, j', scan)
    ensures T.Reachable(cfg, j'.s)
    decreases |moves|
  {
    if moves != [] {
      hide E.Inv, E.TimersOk, OnTime, Sane, Prompt, T.Reachable;
      var m := moves[0];
      AfterGood(cfg, j, m, scan);
      match m {
        case Work(step, _) => T.NextReachable(cfg, j.s, step);
        case Thread(_) =>
        case Scan(clk, scr) =>
          if Due(j.w.timers[j.w.place.k - 1], clk.ms) {
            ScanAgrees(cfg, j, clk, scr);
            T.NextReachable(cfg, j.s, E.DoExpire(j.w.place.k - 1, clk, scr));
          }
      }
      PlaysReach(cfg, After(cfg, j, m), moves[1..], j', scan);
    }
  }

  /** A refused invite does not keep its slot.  While it waits in the release handler
      its timer is never overdue by more than two scans.  In every prompt run its
      release has begun within two scans of the deadline, once that moment has
      passed; and once the run has gone through the sections of that release, the
      slot has come to the free list, off every count. */
  lemma RefusedAreReleased(cfg: Config, j: Joint, i: nat, scan: nat)
    requires PromptlyReached(cfg, j, scan) && i < |j.s.core.slots|
    requires j.s.core.slots[i].handler == ReleaseHandler && j.s.core.slots[i].timer.Some?
    ensures j.w.now <= j.s.core.slots[i].timer.value + 2 * scan
    ensures forall moves, j' :: PromptPlays(cfg, j, moves, j', scan) && j'.w.now > j.s.core.slots[i].timer.value + 2 * scan ==>
              BegunBy(cfg, j, moves, i, j.s.core.slots[i].timer.value + 2 * scan)
    ensures forall moves, j' :: PromptPlays(cfg, j, moves, j', scan) &&
                                R.Sections(StepsOf(cfg, j, moves), i) >= |Owed(cfg, j.s.core.slots[i])| + 2 ==>
              R.FreedWithin(cfg, j.s, StepsOf(cfg, j, moves), i)
  {
    hide E.Inv, E.TimersOk, OnTime, Sane, Prompt, T.Reachable, E.Init, B.Init;
    PromptlyReachedIsGood(cfg, j, scan);
    Overdue(cfg, j, i, scan);
    PromptlyReachedIsReachable(cfg, j, scan);
    forall moves, j' | PromptPlays(cfg, j, moves, j', scan) && j'.w.now > j.s.core.slots[i].timer.value + 2 * scan
      ensures BegunBy(cfg, j, moves, i, j.s.core.slots[i].timer.value + 2 * scan)
    {
      ReleasedInTime(cfg, j, moves, j', i, scan);
    }
    forall moves, j' | PromptPlays(cfg, j, moves, j', scan) &&
                       R.Sections(StepsOf(cfg, j, moves), i) >= |Owed(cfg, j.s.core.slots[i])| + 2
      ensures R.FreedWithin(cfg, j.s, StepsOf(cfg, j, moves), i)
    {
      StepsRun(cfg, j, moves, j', scan);
      R.WaitingCompletes(cfg, j.s, StepsOf(cfg, j, moves), j'.s, i);
    }
  }

  lemma PromptlyReachedIsReachable(cfg: Config, j: Joint, scan: nat)
    requires PromptlyReached(cfg, j, scan)
    ensures T.Reachable(cfg, j.s)
  {
    var j0, moves :| Starts(cfg, j0) && PromptPlays(cfg, j0, moves, j, scan);
    Keeping.InitHolds(cfg, j0.s);
    T.StartsReachable(cfg, j0.s);
    PlaysReach(cfg, j0, moves, j, scan);
  }
}
