/** The thread that watches every slot's timer (common/thread.cpp).

    It sleeps until the earliest deadline it knows of, while other threads arm
    timers and then signal it.  A deadline is a moment on one clock; None is a
    timer that is not armed. */
module Background {
  import opened Common

  /** Where the thread stands.  `Top` is about to take the condition's lock,
      `Asleep` waits on it, and a scan still has the slots below `k` to visit;
      `best` is the least time remaining that it has found. */
  datatype Place =
    | Top
    | Asleep(until: nat)
    | Scanning(k: nat, best: Option<nat>, began: nat)

  /** `owing` says for each timer how often it was armed without the notify having
      come yet, `lag` is how long the last scan took, and `fired` lists the slots
      to which TIMEOUT has been delivered. */
  datatype World = World(now: nat, timers: seq<Option<nat>>, signalled: bool, owing: seq<nat>,
                         expires: Option<nat>, place: Place, lag: nat, fired: seq<nat>)

  /** Each step happens at a moment `at`. */
  datatype Step =
    | Arm(at: nat, i: nat, timeout: nat)
    | Notify(at: nat, i: nat)
    | Disarm(at: nat, i: nat)
    | Begin(at: nat, slice: nat)
    | Wake(at: nat)
    | Visit(at: nat, rearm: Option<nat>)
    | End(at: nat)

  predicate Due(timer: Option<nat>, now: nat) { timer.Some? && timer.value <= now }

  function Least(a: Option<nat>, b: nat): Option<nat> {
    if a.Some? && a.value <= b then a else Some(b)
  }

  function Min(a: nat, b: nat): nat { if a <= b then a else b }

  predicate Formed(w: World) {
    |w.owing| == |w.timers| && (w.place.Scanning? ==> w.place.began <= w.now)
  }

  predicate Enabled(w: World, s: Step) {
    && w.now <= s.at
    && match s
       case Arm(_, i, _) => i < |w.timers|
       case Notify(_, i) => i < |w.owing| && w.owing[i] > 0
       case Disarm(_, i) => i < |w.timers|
       case Begin(_, _) => w.place.Top?
       case Wake(_) => w.place.Asleep?
       case Visit(_, _) => w.place.Scanning? && 0 < w.place.k <= |w.timers|
       case End(_) => w.place.Scanning? && w.place.k == 0
  }

  /** The scan starts, or the thread goes round without one. */
  function Decide(w: World): World {
    if w.signalled || Due(w.expires, w.now) then w.(signalled := false, place := Scanning(|w.timers|, None, w.now))
    else w.(place := Top)
  }

  /** First half of the loop, up to the wait. */
  function Rest(w: World, slice: nat): World {
    if w.signalled || Due(w.expires, w.now) then Decide(w)
    else w.(place := Asleep(w.now + if w.expires.Some? then Min(w.expires.value - w.now, slice) else slice))
  }

  /** getExpires and expire on one slot.  A due timer is reset before TIMEOUT is
      handled; the handler may arm it again, which signals this very thread. */
  function Look(w: World, rearm: Option<nat>): World
    requires w.place.Scanning? && 0 < w.place.k <= |w.timers|
  {
    var Scanning(k, best, began) := w.place;
    var i := k - 1;
    match w.timers[i]
    case None => w.(place := Scanning(i, best, began))
    case Some(d) =>
      if d > w.now then w.(place := Scanning(i, Least(best, d - w.now), began))
      else
        w.(timers := w.timers[i := if rearm.Some? then Some(w.now + rearm.value) else None],
           signalled := w.signalled || rearm.Some?, place := Scanning(i, best, began), fired := w.fired + [i])
  }

  function Close(w: World): World
    requires w.place.Scanning? && w.place.began <= w.now
  {
    w.(expires := if w.place.best.Some? then Some(w.now + w.place.best.value) else None,
       lag := w.now - w.place.began, place := Top)
  }

  function Next(w0: World, s: Step): World
    requires Enabled(w0, s) && Formed(w0)
  {
    var w := w0.(now := s.at);
    match s
    case Arm(at, i, timeout) => w.(timers := w.timers[i := Some(at + timeout)], owing := w.owing[i := w.owing[i] + 1])
    case Notify(_, i) => w.(signalled := true, owing := w.owing[i := w.owing[i] - 1])
    case Disarm(_, i) => w.(timers := w.timers[i := None])
    case Begin(_, slice) => Rest(w, slice)
    case Wake(_) => Decide(w)
    case Visit(_, rearm) => Look(w, rearm)
    case End(_) => Close(w)
  }

  ghost predicate Init(w: World) {
    && (forall i :: 0 <= i < |w.timers| ==> w.timers[i] == None)
    && |w.owing| == |w.timers| && (forall i :: 0 <= i < |w.owing| ==> w.owing[i] == 0)
    && !w.signalled && w.expires == None && w.place == Top && w.lag == 0 && w.fired == []
  }

  ghost predicate Runs(w: World, steps: seq<Step>, w': World)
    decreases |steps|
  {
    if steps == [] then w == w'
    else Formed(w) && Enabled(w, steps[0]) && Runs(Next(w, steps[0]), steps[1..], w')
  }

  ghost predicate Reachable(w: World) {
    exists w0, steps :: Init(w0) && Runs(w0, steps, w)
  }

  // ---- no deadline is lost --------------------------------------------------------

  /** Timer `i` is taken care of: a signal is there or its own is about to come,
      the scan under way will still reach it, or what the thread will sleep for
      covers it to within the time that one scan took. */
  ghost predicate Covered(w: World, i: nat)
    requires i < |w.timers| == |w.owing|
  {
    w.timers[i].Some? ==>
      var d := w.timers[i].value;
      || w.signalled
      || w.owing[i] > 0
      || match w.place
         case Scanning(k, best, began) => i < k || (best.Some? && began + best.value <= d)
         case _ => w.expires.Some? && w.expires.value <= d + w.lag
  }

  /** While it sleeps the thread means to wake for the deadline it knows of. */
  ghost predicate SleepsRight(w: World) {
    w.place.Asleep? ==> (w.expires.Some? ==> w.place.until <= w.expires.value)
  }

  ghost predicate Sane(w: World) {
    && Formed(w) && SleepsRight(w)
    && (w.place.Scanning? ==> w.place.k <= |w.timers|)
    && forall i :: 0 <= i < |w.timers| ==> Covered(w, i)
  }

  lemma NextKeeps(w: World, s: Step)
    requires Sane(w) && Enabled(w, s)
    ensures Sane(Next(w, s)) && |Next(w, s).timers| == |w.timers|
  {
    var w' := Next(w, s);
    forall i | 0 <= i < |w'.timers| ensures Covered(w', i) {
      assert i < |w.timers| && Covered(w, i);
    }
  }

  lemma {:induction false} RunKeeps(w: World, steps: seq<Step>, w': World)
    requires Sane(w) && Runs(w, steps, w')
    ensures Sane(w') && |w'.timers| == |w.timers| && w.now <= w'.now
    decreases |steps|
  {
    if steps != [] {
      NextKeeps(w, steps[0]);
      RunKeeps(Next(w, steps[0]), steps[1..], w');
    }
  }

  lemma ReachableIsSane(w: World)
    requires Reachable(w)
    ensures Sane(w)
  {
    var w0, steps :| Init(w0) && Runs(w0, steps, w);
    RunKeeps(w0, steps, w);
  }

  /** No lost deadline, in every interleaving of arming, signalling and scanning.
      The thread asleep will wake in time for every timer whose own notify has been
      sent, whatever other threads still owe; and once such a deadline is due, by a
      scan's duration at most, the next decision of the thread is to scan. */
  lemma NoLostDeadline(w: World, i: nat)
    requires Reachable(w) && i < |w.timers| == |w.owing| && w.timers[i].Some? && w.owing[i] == 0
    ensures var d := w.timers[i].value;
            && (w.place.Asleep? && !w.signalled ==> w.place.until <= d + w.lag)
            && (forall s: Step :: Enabled(w, s) && (s.Begin? || s.Wake?) && d + w.lag <= s.at ==>
                  Next(w, s).place == Scanning(|w.timers|, None, s.at))
  {
    ReachableIsSane(w);
    assert Covered(w, i);
  }

  // ---- how late a timer can be --------------------------------------------------------

  /** No time is lost around the thread: it does not dwell at the top of its loop,
      it is woken at once by a signal and when it asked to be, no scan takes longer
      than `scan`, and whoever arms a timer notifies before that timer is due. */
  ghost predicate Prompt(w: World, at: nat, scan: nat)
    requires Formed(w)
  {
    && (w.place.Top? ==> at == w.now)
    && (w.place.Asleep? ==> at <= w.place.until && (w.signalled ==> at == w.now))
    && (w.place.Scanning? ==> at <= w.place.began + scan)
    && (forall i :: 0 <= i < |w.timers| && w.owing[i] > 0 && w.timers[i].Some? ==> at <= w.timers[i].value)
  }

  ghost predicate PromptRuns(w: World, steps: seq<Step>, w': World, scan: nat)
    decreases |steps|
  {
    if steps == [] then w == w'
    else Formed(w) && Enabled(w, steps[0]) && Prompt(w, steps[0].at, scan) && PromptRuns(Next(w, steps[0]), steps[1..], w', scan)
  }

  ghost predicate PromptlyReachable(w: World, scan: nat) {
    exists w0, steps :: Init(w0) && PromptRuns(w0, steps, w, scan)
  }

  /** A scan begins at most one scan late for the timers it has not reached; the
      others were not due when it began; and otherwise no timer is later than that. */
  ghost predicate Timely(w: World, i: nat, scan: nat)
    requires i < |w.timers|
  {
    w.timers[i].Some? ==>
      var d := w.timers[i].value;
      match w.place
      case Scanning(k, _, began) => began <= d + if i < k then scan else 0
      case _ => w.now <= d + scan
  }

  ghost predicate OnTime(w: World, scan: nat) {
    && Sane(w) && w.lag <= scan
    && (w.place.Scanning? ==> w.now <= w.place.began + scan)
    && forall i :: 0 <= i < |w.timers| ==> Timely(w, i, scan)
  }

  lemma NextOnTime(w: World, s: Step, scan: nat)
    requires OnTime(w, scan) && Enabled(w, s) && Prompt(w, s.at, scan)
    ensures OnTime(Next(w, s), scan)
  {
    NextKeeps(w, s);
    var w' := Next(w, s);
    forall i | 0 <= i < |w'.timers| ensures Timely(w', i, scan) {
      assert Covered(w, i) && Timely(w, i, scan);
    }
  }

  lemma {:induction false} RunOnTime(w: World, steps: seq<Step>, w': World, scan: nat)
    requires OnTime(w, scan) && PromptRuns(w, steps, w', scan)
    ensures OnTime(w', scan)
    decreases |steps|
  {
    if steps != [] {
      NextOnTime(w, steps[0], scan);
      RunOnTime(Next(w, steps[0]), steps[1..], w', scan);
    }
  }

  /** The time bound, over every prompt run: no armed timer is ever overdue by
      more than two scans. */
  lemma NeverLate(w: World, i: nat, scan: nat)
    requires PromptlyReachable(w, scan) && i < |w.timers| && w.timers[i].Some?
    ensures w.now <= w.timers[i].value + 2 * scan
  {
    var w0, steps :| Init(w0) && PromptRuns(w0, steps, w, scan);
    RunOnTime(w0, steps, w, scan);
    assert Timely(w, i, scan);
  }

  /** In this run the scan fires slot `i`, or some thread arms or disarms it first,
      at `end` or before. */
  ghost predicate AnsweredBy(w: World, steps: seq<Step>, i: nat, end: nat)
    decreases |steps|
  {
    steps != [] && Formed(w) && Enabled(w, steps[0]) &&
    ((Answers(w, steps[0], i) && steps[0].at <= end) || AnsweredBy(Next(w, steps[0]), steps[1..], i, end))
  }

  ghost predicate Answers(w: World, s: Step, i: nat)
    requires Enabled(w, s)
  {
    || (s.Visit? && w.place.k == i + 1 && Due(w.timers[i], s.at))
    || ((s.Arm? || s.Disarm?) && s.i == i)
  }

  lemma SameTimer(w: World, s: Step, i: nat)
    requires Sane(w) && Enabled(w, s) && i < |w.timers| && !Answers(w, s, i)
    ensures |Next(w, s).timers| == |w.timers| && Next(w, s).timers[i] == w.timers[i]
  {
  }

  /** Whatever a prompt thread does next, it does no later than this. */
  lemma NextInTime(w: World, i: nat, at: nat, scan: nat)
    requires OnTime(w, scan) && i < |w.timers| && w.timers[i].Some? && w.now <= at && Prompt(w, at, scan)
    ensures at <= w.timers[i].value + 2 * scan
  {
    assert Timely(w, i, scan) && Covered(w, i);
  }

  /** So in every prompt run an armed timer has fired within two scans of its
      deadline, once that moment has passed, unless it was armed anew or disarmed
      before. */
  lemma {:induction false} FiresInTime(w: World, steps: seq<Step>, w': World, i: nat, scan: nat)
    requires OnTime(w, scan) && PromptRuns(w, steps, w', scan) && i < |w.timers| && w.timers[i].Some?
    requires w'.now > w.timers[i].value + 2 * scan
    ensures AnsweredBy(w, steps, i, w.timers[i].value + 2 * scan)
    decreases |steps|
  {
    hide Covered, SleepsRight, Look, Decide, Rest, Close;
    assert Timely(w, i, scan);
    var s := steps[0];
    NextInTime(w, i, s.at, scan);
    if !Answers(w, s, i) {
      NextOnTime(w, s, scan);
      SameTimer(w, s, i);
      FiresInTime(Next(w, s), steps[1..], w', i, scan);
    }
  }

  lemma RunsOn(w: World, s: Step, rest: seq<Step>, w': World)
    requires Formed(w) && Enabled(w, s) && Runs(Next(w, s), rest, w')
    ensures Runs(w, [s] + rest, w')
  {
    assert ([s] + rest)[1..] == rest;
  }

  lemma PromptOn(w: World, s: Step, rest: seq<Step>, w': World, scan: nat)
    requires Formed(w) && Enabled(w, s) && Prompt(w, s.at, scan) && PromptRuns(Next(w, s), rest, w', scan)
    ensures PromptRuns(w, [s] + rest, w', scan)
  {
    assert ([s] + rest)[1..] == rest;
  }

  lemma PromptNil(w: World, scan: nat)
    ensures PromptRuns(w, [], w, scan)
  {
  }

  /** The thread lies asleep, its only timer covered, and will oversleep by `scan`. */
  ghost predicate Oversleeps(w: World, scan: nat) {
    && |w.timers| == 1 && Formed(w) && w.timers[0].Some? && w.owing == [0] && !w.signalled
    && w.lag == scan && w.place == Asleep(w.timers[0].value + scan) && w.expires == Some(w.timers[0].value + scan)
    && w.now <= w.timers[0].value + scan
  }

  /** Both bounds are exact.  A deadline found by a scan is counted from the scan's
      end, so whatever a scan takes, there is a prompt run that sleeps that much
      longer; and one in which the timer then fires two scans late. */
  lemma LagIsReal(w: World, timeout: nat, scan: nat)
    requires Init(w) && |w.timers| == 1 && timeout > 0
    ensures exists steps, w' :: PromptRuns(w, steps, w', scan) && Oversleeps(w', scan)
  {
    hide PromptRuns;
    var s1, s2 := Arm(w.now, 0, timeout), Notify(w.now, 0);
    var w1 := Next(w, s1);
    var w2 := Next(w1, s2);
    assert w2.owing == [0];
    SlowScan(w2, timeout, scan);
    var rest, w' :| PromptRuns(w2, rest, w', scan) && Oversleeps(w', scan);
    PromptOn(w1, s2, rest, w', scan);
    PromptOn(w, s1, [s2] + rest, w', scan);
  }

  lemma SlowScan(w: World, timeout: nat, scan: nat)
    requires |w.timers| == 1 && w.owing == [0] && w.signalled && w.place.Top?
    requires timeout > 0 && w.timers[0] == Some(w.now + timeout)
    ensures exists steps, w' :: PromptRuns(w, steps, w', scan) && Oversleeps(w', scan)
  {
    hide PromptRuns;
    var t, slice := w.now, timeout + scan;
    var s3, s4, s5, s6 := Begin(t, slice), Visit(t, None), End(t + scan), Begin(t + scan, slice);
    var w3 := Next(w, s3);
    var w4 := Next(w3, s4);
    var w5 := Next(w4, s5);
    var w6 := Next(w5, s6);
    PromptNil(w6, scan);
    PromptOn(w5, s6, [], w6, scan);
    PromptOn(w4, s5, [s6] + [], w6, scan);
    PromptOn(w3, s4, [s5] + ([s6] + []), w6, scan);
    PromptOn(w, s3, [s4] + ([s5] + ([s6] + [])), w6, scan);
  }

  lemma TwoScansLate(w: World, scan: nat)
    requires Oversleeps(w, scan)
    ensures var d := w.timers[0].value;
            var steps := [Wake(d + scan), Visit(d + 2 * scan, None)];
            exists w' :: PromptRuns(w, steps, w', scan) && w'.now == d + 2 * scan && w'.fired == w.fired + [0]
  {
    var d := w.timers[0].value;
    var v := Next(w, Wake(d + scan));
    var w' := Next(v, Visit(d + 2 * scan, None));
    PromptOn(v, Visit(d + 2 * scan, None), [], w', scan);
    PromptOn(w, Wake(d + scan), [Visit(d + 2 * scan, None)] + [], w', scan);
    assert [Wake(d + scan)] + ([Visit(d + 2 * scan, None)] + []) == [Wake(d + scan), Visit(d + 2 * scan, None)];
  }

  // ---- a scan fires what is due ------------------------------------------------------

  /** A timer that is due when the scan has not reached its slot yet has fired by
      the time the scan has passed it, unless another thread armed it anew or
      disarmed it first. */
  lemma {:induction false} ScanFires(w: World, steps: seq<Step>, w': World, i: nat)
    requires Sane(w) && Runs(w, steps, w') && i < |w.timers| && Due(w.timers[i], w.now)
    requires w.place.Scanning? && i < w.place.k
    requires forall n :: 0 <= n < |steps| ==>
               !steps[n].End? && !(steps[n].Arm? && steps[n].i == i) && !(steps[n].Disarm? && steps[n].i == i)
    ensures w'.place.Scanning? && |w'.timers| == |w.timers| && w.fired <= w'.fired
    ensures if i < w'.place.k then w'.timers[i] == w.timers[i] else i in w'.fired[|w.fired|..]
    decreases |steps|
  {
    if steps != [] {
      var v := Next(w, steps[0]);
      NextKeeps(w, steps[0]);
      if i < v.place.k {
        ScanFires(v, steps[1..], w', i);
        Suffix(w.fired, v.fired, w'.fired, i);
      } else {
        ScanGoesOn(v, steps[1..], w');
        assert v.fired == w.fired + [i];
        assert w'.fired[|w.fired|] == i;
      }
    }
  }

  lemma Suffix(a: seq<nat>, b: seq<nat>, c: seq<nat>, i: nat)
    requires a <= b <= c
    ensures i in c[|b|..] ==> i in c[|a|..]
  {
    if i in c[|b|..] {
      var k :| |b| <= k < |c| && c[k] == i;
      assert c[|a|..][k - |a|] == i;
    }
  }

  lemma {:induction false} ScanGoesOn(w: World, steps: seq<Step>, w': World)
    requires Sane(w) && Runs(w, steps, w') && w.place.Scanning?
    requires forall n :: 0 <= n < |steps| ==> !steps[n].End?
    ensures w'.place.Scanning? && w'.place.k <= w.place.k && |w'.timers| == |w.timers| && w.fired <= w'.fired
    decreases |steps|
  {
    if steps != [] {
      NextKeeps(w, steps[0]);
      ScanGoesOn(Next(w, steps[0]), steps[1..], w');
    }
  }

  // ---- one whole scan -----------------------------------------------------------------

  /** Slot `i` is visited at `ats[i]`, the last slot first. */
  ghost predicate Downwards(w: World, ats: seq<nat>, rearm: seq<Option<nat>>) {
    && |ats| == |rearm| == |w.timers| == |w.owing|
    && (forall i :: 0 <= i < |ats| ==> w.now <= ats[i])
    && (forall i, j :: 0 <= i < j < |ats| ==> ats[j] <= ats[i])
  }

  /** The scan after it has visited the slots from `k` on. */
  ghost function Sweep(w: World, ats: seq<nat>, rearm: seq<Option<nat>>, k: nat): (r: World)
    requires w.place == Scanning(|w.timers|, None, w.now) && Downwards(w, ats, rearm) && k <= |w.timers|
    ensures r.place.Scanning? && r.place.k == k && r.place.began == w.now && |r.timers| == |w.timers| && r.owing == w.owing
    ensures r.now == if k < |ats| then ats[k] else w.now
    decreases |w.timers| - k
  {
    if k == |w.timers| then w else Next(Sweep(w, ats, rearm, k + 1), Visit(ats[k], rearm[k]))
  }

  /** What a scan does: it resets and fires exactly the timers that are due when
      it comes to them, in descending order, and finds the least time remaining
      among the others. */
  ghost predicate Swept(w: World, r: World, ats: seq<nat>, rearm: seq<Option<nat>>, k: nat)
    requires Downwards(w, ats, rearm) && k <= |w.timers| == |r.timers| && r.place.Scanning?
  {
    var best := r.place.best;
    && (forall i :: 0 <= i < |w.timers| ==>
          r.timers[i] == if i >= k && Due(w.timers[i], ats[i])
                         then (if rearm[i].Some? then Some(ats[i] + rearm[i].value) else None) else w.timers[i])
    && (forall i :: k <= i < |w.timers| && Waiting(w, ats, i) ==> best.Some? && best.value <= w.timers[i].value - ats[i])
    && (best.Some? ==> exists i :: k <= i < |w.timers| && Waiting(w, ats, i) && best.value == w.timers[i].value - ats[i])
    && r.fired == w.fired + Fired(w, ats, k)
    && (r.signalled <==> w.signalled || exists i :: k <= i < |w.timers| && Due(w.timers[i], ats[i]) && rearm[i].Some?)
    && r.expires == w.expires && r.owing == w.owing && r.lag == w.lag
  }

  ghost predicate Waiting(w: World, ats: seq<nat>, i: nat)
    requires i < |w.timers| == |ats|
  {
    w.timers[i].Some? && ats[i] < w.timers[i].value
  }

  /** The slots from `k` on whose timers are due, the last one first. */
  ghost function Fired(w: World, ats: seq<nat>, k: nat): seq<nat>
    requires k <= |w.timers| == |ats|
    decreases |w.timers| - k
  {
    if k == |w.timers| then [] else Fired(w, ats, k + 1) + if Due(w.timers[k], ats[k]) then [k] else []
  }

  lemma {:induction false} SweepExact(w: World, ats: seq<nat>, rearm: seq<Option<nat>>, k: nat)
    requires w.place == Scanning(|w.timers|, None, w.now) && Downwards(w, ats, rearm) && k <= |w.timers|
    ensures Swept(w, Sweep(w, ats, rearm, k), ats, rearm, k)
    decreases |w.timers| - k
  {
    if k < |w.timers| {
      SweepExact(w, ats, rearm, k + 1);
      SweepStep(w, ats, rearm, k);
    } else {
      assert w.fired + [] == w.fired;
    }
  }

  lemma SweepStep(w: World, ats: seq<nat>, rearm: seq<Option<nat>>, k: nat)
    requires w.place == Scanning(|w.timers|, None, w.now) && Downwards(w, ats, rearm) && k < |w.timers|
    requires Swept(w, Sweep(w, ats, rearm, k + 1), ats, rearm, k + 1)
    ensures Swept(w, Sweep(w, ats, rearm, k), ats, rearm, k)
  {
    SweptOn(w, Sweep(w, ats, rearm, k + 1), ats, rearm, k);
  }

  /** One visit more. */
  lemma SweptOn(w: World, p: World, ats: seq<nat>, rearm: seq<Option<nat>>, k: nat)
    requires Downwards(w, ats, rearm) && k < |w.timers| == |p.timers| && p.place.Scanning? && p.place.k == k + 1
    requires Swept(w, p, ats, rearm, k + 1)
    ensures Swept(w, Look(p.(now := ats[k]), rearm[k]), ats, rearm, k)
  {
    var r := Look(p.(now := ats[k]), rearm[k]);
    assert p.timers[k] == w.timers[k];
    assert Fired(w, ats, k) == Fired(w, ats, k + 1) + if Due(w.timers[k], ats[k]) then [k] else [];
    if Waiting(w, ats, k) && r.place.best != p.place.best {
      assert r.place.best.value == w.timers[k].value - ats[k];
    }
  }

  /** After a whole scan the thread knows of a deadline iff a timer that the scan met is
      still to come, and that is the least time remaining, counted from the scan's end. */
  lemma ScanSets(w: World, ats: seq<nat>, rearm: seq<Option<nat>>, end: nat)
    requires w.place == Scanning(|w.timers|, None, w.now) && Downwards(w, ats, rearm)
    requires w.now <= end && (|ats| > 0 ==> ats[0] <= end)
    ensures var r := Next(Sweep(w, ats, rearm, 0), End(end));
            && r.place == Top && r.now == end && r.lag == end - w.now
            && r.timers == Sweep(w, ats, rearm, 0).timers && r.fired == Sweep(w, ats, rearm, 0).fired
            && (r.expires.Some? <==> exists i :: 0 <= i < |w.timers| && Waiting(w, ats, i))
            && (r.expires.Some? ==>
                  && (forall i :: 0 <= i < |w.timers| && Waiting(w, ats, i) ==> r.expires.value <= end + (w.timers[i].value - ats[i]))
                  && exists i :: 0 <= i < |w.timers| && Waiting(w, ats, i) && r.expires.value == end + (w.timers[i].value - ats[i]))
  {
    SweepExact(w, ats, rearm, 0);
  }

  // ---- the thread object ----------------------------------------------------------------

  class Background {
    var signalled: bool
    var slice: nat
    var expires: Option<nat>
    const timers: array<Option<nat>>  // each slot's own
    ghost var lag: nat
    ghost var fired: seq<nat>

    constructor (count: nat)
      ensures slice == 500 && fresh(timers) && timers.Length == count
      ensures Init(View(0, seq(count, _ => 0), Top))
    {
      signalled, slice, expires, lag, fired := false, 500, None, 0, [];
      timers := new Option<nat>[count](_ => None);
    }

    ghost function View(now: nat, owing: seq<nat>, place: Place): World
      reads this, timers
    {
      World(now, timers[..], signalled, owing, expires, place, lag, fired)
    }

    method Notify()
      modifies this`signalled
      ensures signalled
    {
      signalled := true;
    }

    /** timeslot::arm is two steps of the model. */
    method Arm(i: nat, timeout: nat, now: nat, ghost owing: seq<nat>, ghost place: Place)
      requires i < timers.Length && Formed(View(now, owing, place))
      modifies this`signalled, timers
      ensures Runs(old(View(now, owing, place)), [Step.Arm(now, i, timeout), Step.Notify(now, i)], View(now, owing, place))
    {
      ghost var w := View(now, owing, place);
      timers[i] := Some(now + timeout);
      Notify();
      ghost var v := Next(w, Step.Arm(now, i, timeout));
      RunsOn(v, Step.Notify(now, i), [], View(now, owing, place));
      RunsOn(w, Step.Arm(now, i, timeout), [Step.Notify(now, i)] + [], View(now, owing, place));
    }

    /** Up to the wait.  Unless there is something to do the thread waits until the
        deadline that it knows of, but for a slice at most, and for just that without one. */
    method BeforeWait(now: nat, ghost owing: seq<nat>) returns (timeout: Option<nat>)
      ensures timeout.Some? <==> !signalled && !Due(expires, now)
      ensures timeout.Some? ==> timeout.value <= slice && (timeout.value < slice ==> expires == Some(now + timeout.value))
      ensures timeout.Some? && expires.Some? ==> now + timeout.value <= expires.value
      ensures Rest(View(now, owing, Top), slice).place ==
              if timeout.Some? then Asleep(now + timeout.value) else Scanning(timers.Length, None, now)
    {
      timeout := Remaining(expires, now);
      if !signalled && timeout != Some(0) {
        if timeout == None || timeout.value > slice {
          timeout := Some(slice);
        }
      } else {
        timeout := None;
      }
    }

    /** After the wait: a scan, or round again. */
    method AfterWait(now: nat, ats: seq<nat>, rearm: seq<Option<nat>>, end: nat, ghost owing: seq<nat>) returns (scanned: bool)
      requires Downwards(View(now, owing, Top), ats, rearm) && now <= end && (|ats| > 0 ==> ats[0] <= end)
      modifies this`signalled, this`expires, this`lag, this`fired, timers
      ensures var d := Decide(old(View(now, owing, Top)));
              scanned == d.place.Scanning? &&
              if scanned then View(end, owing, Top) == Next(Sweep(d, ats, rearm, 0), Step.End(end)) else View(now, owing, Top) == d
    {
      var timeout := Remaining(expires, now);
      if signalled || timeout == Some(0) {
        signalled := false;
        Scan(now, ats, rearm, end, owing);
        scanned := true;
      } else {
        signalled := false;
        scanned := false;
      }
    }

    method Scan(now: nat, ats: seq<nat>, rearm: seq<Option<nat>>, end: nat, ghost owing: seq<nat>)
      requires Downwards(View(now, owing, Top), ats, rearm) && now <= end && (|ats| > 0 ==> ats[0] <= end)
      modifies this`signalled, this`expires, this`lag, this`fired, timers
      ensures var w := old(View(now, owing, Scanning(timers.Length, None, now)));
              View(end, owing, Top) == Next(Sweep(w, ats, rearm, 0), Step.End(end))
    {
      ghost var w := View(now, owing, Scanning(timers.Length, None, now));
      var tsid := timers.Length;
      var timeout: Option<nat> := None;
      while tsid > 0
        invariant 0 <= tsid <= timers.Length
        invariant View(if tsid < |ats| then ats[tsid] else now, owing, Scanning(tsid, timeout, now)) == Sweep(w, ats, rearm, tsid)
      {
        hide Look;
        tsid := tsid - 1;
        timeout := Turn(tsid, ats[tsid], rearm[tsid], timeout, now, owing);
      }
      expires := if timeout.Some? then Some(end + timeout.value) else None;
      lag := end - now;
    }

    /** One turn of the scan's loop. */
    method Turn(i: nat, at: nat, rearm: Option<nat>, best: Option<nat>, ghost began: nat, ghost owing: seq<nat>) returns (timeout: Option<nat>)
      requires i < timers.Length
      modifies this`signalled, this`fired, timers
      ensures View(at, owing, Scanning(i, timeout, began)) == Look(old(View(at, owing, Scanning(i + 1, best, began))), rearm)
    {
      timeout := best;
      var current := Visit(i, at, rearm);
      if current.Some? && (timeout == None || current.value < timeout.value) {
        timeout := current;
      }
    }

    /** getExpires and expire on one slot; a timer found due counts as none. */
    method Visit(i: nat, now: nat, rearm: Option<nat>) returns (left: Option<nat>)
      requires i < timers.Length
      modifies this`signalled, this`fired, timers
      ensures left == if Due(old(timers[i]), now) then None else Remaining(old(timers[i]), now)
      ensures timers[..] == if Due(old(timers[i]), now) then old(timers[..])[i := Deadline(rearm, now)] else old(timers[..])
      ensures fired == old(fired) + if Due(old(timers[i]), now) then [i] else []
      ensures signalled <==> old(signalled) || (Due(old(timers[i]), now) && rearm.Some?)
    {
      left := Remaining(timers[i], now);
      if left == Some(0) {
        left := None;
        timers[i] := Deadline(rearm, now);
        if rearm.Some? {
          Notify();
        }
        fired := fired + [i];
      }
    }
  }

  function Deadline(timeout: Option<nat>, now: nat): Option<nat> {
    if timeout.Some? then Some(now + timeout.value) else None
  }
}
