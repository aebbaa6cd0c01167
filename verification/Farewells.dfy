/** What is said to the remote side: to every call that is answered or pending when it
    ends, and after the remote side has dropped the call. */
module Farewells {
  import opened Common
  import opened Stats
  import opened Calls
  import opened Exchange
  import Keeping
  import Theorems

  /** drop() sends one of these. */
  ghost predicate IsFarewell(a: Act, call: nat) { a.call == call && !a.Disconnected? }

  ghost predicate SaidSince(acts: seq<Act>, from: nat, call: nat) {
    exists k :: from <= k < |acts| && IsFarewell(acts[k], call)
  }

  ghost predicate InThisCall(s: Slot, call: nat) { InCall(s) && s.call == call }

  /** In the release handler a call is only ever declined. */
  ghost predicate Declining(s: Slot) { s.handler == ReleaseHandler && s.tid != -1 && !s.connected }

  /** A call that dropped while a transaction was pending in the release handler is
      still waiting to be declined or has been; any other that dropped has heard
      nothing since, and will not. */
  ghost predicate DropOk(c: Core, d: Drop) {
    && d.call < |c.log| && d.heard <= |c.acts|
    && if d.late && d.pending then
         SaidSince(c.acts, d.heard, d.call) || exists i :: 0 <= i < |c.slots| && InThisCall(c.slots[i], d.call) && Declining(c.slots[i])
       else
         !SaidSince(c.acts, d.heard, d.call) && forall i :: 0 <= i < |c.slots| && InThisCall(c.slots[i], d.call) ==> !Live(c.slots[i])
  }

  ghost predicate DropsOk(c: Core) {
    && (forall i :: 0 <= i < |c.slots| && c.slots[i].handler == ReleaseHandler ==> !c.slots[i].connected)
    && forall k :: 0 <= k < |c.drops| ==> DropOk(c, c.drops[k])
  }

  // ---- one slot ----------------------------------------------------------------------

  /** What a section of the code may do to a slot and say: it speaks only for a
      live call, revives none, and declines a pending one or leaves it so. */
  ghost predicate Proper(s: Slot, t: Slot, said: seq<Act>) {
    && |said| <= 1 && (said != [] ==> said[0].call == s.call && InCall(s) && Live(s))
    && (InCall(t) && Live(t) ==> InCall(s) && Live(s))
    && t.call == s.call
    && (Declining(s) ==> (Declining(t) && said == []) || said == [Declined(s.call)])
    && (t.handler == ReleaseHandler ==> !t.connected)
  }

  lemma ProperKeeps(c: Core, c': Core, i: nat, t: Slot, said: seq<Act>, d: Drop)
    requires i < |c.slots| && c'.slots == c.slots[i := t] && c'.acts == c.acts + said && |c'.log| >= |c.log|
    requires Proper(c.slots[i], t, said) && DropOk(c, d)
    ensures DropOk(c', d)
  {
    var s := c.slots[i];
    assert c'.acts[..|c.acts|] == c.acts;
    assert forall k :: 0 <= k < |c.acts| ==> c'.acts[k] == c.acts[k];
    if d.late && d.pending {
      if SaidSince(c.acts, d.heard, d.call) {
        var k :| d.heard <= k < |c.acts| && IsFarewell(c.acts[k], d.call);
        assert IsFarewell(c'.acts[k], d.call);
      } else {
        var j :| 0 <= j < |c.slots| && InThisCall(c.slots[j], d.call) && Declining(c.slots[j]);
        if j == i && said != [] {
          assert IsFarewell(c'.acts[|c.acts|], d.call);
        } else {
          assert InThisCall(c'.slots[j], d.call) && Declining(c'.slots[j]);
        }
      }
    } else {
      assert forall k :: d.heard <= k < |c.acts| ==> !IsFarewell(c.acts[k], d.call);
      assert said != [] ==> InThisCall(s, s.call) && Live(s);
    }
  }

  lemma LocalDrops(c: Core, c': Core, i: nat, t: Slot, said: seq<Act>)
    requires DropsOk(c) && i < |c.slots| && c'.slots == c.slots[i := t] && c'.acts == c.acts + said && |c'.log| >= |c.log|
    requires c'.drops == c.drops && Proper(c.slots[i], t, said)
    ensures DropsOk(c')
  {
    forall k | 0 <= k < |c'.drops| ensures DropOk(c', c'.drops[k]) {
      ProperKeeps(c, c', i, t, said, c.drops[k]);
    }
  }

  // ---- a DROP -----------------------------------------------------------------------------

  /** One more DROP heard, and what has been said of it. */
  lemma DropHeard(c: Core, d: Drop)
    requires DropsOk(c) && DropOk(c, d)
    ensures DropsOk(c.(drops := c.drops + [d]))
  {
    var c' := c.(drops := c.drops + [d]);
    forall k | 0 <= k < |c'.drops| ensures DropOk(c', c'.drops[k]) {
      var e := c'.drops[k];
      assert DropOk(c, e);
    }
  }

  lemma SameDrops(c: Core, c': Core)
    requires DropsOk(c) && c'.slots == c.slots && c'.acts == c.acts && c'.log == c.log && c'.drops == c.drops
    ensures DropsOk(c')
  {
    forall k | 0 <= k < |c'.drops| ensures DropOk(c', c'.drops[k]) {
      assert DropOk(c, c.drops[k]);
    }
  }

  /** Slot `i` alone is in its call. */
  lemma OneSlot(c: Core, i: nat)
    requires CallsOk(c) && i < |c.slots| && InCall(c.slots[i])
    ensures c.slots[i].call < |c.log|
    ensures forall j :: 0 <= j < |c.slots| && InThisCall(c.slots[j], c.slots[i].call) ==> j == i
  {
    assert Bucketed(c.slots[i]);
    forall j | 0 <= j < |c.slots| && InThisCall(c.slots[j], c.slots[i].call) ensures j == i {
      assert Bucketed(c.slots[j]);
    }
  }

  /** A script is told that its caller has gone. */
  lemma DropInScript(cfg: Config, c: Core, i: nat)
    requires cfg.kind == Sip && CallsOk(c) && DropsOk(c) && i < |c.slots| && c.slots[i].handler == ScriptHandler
    ensures DropsOk(Disconnect(cfg, c, i))
  {
    hide CallsOk;
    var s, t := c.slots[i], Gone(Sip, c.slots[i]);
    var c1 := c.Put(i, t).(acts := c.acts + [Disconnected(s.call)]);
    LocalDrops(c, c1, i, t, [Disconnected(s.call)]);
    OneSlot(c, i);
    var d := Heard(s, |c.acts|);
    assert DropOk(c1, d) by {
      assert forall k :: d.heard <= k < |c1.acts| ==> c1.acts[k] == Disconnected(s.call);
      assert forall j :: 0 <= j < |c1.slots| && j != i ==> c1.slots[j] == c.slots[j];
    }
    DropHeard(c1, d);
  }

  /** The release handler rejects the same news. */
  lemma DropInRelease(c: Core, i: nat)
    requires CallsOk(c) && DropsOk(c) && i < |c.slots| && c.slots[i].handler == ReleaseHandler
    ensures DropsOk(c.(drops := c.drops + [Heard(c.slots[i], |c.acts|)]))
  {
    hide CallsOk;
    OneSlot(c, i);
    assert InThisCall(c.slots[i], c.slots[i].call);
    assert DropOk(c, Heard(c.slots[i], |c.acts|));
    DropHeard(c, Heard(c.slots[i], |c.acts|));
  }

  lemma ReleaseDrops(cfg: Config, c: Core, i: nat, wall: nat)
    requires cfg.kind == Sip && DropsOk(c) && i < |c.slots| && InCall(c.slots[i])
    ensures DropsOk(BeginRelease(cfg, c, i, wall))
  {
    var c' := BeginRelease(cfg, c, i, wall);
    LocalDrops(c, c', i, c'.slots[i], Farewell(c.slots[i]));
  }

  lemma HandleDrops(cfg: Config, c: Core, i: nat, id: Event, clk: Clock, scr: Script)
    requires cfg.kind == Sip && CallsOk(c) && DropsOk(c) && i < |c.slots| && c.slots[i].handler != OfflineHandler && id != SHUTDOWN
    ensures DropsOk(Handle(cfg, c, i, id, clk, scr).core)
  {
    hide CallsOk, DropsOk, BeginRelease, Disconnect;
    var s := c.slots[i];
    match s.handler {
      case ScriptHandler =>
        match id {
          case RELEASE => ReleaseDrops(cfg, c, i, clk.wall);
          case DROP => DropInScript(cfg, c, i);
          case HANGUP => LocalDrops(c, Hangup(cfg, c, i), i, HungUp(Sip, s), HangupActs(Sip, s));
          case TIMEOUT => LocalDrops(c, OnStep(cfg, c, i, clk.ms, scr), i, Stepped(cfg, s, clk.ms, scr), SteppedActs(cfg, s, scr));
          case _ =>
        }
      case ReleaseHandler =>
        if id == TIMEOUT || id == RELEASE {
          ReleaseDrops(cfg, c, i, clk.wall);
        } else if id == DROP {
          DropInRelease(c, i);
        }
      case IdleHandler =>
      case OfflineHandler =>
        assert false;
    }
  }

  /** A call that begins is none of those that have dropped. */
  lemma ClaimDrops(cfg: Config, s: System, t: nat, clk: Clock, o: Outcome)
    requires DropsOk(s.core) && Enabled(cfg, s, DoClaim(t, clk, o)) && cfg.kind == Sip
    requires s.core.free != [] ==> s.core.slots[s.core.free[0]].handler == IdleHandler && !s.core.slots[s.core.free[0]].connected
    ensures DropsOk(Claim(cfg, s, t, clk, o).core)
  {
    var c, c' := s.core, Claim(cfg, s, t, clk, o).core;
    if c.free != [] {
      var i := c.free[0];
      assert c'.slots == c.slots[i := c'.slots[i]] && c'.slots[i].call == |c.log|;
      forall k | 0 <= k < |c'.drops| ensures DropOk(c', c'.drops[k]) {
        var d := c.drops[k];
        assert DropOk(c, d);
        if d.late && d.pending && !SaidSince(c.acts, d.heard, d.call) {
          var j :| 0 <= j < |c.slots| && InThisCall(c.slots[j], d.call) && Declining(c.slots[j]);
          assert InThisCall(c'.slots[j], d.call) && Declining(c'.slots[j]);
        }
      }
    }
  }

  lemma DropsKeep(cfg: Config, s: System, step: Step)
    requires Inv(cfg, s) && DropsOk(s.core) && Enabled(cfg, s, step)
    ensures DropsOk(Next(cfg, s, step).core)
  {
    hide DropsOk, BucketsOk, CountsOk, LimitsOk, TraceOk, ActsOk, CallsOk, Handle;
    var c := s.core;
    match step
    case DoAttach(t, reg, cid) => SameDrops(c, Attach(cfg, s, t, reg, cid).core);
    case DoUndo(t, wall) => SameDrops(c, Undo(cfg, s, t, wall).core);
    case DoClaim(t, clk, o) =>
      if c.free != [] {
        assert c.free[0] in c.free && OnFree(c, c.free[0]) && SlotOk(c.slots[c.free[0]]);
      }
      ClaimDrops(cfg, s, t, clk, o);
    case DoPost(i, id, clk, scr) =>
      assert SipSlot(c.slots[i]);
      HandleDrops(cfg, c, i, id, clk, scr);
    case DoExpire(i, clk, scr) =>
      assert SipSlot(c.slots[i]) && SlotOk(c.slots[i]);
      var t := c.slots[i].(timer := None);
      var d := c.Put(i, t);
      ProperTimer(c, i);
      Keeping.QuietKeeps(cfg, s, i, t);
      HandleDrops(cfg, d, i, TIMEOUT, clk, scr);
    case DoGiveBack(i, wall) => IdleDrops(c, GiveBack(c, i, wall), i);
    case DoRelink(i) => IdleDrops(c, Relink(c, i), i);
  }

  lemma ProperTimer(c: Core, i: nat)
    requires DropsOk(c) && i < |c.slots|
    ensures DropsOk(c.Put(i, c.slots[i].(timer := None)))
  {
    var t := c.slots[i].(timer := None);
    assert c.acts + [] == c.acts;
    LocalDrops(c, c.Put(i, t), i, t, []);
  }

  lemma IdleDrops(c: Core, c': Core, i: nat)
    requires DropsOk(c) && i < |c.slots| == |c'.slots| && c'.slots == c.slots[i := c'.slots[i]] && !InCall(c.slots[i]) && !InCall(c'.slots[i])
    requires c'.acts == c.acts && c'.log == c.log && c'.drops == c.drops && c'.slots[i].call == c.slots[i].call
    ensures DropsOk(c')
  {
    assert c.acts + [] == c.acts;
    LocalDrops(c, c', i, c'.slots[i], []);
  }

  lemma {:induction false} DropsInRun(cfg: Config, s: System, steps: seq<Step>, s': System)
    requires Inv(cfg, s) && DropsOk(s.core) && Runs(cfg, s, steps, s')
    ensures DropsOk(s'.core)
    decreases |steps|
  {
    if steps != [] {
      Keeping.NextKeeps(cfg, s, steps[0]);
      DropsKeep(cfg, s, steps[0]);
      DropsInRun(cfg, Next(cfg, s, steps[0]), steps[1..], s');
    }
  }

  /** After a DROP.  In every run, once its call is over, a DROP was followed by a
      farewell to the very side that had dropped iff it met the release handler
      while a transaction was pending; and while the call lasts, only then. */
  lemma FarewellAfterDrop(cfg: Config, s: System, k: nat)
    requires Theorems.Reachable(cfg, s) && k < |s.core.drops|
    ensures var d := s.core.drops[k];
            && (SaidSince(s.core.acts, d.heard, d.call) ==> d.late && d.pending)
            && ((forall i :: 0 <= i < |s.core.slots| ==> !InThisCall(s.core.slots[i], d.call)) ==>
                  (SaidSince(s.core.acts, d.heard, d.call) <==> d.late && d.pending))
  {
    var s0, steps :| Init(cfg, s0) && Runs(cfg, s0, steps, s);
    Keeping.InitHolds(cfg, s0);
    DropsInRun(cfg, s0, steps, s);
    assert DropOk(s.core, s.core.drops[k]);
  }

  /** It does happen: an invite whose script could not start leaves a pending
      transaction in the release handler; its caller hangs up, which is rejected,
      and the release then declines the call all the same. */
  lemma DeclinedAfterDrop(cfg: Config, s0: System, tid: nat, did: int)
    requires Init(cfg, s0) && |cfg.regs| > 0 && |s0.core.slots| > 0 && |s0.invites| > 0
    ensures exists steps, s :: Runs(cfg, s0, steps, s) && s.core.drops == [Drop(0, true, true, 0)] && s.core.acts == [Declined(0)]
  {
    hide Runs, Init, Next, Enabled;
    var s2 := Theorems.FirstInvite(cfg, s0, Failed(tid, did));
    KindIsSip(cfg, s0);
    var i := |s0.core.slots| - 1;
    var rest, s4 := DropThenRelease(cfg, s2, i);
    Theorems.InviteThen(cfg, s0, Failed(tid, did), s2, rest, s4);
  }

  lemma KindIsSip(cfg: Config, s0: System)
    requires Init(cfg, s0)
    ensures cfg.kind == Sip
  {
  }

  /** A DROP and a RELEASE for a call whose transaction is pending. */
  lemma DropThenRelease(cfg: Config, s: System, i: nat) returns (steps: seq<Step>, s': System)
    requires cfg.kind == Sip && i < |s.core.slots| && s.core.acts == [] && s.core.drops == []
    requires var v := s.core.slots[i];
             v.handler == ReleaseHandler && v.tid != -1 && !v.connected && v.call == 0 && v.phase == Settled
    ensures Runs(cfg, s, steps, s') && s'.core.drops == [Drop(0, true, true, 0)] && s'.core.acts == [Declined(0)]
  {
    hide Runs;
    var clk, scr := Clock(1, 0), Script(true, false, false);
    var drop, release := DoPost(i, DROP, clk, scr), DoPost(i, RELEASE, clk, scr);
    var s1 := Next(cfg, s, drop);
    s' := Next(cfg, s1, release);
    assert s1.core.drops == [Drop(0, true, true, 0)] && s1.core.slots == s.core.slots;
    assert s'.core.acts == [] + [Declined(0)];
    Theorems.RunsNil(cfg, s');
    Theorems.RunsOn(cfg, s1, release, [], s');
    Theorems.RunsOn(cfg, s, drop, [release] + [], s');
    steps := [drop] + ([release] + []);
  }

  // ---- every call is told goodbye ------------------------------------------------------------

  /** Answered, or its transaction still pending. */
  ghost predicate Standing(s: Slot) { InCall(s) && (s.connected || s.tid != -1) }

  /** This step lets the script of slot `i` pick up. */
  predicate Answers(s: Slot, i: nat, step: Step) {
    && s.handler == ScriptHandler
    && match step
       case DoPost(j, id, _, scr) => j == i && id == TIMEOUT && scr.answers
       case DoExpire(j, _, scr) => j == i && scr.answers
       case _ => false
  }

  predicate Drops(i: nat, step: Step) { step.DoPost? && step.i == i && step.id == DROP }

  /** The last word on the call in slot `i`, should this step end its standing: the
      caller has gone, or it is hung up on if it had been answered, or else declined. */
  function LastWord(s: Slot, i: nat, step: Step): Act {
    if Drops(i, step) then Disconnected(s.call)
    else if s.connected || Answers(s, i, step) then Terminated(s.call)
    else Declined(s.call)
  }

  /** What a step makes of a standing call in slot `i`. */
  ghost predicate ToldOrStanding(c: Core, c': Core, i: nat, step: Step)
    requires i < |c.slots| == |c'.slots|
  {
    var v, t := c.slots[i], c'.slots[i];
    if Standing(t) then
      && t.call == v.call && t.tid == v.tid && (t.connected <==> v.connected || Answers(v, i, step))
      && (c'.acts == c.acts || exists a :: c'.acts == c.acts + [a] && a.call != v.call)
    else c'.acts == c.acts + [LastWord(v, i, step)]
  }

  lemma HandleTells(cfg: Config, c: Core, i: nat, id: Event, clk: Clock, scr: Script)
    requires cfg.kind == Sip && i < |c.slots| && Standing(c.slots[i]) && id != SHUTDOWN
    requires c.slots[i].handler == ReleaseHandler ==> !c.slots[i].connected
    ensures ToldOrStanding(c, Handle(cfg, c, i, id, clk, scr).core, i, DoPost(i, id, clk, scr))
  {
    assert c.acts + [] == c.acts;
  }

  /** Whoever else speaks speaks of another call. */
  lemma OthersSpeak(cfg: Config, c: Core, i: nat, j: nat, id: Event, clk: Clock, scr: Script)
    requires cfg.kind == Sip && i < |c.slots| && j < |c.slots| && i != j && id != SHUTDOWN && c.slots[i].handler != OfflineHandler
    requires Standing(c.slots[j]) && (InCall(c.slots[i]) ==> c.slots[i].call != c.slots[j].call)
    ensures ToldOrStanding(c, Handle(cfg, c, i, id, clk, scr).core, j, DoPost(i, id, clk, scr))
  {
    Keeping.TouchesOnly(cfg, c, i, id, clk, scr, j);
    assert c.acts + [] == c.acts;
    var acts := Handle(cfg, c, i, id, clk, scr).core.acts;
    if acts != c.acts {
      assert acts == c.acts + [acts[|c.acts|]];
    }
  }

  lemma ReachableDrops(cfg: Config, s: System)
    requires Theorems.Reachable(cfg, s)
    ensures Inv(cfg, s) && DropsOk(s.core)
  {
    var s0, steps :| Init(cfg, s0) && Runs(cfg, s0, steps, s);
    Keeping.InitHolds(cfg, s0);
    DropsInRun(cfg, s0, steps, s);
    Theorems.ReachableIsSafe(cfg, s);
  }

  lemma OwnCalls(c: Core, i: nat, j: nat)
    requires CallsOk(c) && i < |c.slots| && j < |c.slots| && i != j && InCall(c.slots[j])
    ensures InCall(c.slots[i]) ==> c.slots[i].call != c.slots[j].call
  {
    OneSlot(c, j);
  }

  lemma EventTells(cfg: Config, c: Core, i: nat, j: nat, id: Event, clk: Clock, scr: Script)
    requires cfg.kind == Sip && CallsOk(c) && DropsOk(c) && i < |c.slots| && j < |c.slots|
    requires id != SHUTDOWN && c.slots[i].handler != OfflineHandler && Standing(c.slots[j])
    ensures ToldOrStanding(c, Handle(cfg, c, i, id, clk, scr).core, j, DoPost(i, id, clk, scr))
  {
    hide DropOk, CallsOk, Handle;
    if i == j {
      HandleTells(cfg, c, i, id, clk, scr);
    } else {
      OwnCalls(c, i, j);
      OthersSpeak(cfg, c, i, j, id, clk, scr);
    }
  }

  lemma ExpireTells(cfg: Config, c: Core, i: nat, j: nat, clk: Clock, scr: Script)
    requires cfg.kind == Sip && i < |c.slots| && j < |c.slots| && DropsOk(c) && CallsOk(c.Put(i, c.slots[i].(timer := None)))
    requires c.slots[i].handler != OfflineHandler && Standing(c.slots[j])
    ensures ToldOrStanding(c, Expire(cfg, c, i, clk, scr).core, j, DoExpire(i, clk, scr))
  {
    hide DropsOk, CallsOk, Handle;
    var d := c.Put(i, c.slots[i].(timer := None));
    ProperTimer(c, i);
    EventTells(cfg, d, i, j, TIMEOUT, clk, scr);
  }

  /** No call goes without a word.  In every reachable state a step leaves an answered
      or pending call as it was, or it ends that and says the call's last word, once. */
  lemma StepTells(cfg: Config, s: System, step: Step, i: nat)
    requires Theorems.Reachable(cfg, s) && Enabled(cfg, s, step) && i < |s.core.slots| && Standing(s.core.slots[i])
    ensures |Next(cfg, s, step).core.slots| == |s.core.slots|
    ensures ToldOrStanding(s.core, Next(cfg, s, step).core, i, step)
  {
    hide DropsOk, BucketsOk, CountsOk, LimitsOk, TraceOk, ActsOk, CallsOk, Handle, Expire, Theorems.Reachable;
    ReachableDrops(cfg, s);
    var c := s.core;
    assert SlotOk(c.slots[i]);
    match step
    case DoPost(k, id, clk, scr) =>
      assert SipSlot(c.slots[k]);
      EventTells(cfg, c, k, i, id, clk, scr);
    case DoExpire(k, clk, scr) =>
      assert SipSlot(c.slots[k]) && SlotOk(c.slots[k]);
      Keeping.QuietKeeps(cfg, s, k, c.slots[k].(timer := None));
      ExpireTells(cfg, c, k, i, clk, scr);
    case DoClaim(t, clk, o) =>
      if c.free != [] {
        assert c.free[0] in c.free && OnFree(c, c.free[0]);
      }
    case DoGiveBack(k, _) => assert SlotOk(c.slots[k]);
    case DoRelink(k) => assert SlotOk(c.slots[k]);
    case _ =>
  }

  /** Nothing else is ever said: a step says nothing, or the last word on a call that
      is live before it and not after it. */
  lemma OnlyLastWords(cfg: Config, s: System, step: Step)
    requires Theorems.Reachable(cfg, s) && Enabled(cfg, s, step)
    ensures var c, c' := s.core, Next(cfg, s, step).core;
            c'.acts == c.acts || exists i :: 0 <= i < |c.slots| && EndsLife(c, c', i, step)
  {
    hide BucketsOk, CountsOk, LimitsOk, TraceOk, ActsOk, CallsOk, Handle, Theorems.Reachable;
    Theorems.ReachableIsSafe(cfg, s);
    var c := s.core;
    match step
    case DoPost(i, id, clk, scr) =>
      assert SipSlot(c.slots[i]);
      SaysLast(cfg, c, i, id, clk, scr);
    case DoExpire(i, clk, scr) =>
      var d := c.Put(i, c.slots[i].(timer := None));
      assert SipSlot(c.slots[i]);
      SaysLast(cfg, d, i, TIMEOUT, clk, scr);
      if Expire(cfg, c, i, clk, scr).core.acts != c.acts {
        assert EndsLife(c, Expire(cfg, c, i, clk, scr).core, i, step);
      }
    case _ =>
  }

  ghost predicate EndsLife(c: Core, c': Core, i: nat, step: Step)
    requires i < |c.slots|
  {
    && InCall(c.slots[i]) && Live(c.slots[i]) && |c'.slots| == |c.slots| && !Live(c'.slots[i])
    && c'.acts == c.acts + [LastWord(c.slots[i], i, step)]
  }

  lemma SaysLast(cfg: Config, c: Core, i: nat, id: Event, clk: Clock, scr: Script)
    requires cfg.kind == Sip && i < |c.slots| && c.slots[i].handler != OfflineHandler && id != SHUTDOWN
    ensures var c' := Handle(cfg, c, i, id, clk, scr).core;
            c'.acts == c.acts || EndsLife(c, c', i, DoPost(i, id, clk, scr))
  {
    assert c.acts + [] == c.acts;
  }

  // ---- over whole runs ----------------------------------------------------------------------------

  /** `a` is the last word on the call that slot `i` is in when the run starts. */
  ghost predicate Hears(cfg: Config, s: System, steps: seq<Step>, i: nat, a: Act)
    decreases |steps|
  {
    && steps != [] && Enabled(cfg, s, steps[0])
    && var s' := Next(cfg, s, steps[0]);
       && i < |s.core.slots| == |s'.core.slots|
       && if Standing(s'.core.slots[i]) then Hears(cfg, s', steps[1..], i, a) else a == LastWord(s.core.slots[i], i, steps[0])
  }

  ghost predicate SomeDrop(steps: seq<Step>, i: nat) { exists n :: 0 <= n < |steps| && Drops(i, steps[n]) }

  /** A step of the script of slot `i` that picks up, should it run. */
  predicate PicksUp(step: Step, i: nat) {
    match step
    case DoPost(j, id, _, scr) => j == i && id == TIMEOUT && scr.answers
    case DoExpire(j, _, scr) => j == i && scr.answers
    case _ => false
  }

  ghost predicate SomeAnswer(steps: seq<Step>, i: nat) { exists n :: 0 <= n < |steps| && PicksUp(steps[n], i) }

  /** An answered call is terminated, and a pending one declined unless it is answered
      before; only after a DROP can it be otherwise. */
  ghost predicate RightKind(v: Slot, steps: seq<Step>, i: nat, a: Act) {
    && a.call == v.call
    && (a.Disconnected? ==> SomeDrop(steps, i))
    && (v.connected ==> !a.Declined?)
    && (a.Terminated? ==> v.connected || SomeAnswer(steps, i))
  }

  lemma RightKindOn(v: Slot, t: Slot, steps: seq<Step>, i: nat, a: Act)
    requires steps != [] && RightKind(t, steps[1..], i, a)
    requires t.call == v.call && (t.connected <==> v.connected || Answers(v, i, steps[0]))
    ensures RightKind(v, steps, i, a)
  {
    assert forall n :: 0 <= n < |steps| - 1 ==> steps[1..][n] == steps[n + 1];
    if SomeDrop(steps[1..], i) {
      var n :| 0 <= n < |steps| - 1 && Drops(i, steps[1..][n]);
      assert Drops(i, steps[n + 1]);
    }
    if SomeAnswer(steps[1..], i) {
      var n :| 0 <= n < |steps| - 1 && PicksUp(steps[1..][n], i);
      assert PicksUp(steps[n + 1], i);
    }
    assert Answers(v, i, steps[0]) ==> PicksUp(steps[0], i);
  }

  lemma LastWordKind(v: Slot, steps: seq<Step>, i: nat)
    requires steps != []
    ensures RightKind(v, steps, i, LastWord(v, i, steps[0]))
  {
    assert Drops(i, steps[0]) ==> SomeDrop(steps, i);
    assert Answers(v, i, steps[0]) ==> PicksUp(steps[0], i);
  }

  lemma {:induction false} ActsGrow(cfg: Config, s: System, steps: seq<Step>, s': System)
    requires Theorems.Reachable(cfg, s) && Runs(cfg, s, steps, s')
    ensures s.core.acts <= s'.core.acts
    decreases |steps|
  {
    hide Theorems.Reachable, Next, EndsLife;
    if steps != [] {
      var t := Next(cfg, s, steps[0]);
      Theorems.NextReachable(cfg, s, steps[0]);
      OnlyLastWords(cfg, s, steps[0]);
      GrowsByOne(s.core, t.core, steps[0]);
      ActsGrow(cfg, t, steps[1..], s');
    }
  }

  lemma GrowsByOne(c: Core, c': Core, step: Step)
    requires c'.acts == c.acts || exists i :: 0 <= i < |c.slots| && EndsLife(c, c', i, step)
    ensures c.acts <= c'.acts
  {
  }

  /** This call heard its one word, and it was `acts[k]`. */
  ghost predicate OnlyWord(acts: seq<Act>, k: nat, call: nat) {
    k < |acts| && acts[k].call == call && forall j :: 0 <= j < |acts| && j != k ==> acts[j].call != call
  }

  /** In every run an answered or pending call either is so still at its end, or has
      heard one last word, of the right kind. */
  lemma {:induction false} ToldInRun(cfg: Config, s: System, steps: seq<Step>, s': System, i: nat) returns (k: nat)
    requires Theorems.Reachable(cfg, s) && Runs(cfg, s, steps, s') && i < |s.core.slots| && Standing(s.core.slots[i])
    requires i < |s'.core.slots| ==> !(Standing(s'.core.slots[i]) && s'.core.slots[i].call == s.core.slots[i].call)
    ensures OnlyWord(s'.core.acts, k, s.core.slots[i].call) && |s.core.acts| <= k
    ensures Hears(cfg, s, steps, i, s'.core.acts[k]) && RightKind(s.core.slots[i], steps, i, s'.core.acts[k])
    decreases |steps|
  {
    hide Theorems.Reachable, Next, Standing, RightKind, LastWord;
    var v, t := s.core.slots[i], Next(cfg, s, steps[0]);
    StepTells(cfg, s, steps[0], i);
    Theorems.NextReachable(cfg, s, steps[0]);
    if Standing(t.core.slots[i]) {
      k := ToldInRun(cfg, t, steps[1..], s', i);
      RightKindOn(v, t.core.slots[i], steps, i, s'.core.acts[k]);
    } else {
      k := |s.core.acts|;
      ActsGrow(cfg, t, steps[1..], s');
      assert s'.core.acts[k] == t.core.acts[k] == LastWord(v, i, steps[0]);
      LastWordKind(v, steps, i);
      RunReachable(cfg, t, steps[1..], s');
      Theorems.OneTeardown(cfg, s');
      WordOfCall(v, i, steps[0]);
    }
  }

  lemma WordOfCall(v: Slot, i: nat, step: Step)
    ensures LastWord(v, i, step).call == v.call
  {
  }

  lemma {:induction false} RunReachable(cfg: Config, s: System, steps: seq<Step>, s': System)
    requires Theorems.Reachable(cfg, s) && Runs(cfg, s, steps, s')
    ensures Theorems.Reachable(cfg, s')
    decreases |steps|
  {
    hide Theorems.Reachable, Next;
    if steps != [] {
      Theorems.NextReachable(cfg, s, steps[0]);
      RunReachable(cfg, Next(cfg, s, steps[0]), steps[1..], s');
    }
  }
}
