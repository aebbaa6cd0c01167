/** What comes of each event, and of an invite that is served, in every reachable
    state: told by the call, its slot and what is said and recorded of it. */
module Events {
  import opened Common
  import opened Stats
  import opened Calls
  import opened Exchange
  import Keeping
  import Releases
  import CallRecords
  import opened Theorems

  /** Nothing but slot `i`, the log, the acts and the drops may differ. */
  ghost predicate OnlySlot(s: System, s': System, i: nat) {
    && i < |s.core.slots| == |s'.core.slots| && s'.invites == s.invites
    && (forall j :: 0 <= j < |s.core.slots| && j != i ==> s'.core.slots[j] == s.core.slots[j])
    && s'.core.free == s.core.free && s'.core.buckets == s.core.buckets && s'.core.nodes == s.core.nodes
  }

  // ---- RELEASE ----------------------------------------------------------------------------

  /** RELEASE ends a call in whichever handler it meets it, and so does TIMEOUT in the
      release handler: its release begins, and one STOP is posted for it. */
  lemma ReleaseEndsCall(cfg: Config, s: System, i: nat, step: Step, clk: Clock, scr: Script)
    requires Reachable(cfg, s) && Enabled(cfg, s, step) && i < |s.core.slots|
    requires || (step == DoPost(i, RELEASE, clk, scr) && InCall(s.core.slots[i]))
             || ((step == DoPost(i, TIMEOUT, clk, scr) || step == DoExpire(i, clk, scr)) && s.core.slots[i].handler == ReleaseHandler)
    ensures var s', v := Next(cfg, s, step), s.core.slots[i];
            && OnlySlot(s, s', i) && Releases.Begun(cfg, v, s'.core.slots[i])
            && s'.core.slots[i] == v.(handler := IdleHandler, started := 0, connected := false, tid := -1, timer := None,
                                      phase := s'.core.slots[i].phase)
            && (exists r :: s'.core.log == s.core.log + [r] && CallRecords.EndsCall(s.core, i, r, clk.wall))
            && s'.core.drops == s.core.drops
  {
    hide Reachable, Inv, BeginRelease;
    SipDriver(cfg, s, i);
    var c := s.core;
    if step.DoPost? {
      FirstSection(cfg, c, i, clk.wall);
      assert Next(cfg, s, step).core == BeginRelease(cfg, c, i, clk.wall);
    } else {
      var d := c.Put(i, c.slots[i].(timer := None));
      FirstSection(cfg, d, i, clk.wall);
      assert Next(cfg, s, step).core == BeginRelease(cfg, d, i, clk.wall);
      assert Owed(cfg, d.slots[i]) == Owed(cfg, c.slots[i]);
    }
  }

  lemma SipDriver(cfg: Config, s: System, i: nat)
    requires Reachable(cfg, s) && i < |s.core.slots|
    ensures cfg.kind == Sip && s.core.slots[i].handler != OfflineHandler && (InCall(s.core.slots[i]) ==> s.core.slots[i].phase == Settled)
  {
    ReachableIsSafe(cfg, s);
    assert SipSlot(s.core.slots[i]) && SlotOk(s.core.slots[i]);
  }

  lemma FirstSection(cfg: Config, c: Core, i: nat, wall: nat)
    requires cfg.kind == Sip && i < |c.slots| && InCall(c.slots[i])
    ensures var c', v := BeginRelease(cfg, c, i, wall), c.slots[i];
            && c' == c.(slots := c.slots[i := v.(handler := IdleHandler, started := 0, connected := false, tid := -1, timer := None,
                                                 phase := GivingBack(PathOf(v.cid), Owed(cfg, v)))],
                        log := c'.log, acts := c'.acts)
            && exists r :: c'.log == c.log + [r] && CallRecords.EndsCall(c, i, r, wall)
  {
    var v := c.slots[i];
    CallRecords.ElapsedSince(v.started, wall);
    assert CallRecords.EndsCall(c, i, StopRecord(v, i, wall), wall);
  }

  // ---- HANGUP, DROP and the end of a script --------------------------------------------------

  /** The script is over, the call waits for its release, and nothing times it. */
  ghost predicate Over(v: Slot, t: Slot) {
    t == v.(handler := ReleaseHandler, connected := false, tid := -1, did := t.did, timer := None)
  }

  lemma HangupEndsScript(cfg: Config, s: System, i: nat, clk: Clock, scr: Script)
    requires Reachable(cfg, s) && Enabled(cfg, s, DoPost(i, HANGUP, clk, scr)) && s.core.slots[i].handler == ScriptHandler
    ensures var s' := Next(cfg, s, DoPost(i, HANGUP, clk, scr));
            && OnlySlot(s, s', i) && Over(s.core.slots[i], s'.core.slots[i]) && s'.core.slots[i].did == s.core.slots[i].did
            && s'.core.log == s.core.log && s'.core.drops == s.core.drops
  {
    ReachableIsSafe(cfg, s);
  }

  /** A script hears that its caller has gone and ends; the dialogue is forgotten. */
  lemma DropEndsScript(cfg: Config, s: System, i: nat, clk: Clock, scr: Script)
    requires Reachable(cfg, s) && Enabled(cfg, s, DoPost(i, DROP, clk, scr)) && s.core.slots[i].handler == ScriptHandler
    ensures var s', v := Next(cfg, s, DoPost(i, DROP, clk, scr)), s.core.slots[i];
            && OnlySlot(s, s', i) && Over(v, s'.core.slots[i]) && s'.core.slots[i].did == -1 && s'.core.log == s.core.log
            && s'.core.acts == s.core.acts + [Disconnected(v.call)]
            && s'.core.drops == s.core.drops + [Drop(v.call, false, false, |s.core.acts|)]
  {
    ReachableIsSafe(cfg, s);
  }

  /** The release handler takes no notice of it. */
  lemma DropInRelease(cfg: Config, s: System, i: nat, clk: Clock, scr: Script)
    requires Reachable(cfg, s) && Enabled(cfg, s, DoPost(i, DROP, clk, scr)) && s.core.slots[i].handler == ReleaseHandler
    ensures var s', v := Next(cfg, s, DoPost(i, DROP, clk, scr)), s.core.slots[i];
            s' == s.(core := s.core.(drops := s.core.drops + [Drop(v.call, true, v.tid != -1, |s.core.acts|)]))
  {
    ReachableIsSafe(cfg, s);
  }

  /** TIMEOUT steps the script, whether its timer sent it or not: it goes on with
      a new deadline, having picked up if it does so, or it ends. */
  lemma TimeoutStepsScript(cfg: Config, s: System, i: nat, step: Step, clk: Clock, scr: Script)
    requires Reachable(cfg, s) && Enabled(cfg, s, step) && (step == DoPost(i, TIMEOUT, clk, scr) || step == DoExpire(i, clk, scr))
    requires s.core.slots[i].handler == ScriptHandler
    ensures var s', v := Next(cfg, s, step), s.core.slots[i];
            && OnlySlot(s, s', i) && s'.core.log == s.core.log && s'.core.drops == s.core.drops
            && if scr.ok && !scr.hangs then
                 s'.core.slots[i] == v.(timer := Some(clk.ms + cfg.stepping), connected := v.connected || scr.answers) && s'.core.acts == s.core.acts
               else Over(v, s'.core.slots[i]) && s'.core.slots[i].did == v.did
  {
    ReachableIsSafe(cfg, s);
    assert s.core.acts + [] == s.core.acts;
  }

  /** Events that a slot turns down, of either kind. */
  predicate Deaf(kind: Kind, handler: Handler, id: Event) {
    || id == REJECT
    || (id == DISABLE && (kind == Sip || handler == OfflineHandler))
    || match handler
       case IdleHandler => id != DISABLE && id != SHUTDOWN
       case ScriptHandler => id == ENABLE || id == SHUTDOWN
       case ReleaseHandler => id == ENABLE || id == HANGUP || id == DROP
       case OfflineHandler => id != ENABLE && id != SHUTDOWN
  }

  /** An event is rejected iff the slot is deaf to it, in every state.  It then changes
      nothing, except that a DROP has been heard. */
  lemma RejectedIffDeaf(cfg: Config, c: Core, i: nat, id: Event, clk: Clock, scr: Script)
    requires i < |c.slots|
    ensures var h := Handle(cfg, c, i, id, clk, scr);
            && (h.id == REJECT <==> Deaf(cfg.kind, c.slots[i].handler, id))
            && (h.id == REJECT ==> h.core == c.(drops := h.core.drops) && h.unlocked == 0)
  {
    hide Disable, BeginRelease, Disconnect, Hangup, OnStep, Enable;
  }

  /** The script of a slot of the base class: HANGUP, DROP and the interpreter's own end
      leave its call to wait for its release, and nothing is said to anybody. */
  lemma BaseScriptEnds(cfg: Config, c: Core, i: nat, id: Event, clk: Clock, scr: Script)
    requires cfg.kind == Base && i < |c.slots| && c.slots[i].phase == Settled && c.slots[i].handler == ScriptHandler
    requires id == DROP || id == HANGUP || id == TIMEOUT
    ensures var h, v := Post(cfg, c, i, id, clk, scr), c.slots[i];
            && h.id == id && h.core.acts == c.acts && h.core == c.(slots := c.slots[i := h.core.slots[i]], drops := h.core.drops)
            && h.core.slots[i] ==
               if id == TIMEOUT && scr.ok && !scr.hangs then
                 v.(timer := Some(clk.ms + cfg.stepping), connected := v.connected || scr.answers)
               else v.(handler := ReleaseHandler, connected := false)
  {
    assert c.acts + [] == c.acts;
  }

  /** SHUTDOWN leaves a slot idle, on whichever list it is on; a script goes on. */
  lemma ShutdownIdles(cfg: Config, c: Core, i: nat, clk: Clock, scr: Script)
    requires i < |c.slots| && c.slots[i].phase == Settled && c.slots[i].handler != ScriptHandler
    ensures var h, v := Post(cfg, c, i, SHUTDOWN, clk, scr), c.slots[i];
            && h.id == SHUTDOWN && h.unlocked == 0
            && h.core == c.(slots := c.slots[i := v.(handler := IdleHandler, started := 0, connected := false, timer := None)])
  {
  }

  // ---- an invite that is served ----------------------------------------------------------------

  /** How long a call has before something is done about it: its script's first step,
      or the ring time of an invite that has no script.  A challenged one has no end. */
  function FirstTimer(cfg: Config, o: Outcome, ms: nat): Option<nat> {
    match o
    case Challenged => None
    case Failed(_, _) => Some(ms + 16000)
    case Attached(_, _) => Some(ms + cfg.stepping)
  }

  /** With a slot free, the call of an invite goes to the first of them and is found
      under its cid at once; it is in its script iff that could be attached.  With
      none free the invite waits for its undo, and nothing else happens. */
  lemma ServedInvite(cfg: Config, s: System, t: nat, clk: Clock, o: Outcome)
    requires Reachable(cfg, s) && Enabled(cfg, s, DoClaim(t, clk, o))
    ensures s.core.free == [] ==> Next(cfg, s, DoClaim(t, clk, o)) == s.(invites := s.invites[t := Refused(s.invites[t].reg)])
    ensures s.core.free != [] ==>
              var s', i, cid := Next(cfg, s, DoClaim(t, clk, o)), s.core.free[0], s.invites[t].cid;
              && i < |s.core.slots| && |s'.core.slots| == |s.core.slots|
              && s'.invites == s.invites[t := Ready] && s'.core.free == s.core.free[1..]
              && s'.core.acts == s.core.acts && s'.core.drops == s.core.drops
              && var v := s'.core.slots[i];
                 && v.cid == cid && v.call == |s.core.log| && v.entry == INCOMING && v.registry == Some(s.invites[t].reg)
                 && v.started == clk.wall && !v.connected
                 && v.handler == (if o.Attached? then ScriptHandler else ReleaseHandler)
                 && v.timer == FirstTimer(cfg, o, clk.ms)
                 && (if o.Challenged? then v.tid == -1 && v.did == -1 else v.tid == o.tid && v.did == o.did)
                 && InRange(s'.core) && Get(s'.core, cid) == Some(i)
  {
    hide Reachable, Inv, Claim, BucketsOk, Bucketed;
    if s.core.free != [] {
      ReachableIsSafe(cfg, s);
      ServedSlot(cfg, s, t, clk, o);
      NextReachable(cfg, s, DoClaim(t, clk, o));
      FoundAtOnce(cfg, Next(cfg, s, DoClaim(t, clk, o)), s.invites[t].cid, s.core.free[0]);
    } else {
      Unserved(cfg, s, t, clk, o);
    }
  }

  lemma Unserved(cfg: Config, s: System, t: nat, clk: Clock, o: Outcome)
    requires Enabled(cfg, s, DoClaim(t, clk, o)) && s.core.free == []
    ensures Claim(cfg, s, t, clk, o) == s.(invites := s.invites[t := Refused(s.invites[t].reg)])
  {
  }

  lemma ServedSlot(cfg: Config, s: System, t: nat, clk: Clock, o: Outcome)
    requires Inv(cfg, s) && Enabled(cfg, s, DoClaim(t, clk, o)) && s.core.free != []
    ensures var s', i, cid := Claim(cfg, s, t, clk, o), s.core.free[0], s.invites[t].cid;
            && i < |s.core.slots| && |s'.core.slots| == |s.core.slots|
            && s'.invites == s.invites[t := Ready] && s'.core.free == s.core.free[1..]
            && s'.core.acts == s.core.acts && s'.core.drops == s.core.drops && |s'.core.log| == |s.core.log| + 1
            && var v := s'.core.slots[i];
               && v.cid == cid && v.call == |s.core.log| && v.entry == INCOMING && v.registry == Some(s.invites[t].reg)
               && v.started == clk.wall > 0 && !v.connected
               && v.handler == (if o.Attached? then ScriptHandler else ReleaseHandler)
               && v.timer == FirstTimer(cfg, o, clk.ms)
               && (if o.Challenged? then v.tid == -1 && v.did == -1 else v.tid == o.tid && v.did == o.did)
  {
    hide BucketsOk, CallsOk, CountsOk, LimitsOk, TraceOk, ActsOk;
    var i := s.core.free[0];
    assert i in s.core.free && OnFree(s.core, i) && SlotOk(s.core.slots[i]);
  }

  /** The latest call of all is the newest under its cid. */
  lemma FoundAtOnce(cfg: Config, s: System, cid: nat, i: nat)
    requires Reachable(cfg, s) && i < |s.core.slots| && InCall(s.core.slots[i])
    requires s.core.slots[i].cid == cid && s.core.slots[i].call + 1 == |s.core.log|
    ensures InRange(s.core) && Get(s.core, cid) == Some(i)
  {
    ReachableIsSafe(cfg, s);
    IndexAgrees(cfg, s, cid);
    assert Newest(s.core, cid, i);
  }
}
