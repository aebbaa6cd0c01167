/** What the statistics of a node say of a run of the exchange.  A step uses a
    node at most once; module Stats says what a history of such uses leaves. */
module Histories {
  import opened Common
  import opened Stats
  import opened Calls
  import opened Exchange
  import Keeping
  import Theorems
  import Admission
  import Limits

  /** How a step uses node `n`: an invite that is admitted and a call that gets a
      slot come to it, an undo and a release that gives back leave it. */
  function Uses(cfg: Config, s: System, step: Step, n: nat): seq<Use>
    requires Enabled(cfg, s, step)
  {
    match step
    case DoAttach(t, reg, cid) =>
      if cfg.regs[reg].node == Some(n) && Admission.Granted(Next(cfg, s, step), t, reg, cid) then [Enter(INCOMING)] else []
    case DoClaim(_, _, _) => if n == 0 && s.core.free != [] then [Enter(INCOMING)] else []
    case DoUndo(t, wall) => if RegNode(cfg, Some(s.invites[t].reg)) == Some(n) then [Leave(INCOMING, wall)] else []
    case DoGiveBack(i, wall) =>
      var v := s.core.slots[i];
      if v.phase.owed != [] && v.phase.owed[0] == n then [Leave(v.entry, wall)] else []
    case _ => []
  }

  /** All uses of node `n` in a run. */
  function Trace(cfg: Config, s: System, steps: seq<Step>, n: nat): seq<Use>
    decreases |steps|
  {
    if steps == [] || !Enabled(cfg, s, steps[0]) then []
    else Uses(cfg, s, steps[0], n) + Trace(cfg, Next(cfg, s, steps[0]), steps[1..], n)
  }

  function Used(n: Node, u: seq<Use>): Node {
    if u == [] then n else
      match u[0]
      case Enter(e) => Updated(n, e)
      case Leave(e, now) => Released(n, e, now)
      case Turn => Rolled(n)
  }

  function Change(u: seq<Use>, e: Entry): int {
    if u == [Enter(e)] then 1 else if u != [] && u[0].Leave? && u[0].entry == e then -1 else 0
  }

  /** At no moment of the history are there more calls than this in one direction. */
  ghost predicate Within(h: seq<Use>, most: nat) {
    forall k, e: Entry :: 0 <= k <= |h| ==> Stats.Calls(Seen(h[..k], e), |Seen(h[..k], e)|) <= most
  }

  /** Node `n` is what this history leaves, and the history knows of just the calls
      that are there. */
  ghost predicate Tells(cfg: Config, s: System, n: nat, h: seq<Use>) {
    && n < |s.core.nodes| && s.core.nodes[n] == NodeAfter(h)
    && Orderly(h) && Within(h, |s.core.slots| + |s.invites|)
    && forall e: Entry :: Stats.Calls(Seen(h, e), |Seen(h, e)|) == Theorems.InUse(cfg, s, n, e)
  }

  // ---- one step ----------------------------------------------------------------------

  lemma ClaimFlow(cfg: Config, s: System, t: nat, clk: Clock, o: Outcome, n: nat)
    requires Inv(cfg, s) && Enabled(cfg, s, DoClaim(t, clk, o)) && n < |s.core.nodes|
    ensures var s', u := Claim(cfg, s, t, clk, o), Uses(cfg, s, DoClaim(t, clk, o), n);
            && |s'.core.nodes| == |s.core.nodes| && s'.core.nodes[n] == Used(s.core.nodes[n], u)
            && forall e: Entry :: Total(cfg, s', n, e) == Total(cfg, s, n, e) + Change(u, e)
  {
    hide FreeOk, BucketsOk, CallsOk, TraceOk, ActsOk, SlotsOk;
    var c := s.core;
    var Reserved(reg, cid) := s.invites[t];
    if c.free == [] {
      Keeping.HoldChange(cfg, s, Claim(cfg, s, t, clk, o), t, Refused(reg));
    } else {
      var i := c.free[0];
      FirstIsFree(c);
      var a := System(Allocate(cfg, c, i, cid, INCOMING, Some(reg), clk.wall), s.invites[t := Ready]);
      Keeping.AllocateCounts(cfg, s, a, t, clk.wall);
      var v := Incoming(cfg, a.core.slots[i], o, clk.ms);
      assert Seats(a.core.slots[i]) == [0] && [0][1..] == [];
      assert a.core.nodes == Account(c.nodes, 0, INCOMING);
      forall e: Entry ensures Total(cfg, Claim(cfg, s, t, clk, o), n, e) == Total(cfg, a, n, e) {
        Keeping.SlotSumPut(cfg, a.core.slots, i, v, |a.core.slots|, n, e);
      }
    }
  }

  lemma FirstIsFree(c: Core)
    requires FreeOk(c) && c.free != []
    ensures OnFree(c, c.free[0])
  {
    assert c.free[0] in c.free;
  }

  lemma AttachFlow(cfg: Config, s: System, t: nat, reg: nat, cid: nat, n: nat)
    requires Enabled(cfg, s, DoAttach(t, reg, cid)) && n < |s.core.nodes|
    ensures var s', u := Attach(cfg, s, t, reg, cid), Uses(cfg, s, DoAttach(t, reg, cid), n);
            && |s'.core.nodes| == |s.core.nodes| && s'.core.nodes[n] == Used(s.core.nodes[n], u)
            && forall e: Entry :: Total(cfg, s', n, e) == Total(cfg, s, n, e) + Change(u, e)
  {
    var s' := Attach(cfg, s, t, reg, cid);
    Keeping.HoldChange(cfg, s, s', t, s'.invites[t]);
  }

  lemma UndoFlow(cfg: Config, s: System, t: nat, wall: nat, n: nat)
    requires Enabled(cfg, s, DoUndo(t, wall)) && n < |s.core.nodes|
    ensures var s', u := Undo(cfg, s, t, wall), Uses(cfg, s, DoUndo(t, wall), n);
            && |s'.core.nodes| == |s.core.nodes| && s'.core.nodes[n] == Used(s.core.nodes[n], u)
            && forall e: Entry :: Total(cfg, s', n, e) == Total(cfg, s, n, e) + Change(u, e)
  {
    Keeping.HoldChange(cfg, s, Undo(cfg, s, t, wall), t, Ready);
  }

  lemma GiveBackFlow(cfg: Config, s: System, i: nat, wall: nat, n: nat)
    requires Enabled(cfg, s, DoGiveBack(i, wall)) && !InCall(s.core.slots[i]) && n < |s.core.nodes|
    ensures var s', u := s.(core := GiveBack(s.core, i, wall)), Uses(cfg, s, DoGiveBack(i, wall), n);
            && |s'.core.nodes| == |s.core.nodes| && s'.core.nodes[n] == Used(s.core.nodes[n], u)
            && forall e: Entry :: Total(cfg, s', n, e) == Total(cfg, s, n, e) + Change(u, e)
  {
    var c, c' := s.core, GiveBack(s.core, i, wall);
    forall e: Entry {
      Keeping.SlotSumPut(cfg, c.slots, i, c'.slots[i], |c.slots|, n, e);
    }
  }

  /** Events and relinking use no node and move no charge. */
  lemma QuietFlow(cfg: Config, s: System, i: nat, t: Slot, s': System, n: nat)
    requires i < |s.core.slots| && s'.core.slots == s.core.slots[i := t] && s'.core.nodes == s.core.nodes && s'.invites == s.invites
    requires forall e: Entry :: Charge(cfg, t, n, e) == Charge(cfg, s.core.slots[i], n, e)
    ensures forall e: Entry :: Total(cfg, s', n, e) == Total(cfg, s, n, e)
  {
    forall e: Entry ensures Total(cfg, s', n, e) == Total(cfg, s, n, e) {
      Keeping.SlotSumPut(cfg, s.core.slots, i, t, |s.core.slots|, n, e);
    }
  }

  /** What an event may do to the charges of its slot: nothing. */
  lemma HandleCharges(cfg: Config, c: Core, i: nat, id: Event, clk: Clock, scr: Script)
    requires cfg.kind == Sip && i < |c.slots| && c.slots[i].handler != OfflineHandler && id != SHUTDOWN && SlotOk(c.slots[i])
    ensures var c' := Handle(cfg, c, i, id, clk, scr).core;
            && c'.slots == c.slots[i := c'.slots[i]] && c'.nodes == c.nodes
            && forall n: nat, e: Entry :: Charge(cfg, c'.slots[i], n, e) == Charge(cfg, c.slots[i], n, e)
  {
  }

  lemma StepFlow(cfg: Config, s: System, step: Step, n: nat)
    requires Inv(cfg, s) && Enabled(cfg, s, step) && n < |s.core.nodes|
    ensures var s', u := Next(cfg, s, step), Uses(cfg, s, step, n);
            && |s'.core.nodes| == |s.core.nodes| && s'.core.nodes[n] == Used(s.core.nodes[n], u)
            && forall e: Entry :: Total(cfg, s', n, e) == Total(cfg, s, n, e) + Change(u, e)
  {
    hide FreeOk, BucketsOk, CallsOk, CountsOk, LimitsOk, TraceOk, ActsOk, Handle, Charge;
    var c, s' := s.core, Next(cfg, s, step);
    match step
    case DoAttach(t, reg, cid) => AttachFlow(cfg, s, t, reg, cid, n);
    case DoClaim(t, clk, o) => ClaimFlow(cfg, s, t, clk, o, n);
    case DoUndo(t, wall) => UndoFlow(cfg, s, t, wall, n);
    case DoPost(i, id, clk, scr) =>
      assert SlotOk(c.slots[i]) && SipSlot(c.slots[i]);
      HandleCharges(cfg, c, i, id, clk, scr);
      QuietFlow(cfg, s, i, s'.core.slots[i], s', n);
    case DoExpire(i, clk, scr) =>
      assert SlotOk(c.slots[i]) && SipSlot(c.slots[i]);
      ExpireCharges(cfg, c, i, clk, scr);
      QuietFlow(cfg, s, i, s'.core.slots[i], s', n);
    case DoGiveBack(i, wall) =>
      assert SlotOk(c.slots[i]);
      GiveBackFlow(cfg, s, i, wall, n);
    case DoRelink(i) =>
      assert SlotOk(c.slots[i]);
      RelinkCharges(cfg, c, i);
      QuietFlow(cfg, s, i, s'.core.slots[i], s', n);
  }

  lemma ExpireCharges(cfg: Config, c: Core, i: nat, clk: Clock, scr: Script)
    requires cfg.kind == Sip && i < |c.slots| && c.slots[i].handler != OfflineHandler && SlotOk(c.slots[i])
    ensures var c' := Expire(cfg, c, i, clk, scr).core;
            && c'.slots == c.slots[i := c'.slots[i]] && c'.nodes == c.nodes
            && forall n: nat, e: Entry :: Charge(cfg, c'.slots[i], n, e) == Charge(cfg, c.slots[i], n, e)
  {
    var d := c.Put(i, c.slots[i].(timer := None));
    HandleCharges(cfg, d, i, TIMEOUT, clk, scr);
  }

  lemma RelinkCharges(cfg: Config, c: Core, i: nat)
    requires i < |c.slots| && c.slots[i].phase.Relinking? && !InCall(c.slots[i])
    ensures var c' := Relink(c, i);
            && c'.slots == c.slots[i := c'.slots[i]] && c'.nodes == c.nodes
            && forall n: nat, e: Entry :: Charge(cfg, c'.slots[i], n, e) == Charge(cfg, c.slots[i], n, e)
  {
  }

  // ---- whole runs ----------------------------------------------------------------------

  lemma {:induction false} CallsLocal(h: seq<Stats.Change>, x: Stats.Change, k: nat)
    requires k <= |h|
    ensures Stats.Calls(h + [x], k) == Stats.Calls(h, k)
  {
    if k > 0 {
      CallsLocal(h, x, k - 1);
      assert (h + [x])[k - 1] == h[k - 1];
    }
  }

  lemma OneUse(h: seq<Use>, x: Use, e: Entry)
    requires !x.Turn?
    ensures NodeAfter(h + [x]) == Used(NodeAfter(h), [x])
    ensures Stats.Calls(Seen(h + [x], e), |Seen(h + [x], e)|) == Stats.Calls(Seen(h, e), |Seen(h, e)|) + Change([x], e)
  {
    hide Updated, Released;
    var g := h + [x];
    assert g[..|g| - 1] == h && g[|g| - 1] == x;
    OneChange(Seen(h, e), Assigned);
    OneChange(Seen(h, e), Freed);
  }

  lemma OneChange(s: seq<Stats.Change>, x: Stats.Change)
    ensures Stats.Calls(s + [x], |s + [x]|) == Stats.Calls(s, |s|) + Delta(x)
  {
    CallsLocal(s, x, |s|);
  }

  /** An orderly history stays so if the calls it then knows of are not fewer than none. */
  lemma OrderlyOn(h: seq<Use>, x: Use)
    requires Orderly(h) && forall e: Entry :: Stats.Calls(Seen(h + [x], e), |Seen(h + [x], e)|) >= 0
    ensures Orderly(h + [x])
  {
    var g := h + [x];
    assert g[..|g|] == g;
    assert forall k :: 0 <= k <= |h| ==> g[..k] == h[..k];
  }

  lemma InUseFits(cfg: Config, s: System, n: nat, e: Entry)
    requires Theorems.Reachable(cfg, s)
    ensures Theorems.InUse(cfg, s, n, e) <= |s.core.slots| + |s.invites|
  {
    Theorems.ReachableIsSafe(cfg, s);
    Theorems.TotalIsInUse(cfg, s, n, e);
    Keeping.SlotSumBound(cfg, s, |s.core.slots|, n);
    Keeping.HoldSumBound(cfg, s.invites, |s.invites|, n);
    assert e == INCOMING || e == OUTGOING;
  }

  lemma WithinOn(h: seq<Use>, u: seq<Use>, most: nat)
    requires Within(h, most) && |u| <= 1
    requires forall e: Entry :: Stats.Calls(Seen(h + u, e), |Seen(h + u, e)|) <= most
    ensures Within(h + u, most)
  {
    var g := h + u;
    assert g[..|g|] == g;
    assert forall k :: 0 <= k <= |h| ==> g[..k] == h[..k];
  }

  lemma TellsOn(cfg: Config, s: System, step: Step, n: nat, h: seq<Use>)
    requires Theorems.Reachable(cfg, s) && Enabled(cfg, s, step) && Tells(cfg, s, n, h)
    ensures Tells(cfg, Next(cfg, s, step), n, h + Uses(cfg, s, step, n))
  {
    hide Theorems.Reachable, Inv, Next, Theorems.InUse, Seen, NodeAfter, Orderly, Uses, Within;
    var s', u := Next(cfg, s, step), Uses(cfg, s, step, n);
    Theorems.NextReachable(cfg, s, step);
    Theorems.ReachableIsSafe(cfg, s);
    Theorems.ReachableIsSafe(cfg, s');
    StepFlow(cfg, s, step, n);
    forall e: Entry ensures Theorems.InUse(cfg, s', n, e) == Theorems.InUse(cfg, s, n, e) + Change(u, e) {
      Theorems.TotalIsInUse(cfg, s, n, e);
      Theorems.TotalIsInUse(cfg, s', n, e);
    }
    SingleUse(cfg, s, step, n);
    Limits.StepSize(cfg, s, step);
    if u == [] {
      assert h + u == h;
    } else {
      assert u == [u[0]];
      forall e: Entry
        ensures Stats.Calls(Seen(h + u, e), |Seen(h + u, e)|) == Theorems.InUse(cfg, s', n, e) <= |s.core.slots| + |s.invites|
      {
        OneUse(h, u[0], e);
        InUseFits(cfg, s', n, e);
      }
      OneUse(h, u[0], INCOMING);
      OrderlyOn(h, u[0]);
      WithinOn(h, u, |s.core.slots| + |s.invites|);
    }
  }

  lemma SingleUse(cfg: Config, s: System, step: Step, n: nat)
    requires Enabled(cfg, s, step)
    ensures var u := Uses(cfg, s, step, n); u == [] || (|u| == 1 && !u[0].Turn?)
  {
  }

  lemma {:induction false} TellsThrough(cfg: Config, s: System, steps: seq<Step>, s': System, n: nat, h: seq<Use>)
    requires Theorems.Reachable(cfg, s) && Runs(cfg, s, steps, s') && Tells(cfg, s, n, h)
    ensures Tells(cfg, s', n, h + Trace(cfg, s, steps, n))
    decreases |steps|
  {
    hide Theorems.Reachable, Tells, Next, Uses;
    if steps == [] {
      assert h + Trace(cfg, s, steps, n) == h;
    } else {
      var t, u := Next(cfg, s, steps[0]), Uses(cfg, s, steps[0], n);
      Theorems.NextReachable(cfg, s, steps[0]);
      TellsOn(cfg, s, steps[0], n, h);
      TellsThrough(cfg, t, steps[1..], s', n, h + u);
      assert h + u + Trace(cfg, t, steps[1..], n) == h + Trace(cfg, s, steps, n);
    }
  }

  lemma StartTells(cfg: Config, s0: System, n: nat)
    requires Init(cfg, s0) && n < |s0.core.nodes|
    ensures Tells(cfg, s0, n, [])
  {
    Theorems.StartsReachable(cfg, s0);
    Theorems.ReachableIsSafe(cfg, s0);
    forall e: Entry ensures Theorems.InUse(cfg, s0, n, e) == 0 {
      Theorems.TotalIsInUse(cfg, s0, n, e);
      Keeping.EmptySums(cfg, s0, |s0.core.slots|, n, e);
      Keeping.EmptySums(cfg, s0, |s0.invites|, n, e);
    }
  }

  /** Every node at the end of every run is what the uses of that run leave of an
      untouched one, at the times at which they happened, and what that history
      calls the true number of calls is the number that are there. */
  lemma NodeHistory(cfg: Config, s0: System, steps: seq<Step>, s: System, n: nat)
    requires Init(cfg, s0) && Runs(cfg, s0, steps, s) && n < |s0.core.nodes|
    ensures Tells(cfg, s, n, Trace(cfg, s0, steps, n))
  {
    hide Init, Runs, Tells;
    Theorems.StartsReachable(cfg, s0);
    StartTells(cfg, s0, n);
    TellsThrough(cfg, s0, steps, s, n, []);
    assert [] + Trace(cfg, s0, steps, n) == Trace(cfg, s0, steps, n);
  }

  // ---- an exchange that sixteen bits can count -------------------------------------------

  /** Each moment of what one direction sees is a moment of the node's history. */
  lemma {:induction false} SeenFits(h: seq<Use>, most: nat, e: Entry)
    requires Orderly(h) && Within(h, most) && most < SHORT
    ensures Fits(Seen(h, e), |Seen(h, e)|)
  {
    assert h[..|h|] == h;
    assert 0 <= Stats.Calls(Seen(h[..|h|], e), |Seen(h[..|h|], e)|) <= most;
    if h != [] {
      var g := h[..|h| - 1];
      assert forall k :: 0 <= k <= |g| ==> g[..k] == h[..k];
      SeenFits(g, most, e);
      var s := Seen(g, e);
      if Seen(h, e) != s {
        var x := Seen(h, e)[|s|];
        assert Seen(h, e) == s + [x];
        forall k | 0 <= k <= |s| ensures Stats.Calls(Seen(h, e), k) == Stats.Calls(s, k) {
          CallsLocal(s, x, k);
        }
      }
    }
  }

  lemma RightSoFar(h: seq<Use>, most: nat)
    requires Orderly(h) && Within(h, most) && most < SHORT
    ensures forall e: Entry :: NodeAfter(h).At(e) == After(Seen(h, e), |Seen(h, e)|) && Exact(Seen(h, e), |Seen(h, e)|)
    ensures NodeAfter(h).lastcall == LastEmptied(h)
  {
    hide Exact;
    LastCallFits(h);
    forall e: Entry ensures NodeAfter(h).At(e) == After(Seen(h, e), |Seen(h, e)|) && Exact(Seen(h, e), |Seen(h, e)|) {
      DirectionsAreIndependent(h, e);
      SeenFits(h, most, e);
      WindowStatistics(Seen(h, e));
    }
  }

  /** In an exchange of fewer than 65536 slots and threads the statistics are right
      at every moment of every run: each field of each direction is exact, `current`
      is the number of calls that are there, and `lastcall` the time of the run at
      which the node was last emptied. */
  lemma StatisticsAreRight(cfg: Config, s0: System, steps: seq<Step>, s: System, n: nat)
    requires Init(cfg, s0) && Runs(cfg, s0, steps, s) && n < |s0.core.nodes|
    requires |s0.core.slots| + |s0.invites| < SHORT
    ensures n < |s.core.nodes|
    ensures forall e: Entry ::
              var h := Seen(Trace(cfg, s0, steps, n), e);
              && s.core.nodes[n].At(e) == After(h, |h|) && Exact(h, |h|)
              && s.core.nodes[n].At(e).current == Theorems.InUse(cfg, s, n, e)
    ensures s.core.nodes[n].lastcall == LastEmptied(Trace(cfg, s0, steps, n))
  {
    hide Init, Runs, Exact, Theorems.InUse, Orderly;
    var h := Trace(cfg, s0, steps, n);
    NodeHistory(cfg, s0, steps, s, n);
    Limits.RunSize(cfg, s0, steps, s);
    RightSoFar(h, |s0.core.slots| + |s0.invites|);
    forall e: Entry ensures s.core.nodes[n].At(e).current == Theorems.InUse(cfg, s, n, e) {
      ExactCurrent(Seen(h, e));
    }
  }

  lemma ExactCurrent(h: seq<Stats.Change>)
    requires Exact(h, |h|)
    ensures After(h, |h|).current == Stats.Calls(h, |h|)
  {
  }
}
