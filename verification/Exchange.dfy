/** The SIP exchange as a step system.  SIP threads take invites through
    reserve, assign and undo; any thread posts events to any slot at any moment
    (a pointer found earlier may since serve another call); the timer thread
    expires slots; and a release that has begun goes on one lock at a time.
    Runs end before the shutdown sweep of Driver::stop. */
module Exchange {
  import opened Common
  import opened Stats
  import opened Calls
  import Registry

  /** Where a SIP thread stands in thread::invite. */
  datatype Invite =
    | Ready
    | Reserved(reg: nat, cid: nat)  // counted against the registration, no slot yet
    | Refused(reg: nat)             // no slot was free, reservation still to be undone

  datatype System = System(core: Core, invites: seq<Invite>)

  datatype Step =
    | DoAttach(t: nat, reg: nat, cid: nat)
    | DoClaim(t: nat, clk: Clock, outcome: Outcome)
    | DoUndo(t: nat, wall: nat)
    | DoPost(i: nat, id: Event, clk: Clock, scr: Script)
    | DoExpire(i: nat, clk: Clock, scr: Script)
    | DoGiveBack(i: nat, wall: nat)
    | DoRelink(i: nat)

  predicate Enabled(cfg: Config, s: System, step: Step) {
    match step
    case DoAttach(t, reg, cid) => t < |s.invites| && s.invites[t].Ready? && reg < |cfg.regs| && cid >= 1
    case DoClaim(t, clk, _) => t < |s.invites| && s.invites[t].Reserved? && clk.wall > 0
                               && (s.core.free != [] ==> s.core.free[0] < |s.core.slots|)
    case DoUndo(t, _) => t < |s.invites| && s.invites[t].Refused?
    case DoPost(i, id, _, _) => i < |s.core.slots| && !s.core.slots[i].phase.GivingBack? && id != SHUTDOWN
    case DoExpire(i, clk, _) => i < |s.core.slots| && !s.core.slots[i].phase.GivingBack?
                                && s.core.slots[i].timer.Some? && s.core.slots[i].timer.value <= clk.ms
    case DoGiveBack(i, _) => i < |s.core.slots| && s.core.slots[i].phase.GivingBack?
    case DoRelink(i) => i < |s.core.slots| && s.core.slots[i].phase.Relinking?
  }

  function Attach(cfg: Config, s: System, t: nat, reg: nat, cid: nat): System
    requires t < |s.invites| && reg < |cfg.regs|
  {
    var held := s.(invites := s.invites[t := Reserved(reg, cid)]);
    match cfg.regs[reg].node
    case None => held
    case Some(n) =>
      if n < |s.core.nodes| && !Registry.Admits(cfg.regs[reg].limit, s.core.nodes[n]) then s
      else held.(core := s.core.(nodes := Account(s.core.nodes, n, INCOMING)))
  }

  function Claim(cfg: Config, s: System, t: nat, clk: Clock, o: Outcome): System
    requires t < |s.invites| && s.invites[t].Reserved?
    requires s.core.free != [] ==> s.core.free[0] < |s.core.slots|
  {
    var Reserved(reg, cid) := s.invites[t];
    var (c, found) := Assign(cfg, s.core, cid, INCOMING, Some(reg), clk.wall);
    match found
    case None => System(c, s.invites[t := Refused(reg)])
    case Some(i) => System(c.Put(i, Incoming(cfg, c.slots[i], o, clk.ms)), s.invites[t := Ready])
  }

  function Undo(cfg: Config, s: System, t: nat, wall: nat): System
    requires t < |s.invites| && s.invites[t].Refused?
  {
    var done := s.(invites := s.invites[t := Ready]);
    match RegNode(cfg, Some(s.invites[t].reg))
    case None => done
    case Some(n) => done.(core := s.core.(nodes := Refund(s.core.nodes, n, INCOMING, wall)))
  }

  function Next(cfg: Config, s: System, step: Step): System
    requires Enabled(cfg, s, step)
  {
    match step
    case DoAttach(t, reg, cid) => Attach(cfg, s, t, reg, cid)
    case DoClaim(t, clk, o) => Claim(cfg, s, t, clk, o)
    case DoUndo(t, wall) => Undo(cfg, s, t, wall)
    case DoPost(i, id, clk, scr) => s.(core := Handle(cfg, s.core, i, id, clk, scr).core)
    case DoExpire(i, clk, scr) => s.(core := Expire(cfg, s.core, i, clk, scr).core)
    case DoGiveBack(i, wall) => s.(core := GiveBack(s.core, i, wall))
    case DoRelink(i) => s.(core := Relink(s.core, i))
  }

  /** thread::invite run to its end by one thread: reserve, assign, and either
      serve the call or undo the reservation. */
  function InviteRun(cfg: Config, c: Core, reg: nat, cid: nat, clk: Clock, o: Outcome): Core
    requires reg < |cfg.regs| && (c.free != [] ==> c.free[0] < |c.slots|)
  {
    var a := Attach(cfg, System(c, [Ready]), 0, reg, cid);
    if a.invites[0].Ready? then a.core
    else
      var b := Claim(cfg, a, 0, clk, o);
      if b.invites[0].Refused? then Undo(cfg, b, 0, clk.wall).core else b.core
  }

  /** `s'` is reached from `s` by these steps, in this order. */
  ghost predicate Runs(cfg: Config, s: System, steps: seq<Step>, s': System)
    decreases |steps|
  {
    if steps == [] then s == s'
    else Enabled(cfg, s, steps[0]) && Runs(cfg, Next(cfg, s, steps[0]), steps[1..], s')
  }

  // ---- where runs start --------------------------------------------------------

  ghost predicate Blank(s: Slot) {
    && s.handler == IdleHandler && s.started == 0 && s.sequence == 0
    && s.registry == None && s.span == None && s.board == None
    && !s.connected && s.timer == None && s.phase == Settled
  }

  /** The SIP driver's configuration: registrations have distinct nodes of their
      own, apart from the driver's. */
  ghost predicate Sound(cfg: Config, nodes: nat) {
    && cfg.kind == Sip && nodes > 0
    && (forall r :: 0 <= r < |cfg.regs| && cfg.regs[r].node.Some? ==> 0 < cfg.regs[r].node.value < nodes)
    && (forall q, r :: 0 <= q < r < |cfg.regs| && cfg.regs[q].node.Some? ==> cfg.regs[q].node != cfg.regs[r].node)
  }

  /** After the constructors: each slot pushed itself onto the free list. */
  ghost predicate Init(cfg: Config, s: System) {
    var n := |s.core.slots|;
    && Sound(cfg, |s.core.nodes|)
    && (forall i :: 0 <= i < n ==> Blank(s.core.slots[i]))
    && |s.core.free| == n && (forall k :: 0 <= k < n ==> s.core.free[k] == n - 1 - k)
    && (forall p: Path :: s.core.buckets[p] == [])
    && (forall k :: 0 <= k < |s.core.nodes| ==> s.core.nodes[k] == UNTOUCHED)
    && (forall t :: 0 <= t < |s.invites| ==> s.invites[t] == Ready)
    && s.core.log == [] && s.core.acts == [] && s.core.drops == []
  }

  // ---- invariants: the slots and the lists ---------------------------------------

  ghost predicate Bucketed(s: Slot) { InCall(s) || s.phase != Settled }

  ghost predicate SlotOk(s: Slot) {
    && (InCall(s) ==> s.started != 0 && s.phase == Settled)
    && (s.handler == IdleHandler ==> s.started == 0 && s.timer == None && !s.connected)
    && (s.handler == OfflineHandler ==> s.started != 0 && s.phase == Settled)
    && (s.phase.GivingBack? ==> s.phase.path == PathOf(s.cid))
    && (s.phase.Relinking? ==> s.phase.path == PathOf(s.cid))
  }

  ghost predicate SlotsOk(c: Core) {
    forall i :: 0 <= i < |c.slots| ==> SlotOk(c.slots[i])
  }

  ghost predicate OnFree(c: Core, i: nat) {
    i < |c.slots| && c.slots[i].handler == IdleHandler && c.slots[i].phase == Settled
  }

  ghost predicate OnBucket(c: Core, p: Path, i: nat) {
    i < |c.slots| && Bucketed(c.slots[i]) && PathOf(c.slots[i].cid) == p
  }

  /** Newest call first. */
  ghost predicate Descending(slots: seq<Slot>, list: seq<nat>) {
    && (forall k :: 0 <= k < |list| ==> list[k] < |slots|)
    && (forall j, k :: 0 <= j < k < |list| ==> slots[list[j]].call > slots[list[k]].call)
  }

  ghost predicate FreeOk(c: Core) {
    && NoDup(c.free)
    && (forall i: nat :: i in c.free <==> OnFree(c, i))
  }

  ghost predicate BucketsOk(c: Core) {
    && (forall p: Path :: Descending(c.slots, c.buckets[p]))
    && (forall p: Path, i: nat :: i in c.buckets[p] <==> OnBucket(c, p, i))
  }

  /** A bucketed slot's call is its own START record. */
  ghost predicate CallsOk(c: Core) {
    forall i :: 0 <= i < |c.slots| && Bucketed(c.slots[i]) ==>
      var s := c.slots[i];
      s.call < |c.log| && c.log[s.call].Start? && c.log[s.call].slot == i && c.log[s.call].sequence == s.sequence
  }

  // ---- invariants: the counters -----------------------------------------------

  /** What slot `s` stands for on node `n` in direction `e`. */
  function Charge(cfg: Config, s: Slot, n: nat, e: Entry): nat {
    if s.entry != e then 0
    else if InCall(s) then Count(Owed(cfg, s), n)
    else if s.phase.GivingBack? then Count(s.phase.owed, n)
    else 0
  }

  function SlotSum(cfg: Config, slots: seq<Slot>, k: nat, n: nat, e: Entry): nat
    requires k <= |slots|
  {
    if k == 0 then 0 else SlotSum(cfg, slots, k - 1, n, e) + Charge(cfg, slots[k - 1], n, e)
  }

  function Hold(cfg: Config, v: Invite, n: nat, e: Entry): nat {
    if v.Ready? || e != INCOMING then 0
    else if RegNode(cfg, Some(v.reg)) == Some(n) then 1 else 0
  }

  function HoldSum(cfg: Config, invites: seq<Invite>, k: nat, n: nat, e: Entry): nat
    requires k <= |invites|
  {
    if k == 0 then 0 else HoldSum(cfg, invites, k - 1, n, e) + Hold(cfg, invites[k - 1], n, e)
  }

  /** Calls that count on node `n`: those in slots, and the reservations of
      invites that have no slot. */
  function Total(cfg: Config, s: System, n: nat, e: Entry): nat {
    SlotSum(cfg, s.core.slots, |s.core.slots|, n, e) + HoldSum(cfg, s.invites, |s.invites|, n, e)
  }

  ghost predicate CountsOk(cfg: Config, s: System) {
    forall n: nat, e: Entry :: n < |s.core.nodes| ==> s.core.nodes[n].At(e).current == Total(cfg, s, n, e) % SHORT
  }

  /** A limit that sixteen bits can hold is kept. */
  ghost predicate Limited(cfg: Config, s: System, r: nat)
    requires r < |cfg.regs|
  {
    0 < cfg.regs[r].limit < SHORT && cfg.regs[r].node.Some? ==>
      Total(cfg, s, cfg.regs[r].node.value, INCOMING) + Total(cfg, s, cfg.regs[r].node.value, OUTGOING) <= cfg.regs[r].limit
  }

  ghost predicate LimitsOk(cfg: Config, s: System) {
    forall r :: 0 <= r < |cfg.regs| ==> Limited(cfg, s, r)
  }

  // ---- invariants: call records and farewells ------------------------------------

  /** Reading one slot's records in order. */
  datatype Reading = Broken | Closed(sequence: nat) | Open(sequence: nat, starting: nat)

  function Read(log: seq<Record>, i: nat, k: nat): Reading
    requires k <= |log|
  {
    if k == 0 then Closed(0)
    else if log[k - 1].slot != i then Read(log, i, k - 1)
    else
      match (Read(log, i, k - 1), log[k - 1])
      case (Closed(q), Start(_, q', at)) => if q' == (q + 1) % SEQUENCES then Open(q', at) else Broken
      case (Open(q, at), Stop(_, q', at', _)) => if q == q' && at == at' then Closed(q) else Broken
      case _ => Broken
  }

  ghost predicate TraceOk(c: Core) {
    forall i :: 0 <= i < |c.slots| ==>
      Read(c.log, i, |c.log|) ==
      if InCall(c.slots[i]) then Open(c.slots[i].sequence, c.slots[i].started) else Closed(c.slots[i].sequence)
  }

  /** A call that may still be told goodbye. */
  ghost predicate Live(s: Slot) { s.handler == ScriptHandler || s.connected || s.tid != -1 }

  ghost predicate Silent(acts: seq<Act>, call: nat) {
    forall k :: 0 <= k < |acts| ==> acts[k].call != call
  }

  ghost predicate ActsOk(c: Core) {
    && (forall j, k :: 0 <= j < k < |c.acts| ==> c.acts[j].call != c.acts[k].call)
    && (forall k :: 0 <= k < |c.acts| ==> c.acts[k].call < |c.log|)
    && (forall i :: 0 <= i < |c.slots| && InCall(c.slots[i]) && Live(c.slots[i]) ==> Silent(c.acts, c.slots[i].call))
  }

  /** SIP slots sit on no span or board, are never taken offline, and owe each
      node at most one call. */
  ghost predicate SipSlot(s: Slot) {
    && s.handler != OfflineHandler && s.span == None && s.board == None
    && (s.phase.GivingBack? ==> forall n: nat :: Count(s.phase.owed, n) <= 1)
  }

  ghost predicate Inv(cfg: Config, s: System) {
    && Sound(cfg, |s.core.nodes|)
    && (forall i :: 0 <= i < |s.core.slots| ==> SipSlot(s.core.slots[i]))
    && SlotsOk(s.core) && FreeOk(s.core) && BucketsOk(s.core) && CallsOk(s.core)
    && CountsOk(cfg, s) && LimitsOk(cfg, s)
    && TraceOk(s.core) && ActsOk(s.core)
  }

  /** A script never waits without a timer. */
  ghost predicate TimersOk(c: Core) {
    forall i :: 0 <= i < |c.slots| && c.slots[i].handler == ScriptHandler ==> c.slots[i].timer.Some?
  }
}
