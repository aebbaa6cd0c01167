/** The shared state of the call-slot allocator and every atomic action on it.

    Each function here is one critical section of common/timeslot.cpp or of its
    SIP specialisation sipw/timeslot.cpp.  Releasing a call takes several of
    them, because its counters are given back one lock at a time and the slot
    changes lists only after its own mutex has been given up; `phase` says how
    far a release has come.  Module Exchange interleaves these actions freely,
    module Timeslots runs them as the methods do. */
module Calls {
  import opened Common
  import opened Stats

  /** TIMESLOT_INDEX_SIZE */
  const BUCKETS := 177
  /** `sequence` is a 32-bit unsigned. */
  const SEQUENCES := 0x1_0000_0000
  /** Ring time given to an incoming call before its script runs. */
  const RINGING := 16000

  /** The generic slot of the base class, and the SIP driver's slot. */
  datatype Kind = Base | Sip
  datatype Handler = IdleHandler | ReleaseHandler | ScriptHandler | OfflineHandler
  datatype Event = REJECT | SHUTDOWN | TIMEOUT | DROP | HANGUP | RELEASE | ENABLE | DISABLE

  type Path = p: nat | p < BUCKETS

  function PathOf(cid: nat): Path { cid % BUCKETS }

  datatype Phase =
    | Settled
    | GivingBack(path: Path, owed: seq<nat>)  // slot mutex held, counters still owed
    | Relinking(path: Path)                   // slot mutex given up, still in its bucket

  datatype Slot = Slot(handler: Handler, started: nat, cid: nat, entry: Entry, sequence: nat,
                       registry: Option<nat>, span: Option<nat>, board: Option<nat>,
                       connected: bool, tid: int, did: int, timer: Option<nat>,
                       phase: Phase, call: nat)

  /** Call detail records, as posted. */
  datatype Record =
    | Start(slot: nat, sequence: nat, starting: nat)
    | Stop(slot: nat, sequence: nat, starting: nat, duration: nat)

  /** How a call came to an end on the wire; `call` is the position of its
      START record. */
  datatype Act = Terminated(call: nat) | Declined(call: nat) | Disconnected(call: nat)

  /** A DROP that reached a slot with a call: whether it met the release handler,
      whether a transaction was then still pending, and what had been said before. */
  datatype Drop = Drop(call: nat, late: bool, pending: bool, heard: nat)

  datatype Reg = Reg(limit: nat, node: Option<nat>)
  datatype Config = Config(kind: Kind, regs: seq<Reg>, stepping: nat)

  /** `wall` is time() in seconds, `ms` the clock that timers run on. */
  datatype Clock = Clock(wall: nat, ms: nat)

  /** What one step of the script interpreter may do to its slot. */
  datatype Script = Script(ok: bool, answers: bool, hangs: bool)

  /** What becomes of an invite that got a slot: it is challenged or its
      authorisation is refused, its script cannot run, or its script runs. */
  datatype Outcome = Challenged | Failed(tid: int, did: int) | Attached(tid: int, did: int)

  type Index = a: seq<seq<nat>> | |a| == BUCKETS witness seq(BUCKETS, _ => [])

  datatype Core = Core(slots: seq<Slot>, free: seq<nat>, buckets: Index, nodes: seq<Node>,
                       log: seq<Record>, acts: seq<Act>, drops: seq<Drop>)
  {
    function Put(i: nat, s: Slot): (c: Core)
      requires i < |slots|
    {
      this.(slots := slots[i := s])
    }
  }

  predicate InCall(s: Slot) { s.handler == ReleaseHandler || s.handler == ScriptHandler }

  // ---- counters ----------------------------------------------------------

  function RegNode(cfg: Config, registry: Option<nat>): Option<nat> {
    if registry.Some? && registry.value < |cfg.regs| then cfg.regs[registry.value].node else None
  }

  function One(n: Option<nat>): seq<nat> { if n.Some? then [n.value] else [] }

  /** Node 0 is the driver's; a call also counts on its span and board. */
  function Seats(s: Slot): seq<nat> { [0] + One(s.span) + One(s.board) }

  /** What a call gives back when it is released, in the order of the code. */
  function Owed(cfg: Config, s: Slot): seq<nat> {
    [0] + One(RegNode(cfg, s.registry)) + One(s.span) + One(s.board)
  }

  /** A missing node is the null pointer, which every caller tests for. */
  function Account(nodes: seq<Node>, n: nat, e: Entry): (r: seq<Node>)
    ensures |r| == |nodes|
  {
    if n < |nodes| then nodes[n := Updated(nodes[n], e)] else nodes
  }

  function AccountAll(nodes: seq<Node>, ns: seq<nat>, e: Entry): (r: seq<Node>)
    ensures |r| == |nodes|
    decreases |ns|
  {
    if ns == [] then nodes else AccountAll(Account(nodes, ns[0], e), ns[1..], e)
  }

  function Refund(nodes: seq<Node>, n: nat, e: Entry, wall: nat): (r: seq<Node>)
    ensures |r| == |nodes|
  {
    if n < |nodes| then nodes[n := Released(nodes[n], e, wall)] else nodes
  }

  function RefundAll(nodes: seq<Node>, ns: seq<nat>, e: Entry, wall: nat): (r: seq<Node>)
    ensures |r| == |nodes|
    decreases |ns|
  {
    if ns == [] then nodes else RefundAll(Refund(nodes, ns[0], e, wall), ns[1..], e, wall)
  }

  // ---- taking a slot -----------------------------------------------------

  function Allocated(kind: Kind, s: Slot, cid: nat, e: Entry, reg: Option<nat>, wall: nat, call: nat): Slot {
    s.(started := wall, cid := cid, entry := e, registry := reg,
       handler := if s.handler == IdleHandler then ReleaseHandler else s.handler,
       sequence := (s.sequence + 1) % SEQUENCES,
       tid := if kind == Sip then -1 else s.tid, did := if kind == Sip then -1 else s.did,
       call := call)
  }

  function Allocate(cfg: Config, c: Core, i: nat, cid: nat, e: Entry, reg: Option<nat>, wall: nat): (r: Core)
    requires i < |c.slots|
    ensures |r.slots| == |c.slots|
  {
    var s := Allocated(cfg.kind, c.slots[i], cid, e, reg, wall, |c.log|);
    Core(c.slots[i := s], Delist(c.free, i), c.buckets[PathOf(cid) := [i] + c.buckets[PathOf(cid)]],
         AccountAll(c.nodes, Seats(s), e), c.log + [Start(i, s.sequence, wall)], c.acts, c.drops)
  }

  /** Timeslot::assign from the free list. */
  function Assign(cfg: Config, c: Core, cid: nat, e: Entry, reg: Option<nat>, wall: nat): (r: (Core, Option<nat>))
    requires c.free != [] ==> c.free[0] < |c.slots|
    ensures |r.0.slots| == |c.slots|
    ensures r.1.Some? ==> r.1.value < |c.slots|
  {
    if c.free == [] then (c, None) else (Allocate(cfg, c, c.free[0], cid, e, reg, wall), Some(c.free[0]))
  }

  /** timeslot::incoming, reduced to its outcome; a challenged invite never gets
      there and leaves the slot without a timer. */
  function Incoming(cfg: Config, s: Slot, o: Outcome, ms: nat): Slot {
    match o
    case Challenged => s
    case Failed(tid, did) => s.(tid := tid, did := did, timer := Some(ms + RINGING))
    case Attached(tid, did) => s.(tid := tid, did := did, handler := ScriptHandler, timer := Some(ms + cfg.stepping))
  }

  // ---- ending a call -----------------------------------------------------

  /** What drop() sends, if anything. */
  function Farewell(s: Slot): seq<Act> {
    if s.connected then [Terminated(s.call)]
    else if s.tid != -1 then [Declined(s.call)]
    else []
  }

  function Dropped(s: Slot): Slot { s.(connected := false, tid := -1, timer := None) }

  /** Timeslot::disconnect, which hangup calls too. */
  function Parted(s: Slot): Slot { s.(connected := false, handler := ReleaseHandler) }

  function Gone(kind: Kind, s: Slot): Slot {
    if kind == Sip then Parted(s.(tid := -1, did := -1, timer := None)) else Parted(s)
  }

  function GoneActs(kind: Kind, s: Slot): seq<Act> { if kind == Sip then [Disconnected(s.call)] else [] }

  function HungUp(kind: Kind, s: Slot): Slot { Parted(if kind == Sip then Dropped(s) else s) }

  function HangupActs(kind: Kind, s: Slot): seq<Act> { if kind == Sip then Farewell(s) else [] }

  function Heard(s: Slot, heard: nat): Drop {
    Drop(s.call, s.handler == ReleaseHandler, s.handler == ReleaseHandler && s.tid != -1, heard)
  }

  function Hangup(cfg: Config, c: Core, i: nat): (r: Core)
    requires i < |c.slots|
    ensures |r.slots| == |c.slots|
  {
    c.Put(i, HungUp(cfg.kind, c.slots[i])).(acts := c.acts + HangupActs(cfg.kind, c.slots[i]))
  }

  function Disconnect(cfg: Config, c: Core, i: nat): (r: Core)
    requires i < |c.slots|
    ensures |r.slots| == |c.slots|
  {
    c.Put(i, Gone(cfg.kind, c.slots[i]))
     .(acts := c.acts + GoneActs(cfg.kind, c.slots[i]), drops := c.drops + [Heard(c.slots[i], |c.acts|)])
  }

  function Idle(s: Slot): Slot {
    s.(handler := IdleHandler, connected := false, started := 0, timer := None)
  }

  function StopRecord(s: Slot, i: nat, wall: nat): Record {
    Stop(i, s.sequence, s.started, (wall - s.started) % LONG)
  }

  function Stopped(cfg: Config, s: Slot): Slot {
    Idle(if cfg.kind == Sip then Dropped(s) else s).(phase := GivingBack(PathOf(s.cid), Owed(cfg, s)))
  }

  /** First section of release, under the slot mutex: the STOP record is posted
      and the slot goes idle. */
  function BeginRelease(cfg: Config, c: Core, i: nat, wall: nat): (r: Core)
    requires i < |c.slots|
    ensures |r.slots| == |c.slots|
  {
    var s := c.slots[i];
    c.Put(i, Stopped(cfg, s))
     .(log := c.log + [StopRecord(s, i, wall)], acts := c.acts + HangupActs(cfg.kind, s))
  }

  /** Still under the slot mutex: one counter is given back, or, when none is
      owed any more, the registration is forgotten and the mutex given up. */
  function GiveBack(c: Core, i: nat, wall: nat): (r: Core)
    requires i < |c.slots| && c.slots[i].phase.GivingBack?
    ensures |r.slots| == |c.slots|
  {
    var s := c.slots[i];
    var GivingBack(path, owed) := s.phase;
    if owed == [] then c.Put(i, s.(registry := None, phase := Relinking(path)))
    else c.Put(i, s.(phase := GivingBack(path, owed[1..]))).(nodes := Refund(c.nodes, owed[0], s.entry, wall))
  }

  /** Last section, under the list lock: from its bucket to the free list. */
  function Relink(c: Core, i: nat): (r: Core)
    requires i < |c.slots| && c.slots[i].phase.Relinking?
    ensures |r.slots| == |c.slots|
  {
    var path := c.slots[i].phase.path;
    c.Put(i, c.slots[i].(phase := Settled))
     .(free := [i] + c.free, buckets := c.buckets[path := Delist(c.buckets[path], i)])
  }

  /** All that is left of a release that has begun. */
  function Finish(c: Core, i: nat, wall: nat): (r: Core)
    requires i < |c.slots| && c.slots[i].phase.GivingBack?
    ensures |r.slots| == |c.slots|
  {
    var s := c.slots[i];
    var GivingBack(path, owed) := s.phase;
    c.Put(i, s.(registry := None, phase := Settled))
     .(nodes := RefundAll(c.nodes, owed, s.entry, wall),
       free := [i] + c.free, buckets := c.buckets[path := Delist(c.buckets[path], i)])
  }

  /** Running the sections of a release one after the other finishes it. */
  function RunRelease(c: Core, i: nat, wall: nat): (r: Core)
    requires i < |c.slots| && c.slots[i].phase.GivingBack?
    decreases |c.slots[i].phase.owed|
  {
    var d := GiveBack(c, i, wall);
    if d.slots[i].phase.Relinking? then Relink(d, i) else RunRelease(d, i, wall)
  }

  lemma {:induction false} SectionsFinish(c: Core, i: nat, wall: nat)
    requires i < |c.slots| && c.slots[i].phase.GivingBack?
    ensures RunRelease(c, i, wall) == Finish(c, i, wall)
    decreases |c.slots[i].phase.owed|
  {
    var d := GiveBack(c, i, wall);
    if c.slots[i].phase.owed != [] {
      SectionsFinish(d, i, wall);
    }
    assert RunRelease(c, i, wall).slots == Finish(c, i, wall).slots;
  }

  /** The slot after its whole release. */
  function Ended(cfg: Config, s: Slot): Slot {
    Stopped(cfg, s).(registry := None, phase := Settled)
  }

  lemma ReleaseInOneGo(cfg: Config, c: Core, i: nat, wall: nat)
    requires i < |c.slots|
    ensures var s := c.slots[i];
            Finish(BeginRelease(cfg, c, i, wall), i, wall) ==
            Core(c.slots[i := Ended(cfg, s)], [i] + c.free,
                 c.buckets[PathOf(s.cid) := Delist(c.buckets[PathOf(s.cid)], i)],
                 RefundAll(c.nodes, Owed(cfg, s), s.entry, wall),
                 c.log + [StopRecord(s, i, wall)], c.acts + HangupActs(cfg.kind, s), c.drops)
  {
    assert c.slots[i := Stopped(cfg, c.slots[i])][i := Ended(cfg, c.slots[i])] == c.slots[i := Ended(cfg, c.slots[i])];
  }

  // ---- going offline and coming back ---------------------------------------

  /** Tail of the base class's disable. */
  function GoOffline(c: Core, i: nat, wall: nat): (r: Core)
    requires i < |c.slots|
    ensures |r.slots| == |c.slots|
  {
    c.Put(i, c.slots[i].(started := wall, timer := None, handler := OfflineHandler, connected := false))
     .(free := Delist(c.free, i))
  }

  function Disable(cfg: Config, c: Core, i: nat, wall: nat): (r: Core)
    requires i < |c.slots|
    ensures |r.slots| == |c.slots|
  {
    if c.slots[i].started == 0 then GoOffline(c, i, wall)
    else GoOffline(Finish(BeginRelease(cfg, Hangup(cfg, c, i), i, wall), i, wall), i, wall)
  }

  function Enable(c: Core, i: nat): (r: Core)
    requires i < |c.slots|
    ensures |r.slots| == |c.slots|
  {
    c.Put(i, Idle(c.slots[i])).(free := [i] + c.free)
  }

  // ---- the four handlers ---------------------------------------------------

  /** `unlocked` counts how often the slot mutex is given up inside the handler
      (for RELEASE, in the sections still to come). */
  datatype Handled = Handled(core: Core, id: Event, unlocked: nat)

  function OnDisable(cfg: Config, c: Core, i: nat, wall: nat): (h: Handled)
    requires i < |c.slots|
    ensures |h.core.slots| == |c.slots|
    ensures c.slots[i].phase == Settled ==> h.core.slots[i].phase == Settled
  {
    match cfg.kind
    case Sip => Handled(c, REJECT, 0)
    case Base => Handled(Disable(cfg, c, i, wall), RELEASE, if c.slots[i].started == 0 then 1 else 2)
  }

  function Answered(s: Slot, scr: Script): Slot { if scr.answers then s.(connected := true) else s }

  /** interp::step and what scriptHandler makes of its answer. */
  function Stepped(cfg: Config, s: Slot, ms: nat, scr: Script): Slot {
    var a := Answered(s, scr);
    var b := if scr.hangs then HungUp(cfg.kind, a) else a;
    if !scr.ok then HungUp(cfg.kind, b)
    else if b.handler == ScriptHandler then b.(timer := Some(ms + cfg.stepping))
    else b
  }

  function SteppedActs(cfg: Config, s: Slot, scr: Script): seq<Act> {
    var a := Answered(s, scr);
    var b := if scr.hangs then HungUp(cfg.kind, a) else a;
    (if scr.hangs then HangupActs(cfg.kind, a) else []) + (if !scr.ok then HangupActs(cfg.kind, b) else [])
  }

  function OnStep(cfg: Config, c: Core, i: nat, ms: nat, scr: Script): (r: Core)
    requires i < |c.slots|
    ensures |r.slots| == |c.slots|
  {
    c.Put(i, Stepped(cfg, c.slots[i], ms, scr)).(acts := c.acts + SteppedActs(cfg, c.slots[i], scr))
  }

  function OnScript(cfg: Config, c: Core, i: nat, id: Event, clk: Clock, scr: Script): (h: Handled)
    requires i < |c.slots|
    ensures |h.core.slots| == |c.slots|
  {
    match id
    case DISABLE => OnDisable(cfg, c, i, clk.wall)
    case RELEASE => Handled(BeginRelease(cfg, c, i, clk.wall), RELEASE, 1)
    case DROP => Handled(Disconnect(cfg, c, i), DROP, 0)
    case HANGUP => Handled(Hangup(cfg, c, i), HANGUP, 0)
    case TIMEOUT => Handled(OnStep(cfg, c, i, clk.ms, scr), TIMEOUT, 0)
    case _ => Handled(c, REJECT, 0)
  }

  function OnOffline(c: Core, i: nat, id: Event): (h: Handled)
    requires i < |c.slots|
    ensures |h.core.slots| == |c.slots|
  {
    match id
    case SHUTDOWN => Handled(c.Put(i, Idle(c.slots[i])), SHUTDOWN, 0)
    case ENABLE => Handled(Enable(c, i), RELEASE, 1)
    case _ => Handled(c, REJECT, 0)
  }

  function OnIdle(cfg: Config, c: Core, i: nat, id: Event, wall: nat): (h: Handled)
    requires i < |c.slots|
    ensures |h.core.slots| == |c.slots|
  {
    match id
    case DISABLE => OnDisable(cfg, c, i, wall)
    case SHUTDOWN => Handled(c.Put(i, Idle(c.slots[i])), SHUTDOWN, 0)
    case _ => Handled(c, REJECT, 0)
  }

  function OnRelease(cfg: Config, c: Core, i: nat, id: Event, wall: nat): (h: Handled)
    requires i < |c.slots|
    ensures |h.core.slots| == |c.slots|
  {
    match id
    case DISABLE => OnDisable(cfg, c, i, wall)
    case SHUTDOWN => Handled(c.Put(i, Idle(c.slots[i])), SHUTDOWN, 0)
    case TIMEOUT => Handled(BeginRelease(cfg, c, i, wall), RELEASE, 1)
    case RELEASE => Handled(BeginRelease(cfg, c, i, wall), RELEASE, 1)
    case DROP => Handled(c.(drops := c.drops + [Heard(c.slots[i], |c.acts|)]), REJECT, 0)
    case _ => Handled(c, REJECT, 0)
  }

  function Handle(cfg: Config, c: Core, i: nat, id: Event, clk: Clock, scr: Script): (h: Handled)
    requires i < |c.slots|
    ensures |h.core.slots| == |c.slots|
  {
    match c.slots[i].handler
    case ScriptHandler => OnScript(cfg, c, i, id, clk, scr)
    case OfflineHandler => OnOffline(c, i, id)
    case IdleHandler => OnIdle(cfg, c, i, id, clk.wall)
    case ReleaseHandler => OnRelease(cfg, c, i, id, clk.wall)
  }

  /** What a handler began is carried to its end. */
  function Whole(h: Handled, i: nat, wall: nat): (r: Handled)
    requires i < |h.core.slots|
    ensures |r.core.slots| == |h.core.slots| && r.id == h.id && r.unlocked == h.unlocked
  {
    if h.core.slots[i].phase.GivingBack? then h.(core := Finish(h.core, i, wall)) else h
  }

  /** Timeslot::post run to its end by one thread. */
  function Post(cfg: Config, c: Core, i: nat, id: Event, clk: Clock, scr: Script): (h: Handled)
    requires i < |c.slots| && c.slots[i].phase == Settled
    ensures |h.core.slots| == |c.slots| && h.core.slots[i].phase == Settled
  {
    Whole(Handle(cfg, c, i, id, clk, scr), i, clk.wall)
  }

  /** getExpires found the timer due and reset it; expire delivers TIMEOUT. */
  function Expire(cfg: Config, c: Core, i: nat, clk: Clock, scr: Script): (h: Handled)
    requires i < |c.slots|
    ensures |h.core.slots| == |c.slots|
  {
    Handle(cfg, c.Put(i, c.slots[i].(timer := None)), i, TIMEOUT, clk, scr)
  }

  // ---- the lock hand-off -----------------------------------------------------

  /** How often post() gives up the mutex that it took once. */
  function GivenUp(h: Handled): nat {
    h.unlocked + if h.id != RELEASE then 1 else 0
  }

  /** The convention holds for every state and event of the SIP driver.  The base
      class breaks it in exactly one case: disabling a slot that is in a call. */
  lemma LockHandOff(cfg: Config, c: Core, i: nat, id: Event, clk: Clock, scr: Script)
    requires i < |c.slots|
    ensures var h, s := Handle(cfg, c, i, id, clk, scr), c.slots[i];
            && (GivenUp(h) == 1 <==> !(cfg.kind == Base && id == DISABLE && s.handler != OfflineHandler && s.started != 0))
            && (cfg.kind == Sip ==> GivenUp(h) == 1 && (h.id == RELEASE <==> h.unlocked == 1))
            && (cfg.kind == Sip && s.handler != OfflineHandler ==>
                  (h.id == RELEASE <==> h.core.slots[i].phase.GivingBack? && h.core.log != c.log))
  {
    assert |BeginRelease(cfg, c, i, clk.wall).log| == |c.log| + 1;
  }

  /** The same for a whole post. */
  lemma PostHandOff(cfg: Config, c: Core, i: nat, id: Event, clk: Clock, scr: Script)
    requires i < |c.slots| && c.slots[i].phase == Settled
    ensures GivenUp(Post(cfg, c, i, id, clk, scr)) == 1 <==>
            !(cfg.kind == Base && id == DISABLE && c.slots[i].handler != OfflineHandler && c.slots[i].started != 0)
    ensures GivenUp(Post(cfg, c, i, id, clk, scr)) <= 2 && GivenUp(Post(cfg, c, i, id, clk, scr)) >= 1
  {
    LockHandOff(cfg, c, i, id, clk, scr);
  }

  /** An event with the moment and the script's answer it meets. */
  datatype Delivery = Delivery(id: Event, clk: Clock, scr: Script)

  function Delivered(cfg: Config, c: Core, i: nat, d: Delivery): (h: Handled)
    requires i < |c.slots| && c.slots[i].phase == Settled
    ensures |h.core.slots| == |c.slots| && h.core.slots[i].phase == Settled
  {
    Post(cfg, c, i, d.id, d.clk, d.scr)
  }

  /** How often a run of posts to one slot gives up its mutex. */
  function AllGivenUp(cfg: Config, c: Core, i: nat, run: seq<Delivery>): nat
    requires i < |c.slots| && c.slots[i].phase == Settled
    decreases |run|
  {
    if run == [] then 0
    else var h := Delivered(cfg, c, i, run[0]); GivenUp(h) + AllGivenUp(cfg, h.core, i, run[1..])
  }

  /** Somewhere in the run the base class disables a slot that is in a call. */
  predicate CutsCall(cfg: Config, c: Core, i: nat, run: seq<Delivery>)
    requires i < |c.slots| && c.slots[i].phase == Settled
    decreases |run|
  {
    run != [] &&
    ( || (cfg.kind == Base && run[0].id == DISABLE && c.slots[i].handler != OfflineHandler && c.slots[i].started != 0)
      || CutsCall(cfg, Delivered(cfg, c, i, run[0]).core, i, run[1..]))
  }

  /** Over any run of posts to a slot its mutex is given up exactly as often as
      it is taken, iff no slot in a call is disabled by the base class; so always
      in the SIP driver. */
  lemma {:induction false} LocksBalance(cfg: Config, c: Core, i: nat, run: seq<Delivery>)
    requires i < |c.slots| && c.slots[i].phase == Settled
    ensures AllGivenUp(cfg, c, i, run) >= |run|
    ensures AllGivenUp(cfg, c, i, run) == |run| <==> !CutsCall(cfg, c, i, run)
    ensures cfg.kind == Sip ==> !CutsCall(cfg, c, i, run)
    decreases |run|
  {
    if run != [] {
      PostHandOff(cfg, c, i, run[0].id, run[0].clk, run[0].scr);
      LocksBalance(cfg, Delivered(cfg, c, i, run[0]).core, i, run[1..]);
    }
  }

  // ---- looking a call up -------------------------------------------------------

  /** Timeslot::get walks one bucket and decides at the first match. */
  function Walk(slots: seq<Slot>, list: seq<nat>, cid: nat): Option<nat>
    requires forall k :: 0 <= k < |list| ==> list[k] < |slots|
  {
    if list == [] then None
    else if slots[list[0]].cid == cid then (if slots[list[0]].started != 0 then Some(list[0]) else None)
    else Walk(slots, list[1..], cid)
  }

  ghost predicate InRange(c: Core) {
    forall p: Path, k :: 0 <= k < |c.buckets[p]| ==> c.buckets[p][k] < |c.slots|
  }

  ghost function Get(c: Core, cid: nat): Option<nat>
    requires InRange(c)
  {
    Walk(c.slots, c.buckets[PathOf(cid)], cid)
  }
}
