/** The objects behind the model of Calls: slots whose methods update their
    fields, and the lists, counters and records they share.  Every method states
    its effect on the shared state as the function of module Calls it runs. */
module Timeslots {
  import opened Common
  import opened Stats
  import opened Calls
  import opened Registry
  import Exchange

  class Timeslot {
    const kind: Kind
    const instance: nat
    var handler: Handler
    var started: nat
    var cid: nat
    var stats: Entry
    var sequence: nat
    var registry: Option<nat>
    var span: Option<nat>
    var board: Option<nat>
    var connected: bool
    var tid: int
    var did: int
    var timer: Option<nat>
    var expires: Option<nat>
    // how often the slot mutex was taken and given up
    var locks: nat
    var unlocks: nat
    ghost var phase: Phase
    ghost var call: nat

    constructor (kind: Kind, instance: nat)
      ensures this.kind == kind && this.instance == instance && Exchange.Blank(View())
      ensures locks == unlocks == 0
    {
      this.kind, this.instance := kind, instance;
      handler, started, cid, stats, sequence := IdleHandler, 0, 0, INCOMING, 0;
      registry, span, board := None, None, None;
      connected, tid, did, timer, expires := false, -1, -1, None, None;
      locks, unlocks := 0, 0;
      phase, call := Settled, 0;
    }

    ghost function View(): Slot
      reads this
    {
      Slot(handler, started, cid, stats, sequence, registry, span, board, connected, tid, did, timer, phase, call)
    }

    /** This slot's links lead somewhere. */
    ghost predicate Fits(sb: Switchboard)
      reads `registry, `span, `board, sb`nodes, sb`registrations
    {
      && kind == sb.cfg.kind
      && (registry.Some? ==> registry.value < |sb.registrations|)
      && (span.Some? ==> span.value < |sb.nodes|)
      && (board.Some? ==> board.value < |sb.nodes|)
    }

    ghost predicate Linked(sb: Switchboard)
      reads `registry, `span, `board, sb`nodes, sb`tallies, sb`registrations, sb.nodes, sb.registrations
    {
      sb.Valid() && Fits(sb)
    }

    /** `all` gives this slot's fields their place among those of all slots. */
    ghost predicate Among(all: seq<Slot>)
      reads this
    {
      instance < |all| && all[instance] == View()
    }

    method Lock()
      modifies this`locks
      ensures locks == old(locks) + 1
    {
      locks := locks + 1;
    }

    method Unlock()
      modifies this`unlocks
      ensures unlocks == old(unlocks) + 1
    {
      unlocks := unlocks + 1;
    }

    method Disarm()
      modifies this`timer
      ensures timer == None
    {
      timer := None;
    }

    /** Module Background shows what the notification that follows is for. */
    method Arm(timeout: nat, now: nat)
      modifies this`timer
      ensures timer == Some(now + timeout)
    {
      timer := Some(now + timeout);
    }

    method SetIdle()
      modifies this`handler, this`connected, this`started, this`timer
      ensures View() == Idle(old(View()))
    {
      connected := false;
      handler := IdleHandler;
      started := 0;
      Disarm();
    }

    method SetScripting(stepping: nat, now: nat)
      modifies this`handler, this`timer
      ensures View() == old(View()).(handler := ScriptHandler, timer := Some(now + stepping))
    {
      handler := ScriptHandler;
      Arm(stepping, now);
    }

    // ---- taking the slot -----------------------------------------------------

    method Allocate(sb: Switchboard, ghost all: seq<Slot>, cid: nat, stat: Entry, reg: Option<nat>, wall: nat)
      requires Linked(sb) && Among(all) && (reg.Some? ==> reg.value < |sb.registrations|)
      modifies this, sb`timeslots, sb`buckets, sb`log, sb`tallies, sb.nodes
      ensures Linked(sb) && locks == old(locks) && unlocks == old(unlocks)
      ensures sb.State(all[instance := View()]) ==
              Calls.Allocate(sb.cfg, old(sb.State(all)), instance, cid, stat, reg, wall)
    {
      hide Switchboard.Valid;
      Relist(sb, cid);
      Fill(cid, stat, reg, wall, |sb.log|);
      CountIn(sb);
      sb.log := sb.log + [Start(instance, sequence, started)];
    }

    /** From the free list, usually as its head, to the front of a bucket. */
    method Relist(sb: Switchboard, cid: nat)
      modifies sb`timeslots, sb`buckets
      ensures sb.timeslots == Delist(old(sb.timeslots), instance)
      ensures sb.buckets == old(sb.buckets)[PathOf(cid) := [instance] + old(sb.buckets)[PathOf(cid)]]
    {
      if sb.timeslots != [] && sb.timeslots[0] == instance {
        assert sb.timeslots[1..] == Delist(sb.timeslots, instance);
        sb.timeslots := sb.timeslots[1..];
      } else {
        sb.timeslots := Delist(sb.timeslots, instance);
      }
      sb.buckets := sb.buckets[PathOf(cid) := [instance] + sb.buckets[PathOf(cid)]];
    }

    method CountIn(sb: Switchboard)
      requires Linked(sb)
      modifies sb`tallies, sb.nodes
      ensures Linked(sb)
      ensures sb.tallies == AccountAll(old(sb.tallies), Seats(View()), stats)
    {
      hide AccountAll, Updated;
      ghost var was := sb.tallies;
      sb.Take(0, stats);
      if span.Some? {
        sb.Take(span.value, stats);
      }
      if board.Some? {
        sb.Take(board.value, stats);
      }
      SeatsInOrder(was, View(), stats);
    }

    /** The fields that allocation sets, the SIP driver's own included. */
    method Fill(cid: nat, stat: Entry, reg: Option<nat>, wall: nat, ghost call: nat)
      modifies this`started, this`cid, this`stats, this`registry, this`handler, this`sequence, this`tid, this`did, this`call
      ensures View() == Allocated(kind, old(View()), cid, stat, reg, wall, call)
    {
      if kind == Sip {
        tid, did := -1, -1;
      }
      started := wall;
      this.cid := cid;
      stats := stat;
      registry := reg;
      if handler == IdleHandler {
        handler := ReleaseHandler;
      }
      sequence := (sequence + 1) % SEQUENCES;
      this.call := call;
    }

    method Incoming(cfg: Config, o: Outcome, now: nat)
      modifies this`tid, this`did, this`handler, this`timer
      ensures View() == Calls.Incoming(cfg, old(View()), o, now)
    {
      if !o.Challenged? {
        tid, did := o.tid, o.did;
        Arm(RINGING, now);
        if o.Attached? {
          SetScripting(cfg.stepping, now);
        }
      }
    }

    // ---- ending a call --------------------------------------------------------

    method Drop(sb: Switchboard)
      modifies this`connected, this`tid, this`timer, sb`acts
      ensures View() == Dropped(old(View()))
      ensures sb.acts == old(sb.acts) + Farewell(old(View()))
    {
      if connected {
        sb.acts := sb.acts + [Terminated(call)];
        connected := false;
      } else if tid != -1 {
        sb.acts := sb.acts + [Declined(call)];
      } else {
        assert sb.acts == sb.acts + [];
      }
      tid := -1;
      Disarm();
    }

    /** Timeslot::disconnect of the base class. */
    method Part()
      modifies this`connected, this`handler
      ensures View() == Parted(old(View()))
    {
      connected := false;
      handler := ReleaseHandler;
    }

    method Disconnect(sb: Switchboard)
      modifies this`connected, this`handler, this`tid, this`did, this`timer, sb`acts, sb`drops
      ensures View() == Gone(kind, old(View()))
      ensures sb.acts == old(sb.acts) + GoneActs(kind, old(View()))
      ensures sb.drops == old(sb.drops) + [Heard(old(View()), |old(sb.acts)|)]
    {
      sb.drops := sb.drops + [Heard(View(), |sb.acts|)];
      if kind == Sip {
        sb.acts := sb.acts + [Disconnected(call)];
        connected := false;
        tid, did := -1, -1;
        Disarm();
      } else {
        assert sb.acts == sb.acts + [];
      }
      Part();
    }

    method Hangup(sb: Switchboard)
      modifies this`connected, this`handler, this`tid, this`timer, sb`acts
      ensures View() == HungUp(kind, old(View()))
      ensures sb.acts == old(sb.acts) + HangupActs(kind, old(View()))
    {
      if kind == Sip {
        Drop(sb);
        Disarm();
      } else {
        assert sb.acts == sb.acts + [];
      }
      Part();
    }

    method GiveSegments(sb: Switchboard, wall: nat)
      requires Linked(sb)
      modifies sb`tallies, sb.nodes
      ensures Linked(sb)
      ensures sb.tallies == RefundOne(RefundOne(old(sb.tallies), span, stats, wall), board, stats, wall)
    {
      if span.Some? {
        sb.Give(span.value, stats, wall);
      }
      if board.Some? {
        sb.Give(board.value, stats, wall);
      }
    }

    /** The counters of a call go back in this order: driver, registration, span,
        board. */
    method GiveBack(sb: Switchboard, wall: nat)
      requires Linked(sb)
      modifies sb`tallies, sb.nodes
      ensures Linked(sb)
      ensures sb.tallies == RefundAll(old(sb.tallies), Owed(sb.cfg, View()), stats, wall)
    {
      hide RefundAll, Refund, Owed;
      OwedInOrder(sb.cfg, sb.tallies, View(), stats, wall);
      sb.Give(0, stats, wall);
      if registry.Some? {
        sb.GiveRegistration(registry.value, stats, wall);
      }
      GiveSegments(sb, wall);
    }

    /** The STOP record, and the slot back to idle. */
    method StopCall(sb: Switchboard, wall: nat)
      requires kind == sb.cfg.kind
      modifies this`connected, this`tid, this`timer, this`handler, this`started, this`phase, sb`log, sb`acts
      ensures View() == Stopped(sb.cfg, old(View())) && Owed(sb.cfg, View()) == Owed(sb.cfg, old(View()))
      ensures sb.log == old(sb.log) + [StopRecord(old(View()), instance, wall)]
      ensures sb.acts == old(sb.acts) + HangupActs(kind, old(View()))
    {
      if kind == Sip {
        Drop(sb);
      } else {
        assert sb.acts == sb.acts + [];
      }
      sb.log := sb.log + [Stop(instance, sequence, started, (wall - started) % LONG)];
      SetIdle();
      phase := GivingBack(PathOf(cid), Owed(sb.cfg, View()));
    }

    /** What release does under the slot mutex. */
    method EndCall(sb: Switchboard, wall: nat)
      requires Linked(sb)
      modifies this, sb`log, sb`acts, sb`tallies, sb.nodes
      ensures Linked(sb) && locks == old(locks) && unlocks == old(unlocks) + 1
      ensures View() == Ended(sb.cfg, old(View()))
      ensures sb.log == old(sb.log) + [StopRecord(old(View()), instance, wall)]
      ensures sb.acts == old(sb.acts) + HangupActs(kind, old(View()))
      ensures sb.tallies == RefundAll(old(sb.tallies), Owed(sb.cfg, old(View())), old(stats), wall)
    {
      hide RefundAll, HangupActs, StopRecord, Stopped, Owed, Switchboard.Valid;
      StopCall(sb, wall);
      GiveBack(sb, wall);
      Leave();
    }

    method Leave()
      modifies this`registry, this`unlocks, this`phase
      ensures View() == old(View()).(registry := None, phase := Settled) && unlocks == old(unlocks) + 1
    {
      registry := None;
      Unlock();
      phase := Settled;
    }

    /** All sections of a release, in the order in which the code takes them. */
    method Release(sb: Switchboard, ghost all: seq<Slot>, wall: nat)
      requires Linked(sb) && Among(all)
      modifies this, sb`timeslots, sb`buckets, sb`log, sb`acts, sb`tallies, sb.nodes
      ensures Linked(sb) && locks == old(locks) && unlocks == old(unlocks) + 1
      ensures sb.State(all[instance := View()]) ==
              Finish(BeginRelease(sb.cfg, old(sb.State(all)), instance, wall), instance, wall)
    {
      ReleaseInOneGo(sb.cfg, sb.State(all), instance, wall);
      var path := PathOf(cid);
      EndCall(sb, wall);
      sb.buckets := sb.buckets[path := Delist(sb.buckets[path], instance)];
      sb.timeslots := [instance] + sb.timeslots;
    }

    // ---- offline and back ------------------------------------------------------

    /** The first half of disabling a slot in a call. */
    method Cut(sb: Switchboard, ghost all: seq<Slot>, wall: nat)
      requires Linked(sb) && Among(all)
      modifies this, sb`timeslots, sb`buckets, sb`log, sb`acts, sb`tallies, sb.nodes
      ensures Linked(sb) && locks == old(locks) && unlocks == old(unlocks) + 1
      ensures sb.State(all[instance := View()]) ==
              Finish(BeginRelease(sb.cfg, Calls.Hangup(sb.cfg, old(sb.State(all)), instance), instance, wall), instance, wall)
    {
      Hangup(sb);
      ghost var all1 := all[instance := View()];
      Release(sb, all1, wall);
      assert all1[instance := View()] == all[instance := View()];
    }

    method SetOffline(wall: nat)
      modifies this`started, this`timer, this`handler, this`connected
      ensures View() == old(View()).(started := wall, timer := None, handler := OfflineHandler, connected := false)
    {
      started := wall;
      Disarm();
      handler := OfflineHandler;
      connected := false;
    }

    /** The second half. */
    method GoOffline(sb: Switchboard, ghost all: seq<Slot>, wall: nat)
      requires Linked(sb) && Among(all)
      modifies this, sb`timeslots
      ensures Linked(sb) && locks == old(locks) && unlocks == old(unlocks) + 1
      ensures sb.State(all[instance := View()]) == Calls.GoOffline(old(sb.State(all)), instance, wall)
    {
      hide Switchboard.Valid;
      SetOffline(wall);
      Unlock();
      sb.timeslots := Delist(sb.timeslots, instance);
    }

    method Disable(sb: Switchboard, ghost all: seq<Slot>, wall: nat)
      requires Linked(sb) && Among(all)
      modifies this, sb`timeslots, sb`buckets, sb`log, sb`acts, sb`tallies, sb.nodes
      ensures Linked(sb) && locks == old(locks)
      ensures unlocks == old(unlocks) + if old(started) == 0 then 1 else 2
      ensures sb.State(all[instance := View()]) == Calls.Disable(sb.cfg, old(sb.State(all)), instance, wall)
    {
      if started != 0 {
        Cut(sb, all, wall);
        ghost var all1 := all[instance := View()];
        GoOffline(sb, all1, wall);
        assert all1[instance := View()] == all[instance := View()];
      } else {
        GoOffline(sb, all, wall);
      }
    }

    method Enable(sb: Switchboard, ghost all: seq<Slot>)
      requires Linked(sb) && Among(all)
      modifies this, sb`timeslots
      ensures Linked(sb) && locks == old(locks) && unlocks == old(unlocks) + 1
      ensures sb.State(all[instance := View()]) == Calls.Enable(old(sb.State(all)), instance)
    {
      SetIdle();
      Unlock();
      sb.timeslots := [instance] + sb.timeslots;
    }

    // ---- handlers ---------------------------------------------------------------

    method ScriptStep(sb: Switchboard, clk: Clock, scr: Script)
      requires kind == sb.cfg.kind
      modifies this`connected, this`handler, this`tid, this`timer, sb`acts
      ensures View() == Stepped(sb.cfg, old(View()), clk.ms, scr)
      ensures sb.acts == old(sb.acts) + SteppedActs(sb.cfg, old(View()), scr)
    {
      if scr.answers {
        connected := true;
      }
      if scr.hangs {
        Hangup(sb);
      } else {
        assert sb.acts == sb.acts + [];
      }
      if !scr.ok {
        Hangup(sb);
      } else if handler == ScriptHandler {
        Arm(sb.cfg.stepping, clk.ms);
      }
    }

    /** Whichever handler is installed, run to its end; a release with all its
        sections. */
    method Dispatch(sb: Switchboard, ghost all: seq<Slot>, id: Event, clk: Clock, scr: Script) returns (r: Event)
      requires Linked(sb) && Among(all) && phase == Settled
      modifies this, sb`timeslots, sb`buckets, sb`log, sb`acts, sb`drops, sb`tallies, sb.nodes
      ensures Linked(sb) && locks == old(locks)
      ensures var h := Calls.Post(sb.cfg, old(sb.State(all)), instance, id, clk, scr);
              sb.State(all[instance := View()]) == h.core && r == h.id && unlocks == old(unlocks) + h.unlocked
    {
      match handler {
        case ScriptHandler => r := OnScript(sb, all, id, clk, scr);
        case OfflineHandler => r := OnOffline(sb, all, id, clk, scr);
        case IdleHandler => r := OnIdle(sb, all, id, clk, scr);
        case ReleaseHandler => r := OnRelease(sb, all, id, clk, scr);
      }
    }

    method OnScript(sb: Switchboard, ghost all: seq<Slot>, id: Event, clk: Clock, scr: Script) returns (r: Event)
      requires Linked(sb) && Among(all) && phase == Settled && handler == ScriptHandler
      modifies this, sb`timeslots, sb`buckets, sb`log, sb`acts, sb`drops, sb`tallies, sb.nodes
      ensures Linked(sb) && locks == old(locks)
      ensures var h := Whole(Calls.OnScript(sb.cfg, old(sb.State(all)), instance, id, clk, scr), instance, clk.wall);
              sb.State(all[instance := View()]) == h.core && r == h.id && unlocks == old(unlocks) + h.unlocked
    {
      hide Finish, BeginRelease, Calls.OnDisable, Calls.Disconnect, Calls.Hangup, OnStep, Stepped, SteppedActs, Whole, Switchboard.Valid;
      CarriedThrough(sb.cfg, sb.State(all), instance, clk.wall);
      NothingBegun(sb.State(all), instance, REJECT, clk.wall);
      r := id;
      match id {
        case DISABLE => r := OnDisable(sb, all, clk.wall);
        case RELEASE => Release(sb, all, clk.wall);
        case REJECT | SHUTDOWN | ENABLE => r := REJECT;
        case _ => OnTalk(sb, all, id, clk, scr);
      }
    }

    /** The script events that keep the slot in its call. */
    method OnTalk(sb: Switchboard, ghost all: seq<Slot>, id: Event, clk: Clock, scr: Script)
      requires kind == sb.cfg.kind && Among(all) && phase == Settled && (id == DROP || id == HANGUP || id == TIMEOUT)
      modifies this`connected, this`handler, this`tid, this`did, this`timer, sb`acts, sb`drops
      ensures Handled(sb.State(all[instance := View()]), id, 0) ==
              Whole(Calls.OnScript(sb.cfg, old(sb.State(all)), instance, id, clk, scr), instance, clk.wall)
    {
      TalkIsWhole(sb.cfg, sb.State(all), instance, id, clk, scr);
      match id {
        case DROP => Disconnect(sb);
        case HANGUP => Hangup(sb);
        case TIMEOUT => ScriptStep(sb, clk, scr);
      }
    }

    method OnOffline(sb: Switchboard, ghost all: seq<Slot>, id: Event, clk: Clock, scr: Script) returns (r: Event)
      requires Linked(sb) && Among(all) && phase == Settled && handler == OfflineHandler
      modifies this, sb`timeslots
      ensures Linked(sb) && locks == old(locks)
      ensures var h := Whole(Calls.OnOffline(old(sb.State(all)), instance, id), instance, clk.wall);
              sb.State(all[instance := View()]) == h.core && r == h.id && unlocks == old(unlocks) + h.unlocked
    {
      r := id;
      match id {
        case SHUTDOWN => SetIdle();
        case ENABLE =>
          Enable(sb, all);
          r := RELEASE;
        case _ => r := REJECT;
      }
    }

    method OnIdle(sb: Switchboard, ghost all: seq<Slot>, id: Event, clk: Clock, scr: Script) returns (r: Event)
      requires Linked(sb) && Among(all) && phase == Settled && handler == IdleHandler
      modifies this, sb`timeslots, sb`buckets, sb`log, sb`acts, sb`tallies, sb.nodes
      ensures Linked(sb) && locks == old(locks)
      ensures var h := Whole(Calls.OnIdle(sb.cfg, old(sb.State(all)), instance, id, clk.wall), instance, clk.wall);
              sb.State(all[instance := View()]) == h.core && r == h.id && unlocks == old(unlocks) + h.unlocked
    {
      r := id;
      match id {
        case DISABLE => r := OnDisable(sb, all, clk.wall);
        case SHUTDOWN => SetIdle();
        case _ => r := REJECT;
      }
    }

    method OnRelease(sb: Switchboard, ghost all: seq<Slot>, id: Event, clk: Clock, scr: Script) returns (r: Event)
      requires Linked(sb) && Among(all) && phase == Settled && handler == ReleaseHandler
      modifies this, sb`timeslots, sb`buckets, sb`log, sb`acts, sb`drops, sb`tallies, sb.nodes
      ensures Linked(sb) && locks == old(locks)
      ensures var h := Whole(Calls.OnRelease(sb.cfg, old(sb.State(all)), instance, id, clk.wall), instance, clk.wall);
              sb.State(all[instance := View()]) == h.core && r == h.id && unlocks == old(unlocks) + h.unlocked
    {
      hide Finish, Calls.OnDisable, Switchboard.Valid;
      r := id;
      match id {
        case DISABLE => r := OnDisable(sb, all, clk.wall);
        case SHUTDOWN => SetIdle();
        case TIMEOUT =>
          Release(sb, all, clk.wall);
          r := RELEASE;
        case RELEASE => Release(sb, all, clk.wall);
        case DROP =>
          sb.drops := sb.drops + [Heard(View(), |sb.acts|)];
          r := REJECT;
        case _ => r := REJECT;
      }
    }

    /** The virtual disable: the SIP driver rejects it. */
    method OnDisable(sb: Switchboard, ghost all: seq<Slot>, wall: nat) returns (r: Event)
      requires Linked(sb) && Among(all)
      modifies this, sb`timeslots, sb`buckets, sb`log, sb`acts, sb`tallies, sb.nodes
      ensures Linked(sb) && locks == old(locks)
      ensures var h := Calls.OnDisable(sb.cfg, old(sb.State(all)), instance, wall);
              sb.State(all[instance := View()]) == h.core && r == h.id && unlocks == old(unlocks) + h.unlocked
    {
      if kind == Sip {
        r := REJECT;
      } else {
        Disable(sb, all, wall);
        r := RELEASE;
      }
    }

    /** The mutex is taken once and given up once, except that disabling a slot in
        a call gives it up twice. */
    method Post(sb: Switchboard, ghost all: seq<Slot>, id: Event, clk: Clock, scr: Script) returns (r: Event)
      requires Linked(sb) && Among(all) && phase == Settled
      modifies this, sb`timeslots, sb`buckets, sb`log, sb`acts, sb`drops, sb`tallies, sb.nodes
      ensures Linked(sb)
      ensures var h := Calls.Post(sb.cfg, old(sb.State(all)), instance, id, clk, scr);
              sb.State(all[instance := View()]) == h.core && r == h.id
      ensures locks == old(locks) + 1
      ensures unlocks == old(unlocks) +
              if kind == Base && id == DISABLE && old(handler) != OfflineHandler && old(started) != 0 then 2 else 1
    {
      PostHandOff(sb.cfg, sb.State(all), instance, id, clk, scr);
      Lock();
      r := Dispatch(sb, all, id, clk, scr);
      if r != RELEASE {
        Unlock();
      }
    }

    /** Takes the mutex and leaves it taken for Expire. */
    method GetExpires(now: nat) returns (left: Option<nat>)
      modifies this`expires, this`timer, this`locks
      ensures locks == old(locks) + 1
      ensures expires == Remaining(old(timer), now)
      ensures View() == old(View()).(timer := if expires == Some(0) then None else old(timer))
      ensures left == (if expires == Some(0) then None else expires)
    {
      Lock();
      expires := Remaining(timer, now);
      left := expires;
      if expires == Some(0) {
        timer := None;
        left := None;
      }
    }

    method Expire(sb: Switchboard, ghost all: seq<Slot>, clk: Clock, scr: Script)
      requires Linked(sb) && Among(all) && phase == Settled
      modifies this, sb`timeslots, sb`buckets, sb`log, sb`acts, sb`drops, sb`tallies, sb.nodes
      ensures Linked(sb) && expires == None
      ensures locks == old(locks) && unlocks == old(unlocks) + 1
      ensures sb.State(all[instance := View()]) ==
              if old(expires) == Some(0) then Calls.Post(sb.cfg, old(sb.State(all)), instance, TIMEOUT, clk, scr).core
              else old(sb.State(all))
    {
      hide Switchboard.Valid;
      PostHandOff(sb.cfg, sb.State(all), instance, TIMEOUT, clk, scr);
      var id := TIMEOUT;
      if expires == Some(0) {
        id := Dispatch(sb, all, TIMEOUT, clk, scr);
      }
      expires := None;
      if id != RELEASE {
        Unlock();
      }
    }
  }

  /** A release is carried through all its sections, a disable has no more to come. */
  lemma CarriedThrough(cfg: Config, c: Core, i: nat, wall: nat)
    requires i < |c.slots| && c.slots[i].phase == Settled
    ensures BeginRelease(cfg, c, i, wall).slots[i].phase.GivingBack?
    ensures Whole(Handled(BeginRelease(cfg, c, i, wall), RELEASE, 1), i, wall) ==
            Handled(Finish(BeginRelease(cfg, c, i, wall), i, wall), RELEASE, 1)
    ensures Whole(Calls.OnDisable(cfg, c, i, wall), i, wall) == Calls.OnDisable(cfg, c, i, wall)
  {
  }

  /** A call that is released, in whichever handler, leaves its slot idle on top of
      the free list and out of its bucket, with one more STOP. */
  lemma PostReleases(cfg: Config, c: Core, i: nat, id: Event, clk: Clock, scr: Script)
    requires i < |c.slots| && c.slots[i].phase == Settled && InCall(c.slots[i])
    requires id == RELEASE || (id == TIMEOUT && c.slots[i].handler == ReleaseHandler)
    ensures var h := Calls.Post(cfg, c, i, id, clk, scr);
            && h.id == RELEASE && h.core.free == [i] + c.free
            && h.core.buckets == c.buckets[PathOf(c.slots[i].cid) := Delist(c.buckets[PathOf(c.slots[i].cid)], i)]
            && |h.core.log| == |c.log| + 1 && h.core.log[..|c.log|] == c.log
            && h.core.log[|c.log|].Stop? && h.core.log[|c.log|].slot == i && h.core.log[|c.log|].sequence == c.slots[i].sequence
            && var v := h.core.slots[i];
               v.handler == IdleHandler && v.started == 0 && v.timer == None && !v.connected && v.registry == None
  {
  }

  lemma NothingBegun(c: Core, i: nat, id: Event, wall: nat)
    requires i < |c.slots| && c.slots[i].phase == Settled
    ensures Whole(Handled(c, id, 0), i, wall) == Handled(c, id, 0)
  {
  }

  function Talk(cfg: Config, s: Slot, id: Event, ms: nat, scr: Script): Slot {
    if id == DROP then Gone(cfg.kind, s) else if id == HANGUP then HungUp(cfg.kind, s) else Stepped(cfg, s, ms, scr)
  }

  function TalkActs(cfg: Config, s: Slot, id: Event, scr: Script): seq<Act> {
    if id == DROP then GoneActs(cfg.kind, s) else if id == HANGUP then HangupActs(cfg.kind, s) else SteppedActs(cfg, s, scr)
  }

  function TalkDrops(s: Slot, id: Event, heard: nat): seq<Drop> { if id == DROP then [Heard(s, heard)] else [] }

  lemma TalkIsWhole(cfg: Config, c: Core, i: nat, id: Event, clk: Clock, scr: Script)
    requires i < |c.slots| && c.slots[i].phase == Settled && (id == DROP || id == HANGUP || id == TIMEOUT)
    ensures Whole(Calls.OnScript(cfg, c, i, id, clk, scr), i, clk.wall) ==
            Handled(c.Put(i, Talk(cfg, c.slots[i], id, clk.ms, scr))
                     .(acts := c.acts + TalkActs(cfg, c.slots[i], id, scr), drops := c.drops + TalkDrops(c.slots[i], id, |c.acts|)), id, 0)
  {
    assert c.drops + [] == c.drops;
  }

  // ---- order of the counters --------------------------------------------------------

  lemma {:induction false} RefundAppend(ns: seq<Node>, a: seq<nat>, b: seq<nat>, e: Entry, wall: nat)
    ensures RefundAll(ns, a + b, e, wall) == RefundAll(RefundAll(ns, a, e, wall), b, e, wall)
    decreases |a|
  {
    if a == [] {
      assert a + b == b;
    } else {
      assert (a + b)[1..] == a[1..] + b;
      RefundAppend(Refund(ns, a[0], e, wall), a[1..], b, e, wall);
    }
  }

  lemma {:induction false} AccountAppend(ns: seq<Node>, a: seq<nat>, b: seq<nat>, e: Entry)
    ensures AccountAll(ns, a + b, e) == AccountAll(AccountAll(ns, a, e), b, e)
    decreases |a|
  {
    if a == [] {
      assert a + b == b;
    } else {
      assert (a + b)[1..] == a[1..] + b;
      AccountAppend(Account(ns, a[0], e), a[1..], b, e);
    }
  }

  predicate Admitted(cfg: Config, ns: seq<Node>, r: nat)
    requires r < |cfg.regs|
  {
    match cfg.regs[r].node
    case None => true
    case Some(n) => n < |ns| ==> Admits(cfg.regs[r].limit, ns[n])
  }

  function RefundOne(ns: seq<Node>, n: Option<nat>, e: Entry, wall: nat): seq<Node> {
    if n.Some? then Refund(ns, n.value, e, wall) else ns
  }

  function AccountOne(ns: seq<Node>, n: Option<nat>, e: Entry): seq<Node> {
    if n.Some? then Account(ns, n.value, e) else ns
  }

  lemma OwedInOrder(cfg: Config, ns: seq<Node>, s: Slot, e: Entry, wall: nat)
    ensures RefundAll(ns, Owed(cfg, s), e, wall) ==
            RefundOne(RefundOne(RefundOne(Refund(ns, 0, e, wall), RegNode(cfg, s.registry), e, wall), s.span, e, wall), s.board, e, wall)
  {
    var a, b, c := One(RegNode(cfg, s.registry)), One(s.span), One(s.board);
    assert Owed(cfg, s) == [0] + a + b + c;
    RefundAppend(ns, [0] + a + b, c, e, wall);
    RefundAppend(ns, [0] + a, b, e, wall);
    RefundAppend(ns, [0], a, e, wall);
  }

  lemma SeatsInOrder(ns: seq<Node>, s: Slot, e: Entry)
    ensures AccountAll(ns, Seats(s), e) == AccountOne(AccountOne(Account(ns, 0, e), s.span, e), s.board, e)
  {
    var b, c := One(s.span), One(s.board);
    assert Seats(s) == [0] + b + c;
    AccountAppend(ns, [0] + b, c, e);
    AccountAppend(ns, [0], b, e);
  }

  function InviteDirect(cfg: Config, c: Core, reg: nat, cid: nat, clk: Clock, o: Outcome): Core
    requires reg < |cfg.regs| && (c.free != [] ==> c.free[0] < |c.slots|)
  {
    if !Admitted(cfg, c.nodes, reg) then c
    else
      var a := c.(nodes := AccountOne(c.nodes, cfg.regs[reg].node, INCOMING));
      var (b, found) := Assign(cfg, a, cid, INCOMING, Some(reg), clk.wall);
      match found
      case None => b.(nodes := RefundOne(b.nodes, cfg.regs[reg].node, INCOMING, clk.wall))
      case Some(i) => b.Put(i, Calls.Incoming(cfg, b.slots[i], o, clk.ms))
  }

  lemma InviteCases(cfg: Config, c: Core, reg: nat, cid: nat, clk: Clock, o: Outcome)
    requires reg < |cfg.regs| && (c.free != [] ==> c.free[0] < |c.slots|)
    ensures Exchange.InviteRun(cfg, c, reg, cid, clk, o) == InviteDirect(cfg, c, reg, cid, clk, o)
  {
  }

  // ---- what slots share ---------------------------------------------------------------

  class Switchboard {
    const cfg: Config
    var slots: seq<Timeslot>
    var timeslots: seq<nat>
    var buckets: Index
    var nodes: seq<Statmap>
    var registrations: seq<Registration>
    var log: seq<Record>
    ghost var acts: seq<Act>  // what went out on the wire, or came in
    ghost var drops: seq<Drop>
    ghost var tallies: seq<Node>

    /** The nodes hold `tallies`, and registrations count on them. */
    ghost predicate Valid()
      reads `nodes, `tallies, `registrations, nodes, registrations
    {
      && |nodes| == |tallies| > 0
      && NoDup(nodes)
      && (forall n :: 0 <= n < |nodes| ==> nodes[n].Valid() && nodes[n].View() == tallies[n])
      && |registrations| == |cfg.regs|
      && (forall r :: 0 <= r < |cfg.regs| ==> Counts(r))
    }

    ghost predicate Counts(r: nat)
      reads `nodes, `registrations, registrations
      requires r < |registrations| == |cfg.regs|
    {
      && registrations[r].limit == cfg.regs[r].limit
      && match cfg.regs[r].node
         case None => registrations[r].stats == null
         case Some(n) => n < |nodes| && registrations[r].stats == nodes[n]
    }

    ghost function State(all: seq<Slot>): Core
      reads this
    {
      Core(all, timeslots, buckets, tallies, log, acts, drops)
    }

    method Take(n: nat, e: Entry)
      requires Valid() && n < |nodes|
      modifies this`tallies, nodes
      ensures Valid() && tallies == Account(old(tallies), n, e)
    {
      nodes[n].Update(e);
      tallies := Account(tallies, n, e);
    }

    method Give(n: nat, e: Entry, wall: nat)
      requires Valid() && n < |nodes|
      modifies this`tallies, nodes
      ensures Valid() && tallies == Refund(old(tallies), n, e, wall)
    {
      nodes[n].Release(e, wall);
      tallies := Refund(tallies, n, e, wall);
    }

    method GiveRegistration(r: nat, e: Entry, wall: nat)
      requires Valid() && r < |registrations|
      modifies this`tallies, nodes
      ensures Valid() && tallies == RefundOne(old(tallies), cfg.regs[r].node, e, wall)
    {
      assert Counts(r);
      registrations[r].Release(e, wall);
      tallies := RefundOne(tallies, cfg.regs[r].node, e, wall);
    }

    method Attach(r: nat, e: Entry) returns (ok: bool)
      requires Valid() && r < |registrations|
      modifies this`tallies, nodes
      ensures Valid()
      ensures ok == Admitted(cfg, old(tallies), r)
      ensures tallies == if ok then AccountOne(old(tallies), cfg.regs[r].node, e) else old(tallies)
    {
      assert Counts(r);
      ok := registrations[r].Attach(e);
      if ok {
        tallies := AccountOne(tallies, cfg.regs[r].node, e);
      }
    }

    // ---- all slots together --------------------------------------------------

    /** Slots know their place and their links. */
    ghost predicate Populated()
      reads `slots, `nodes, `tallies, `registrations, slots, nodes, registrations
    {
      && Valid()
      && NoDup(slots)
      && (forall i :: 0 <= i < |slots| ==> slots[i].instance == i && slots[i].Fits(this))
    }

    ghost function Whole(): Core
      reads this, slots
    {
      State(Views(slots))
    }

    /** Driver::get(i)->post(event) */
    method PostTo(i: nat, id: Event, clk: Clock, scr: Script) returns (r: Event)
      requires Populated() && i < |slots| && slots[i].phase == Settled
      modifies slots, `timeslots, `buckets, `log, `acts, `drops, `tallies, nodes
      ensures Populated()
      ensures var h := Calls.Post(cfg, old(Whole()), i, id, clk, scr); Whole() == h.core && r == h.id
      ensures id == RELEASE && InCall(old(slots[i].View())) ==>
                && r == RELEASE && timeslots == [i] + old(timeslots) && |log| == |old(log)| + 1
                && slots[i].handler == IdleHandler && slots[i].started == 0 && slots[i].timer == None && !slots[i].connected
    {
      hide Calls.Post, Switchboard.Valid;
      if id == RELEASE && InCall(slots[i].View()) {
        PostReleases(cfg, Whole(), i, id, clk, scr);
      }
      ghost var all := Views(slots);
      r := slots[i].Post(this, all, id, clk, scr);
      ViewsAfter(all, i);
    }

    lemma ViewsAfter(all: seq<Slot>, i: nat)
      requires i < |slots| == |all| && forall j :: 0 <= j < |slots| && j != i ==> slots[j].View() == all[j]
      ensures Views(slots) == all[i := slots[i].View()]
    {
    }

    /** Timeslot::get */
    method Get(cid: nat) returns (found: Option<nat>)
      requires InRange(Whole())
      ensures found == Calls.Get(Whole(), cid)
    {
      var list := buckets[PathOf(cid)];
      ghost var all := Views(slots);
      var k := 0;
      found := None;
      while k < |list|
        invariant k <= |list| && found == None
        invariant Calls.Get(Whole(), cid) == Walk(all, list[k..], cid)
      {
        var i := list[k];
        assert slots[i].View() == all[i];
        if slots[i].cid == cid {
          if slots[i].started != 0 {
            found := Some(i);
          }
          return;
        }
        assert list[k..][1..] == list[k + 1..];
        k := k + 1;
      }
    }

    /** Timeslot::assign from the free list. */
    method Assign(reg: Option<nat>, stat: Entry, cid: nat, wall: nat) returns (found: Option<nat>)
      requires Populated() && (reg.Some? ==> reg.value < |registrations|)
      requires timeslots != [] ==> timeslots[0] < |slots|
      modifies slots, `timeslots, `buckets, `log, `tallies, nodes
      ensures Populated()
      ensures (Whole(), found) == Calls.Assign(cfg, old(Whole()), cid, stat, reg, wall)
    {
      if timeslots == [] {
        return None;
      }
      var i := timeslots[0];
      found := Some(i);
      ghost var all := Views(slots);
      slots[i].Allocate(this, all, cid, stat, reg, wall);
      ViewsAfter(all, i);
    }

    method Serve(i: nat, o: Outcome, now: nat)
      requires Populated() && i < |slots|
      modifies slots
      ensures Populated()
      ensures Whole() == old(Whole()).Put(i, Calls.Incoming(cfg, old(Whole()).slots[i], o, now))
    {
      ghost var all := Views(slots);
      slots[i].Incoming(cfg, o, now);
      ViewsAfter(all, i);
    }

    method Reserve(reg: nat) returns (ok: bool)
      requires Populated() && reg < |registrations|
      modifies `tallies, nodes
      ensures Populated() && ok == Admitted(cfg, old(tallies), reg)
      ensures Whole() == if ok then old(Whole()).(nodes := AccountOne(old(tallies), cfg.regs[reg].node, INCOMING)) else old(Whole())
    {
      ok := Attach(reg, INCOMING);
    }

    method Unreserve(reg: nat, wall: nat)
      requires Populated() && reg < |registrations|
      modifies `tallies, nodes
      ensures Populated()
      ensures Whole() == old(Whole()).(nodes := RefundOne(old(tallies), cfg.regs[reg].node, INCOMING, wall))
    {
      GiveRegistration(reg, INCOMING, wall);
    }

    /** thread::invite from the registration it found. */
    method Invite(reg: nat, cid: nat, clk: Clock, o: Outcome)
      requires Populated() && reg < |registrations|
      requires timeslots != [] ==> timeslots[0] < |slots|
      modifies slots, `timeslots, `buckets, `log, `tallies, nodes
      ensures Populated()
      ensures Whole() == Exchange.InviteRun(cfg, old(Whole()), reg, cid, clk, o)
    {
      InviteCases(cfg, Whole(), reg, cid, clk, o);
      var ok := Reserve(reg);
      if ok {
        var found := Assign(Some(reg), INCOMING, cid, clk.wall);
        if found == None {
          Unreserve(reg, clk.wall);
        } else {
          Serve(found.value, o, clk.ms);
        }
      }
    }
  }

  ghost function Views(slots: seq<Timeslot>): (r: seq<Slot>)
    reads slots
    ensures |r| == |slots| && forall i :: 0 <= i < |slots| ==> r[i] == slots[i].View()
  {
    seq(|slots|, i requires 0 <= i < |slots| reads slots => slots[i].View())
  }
}
