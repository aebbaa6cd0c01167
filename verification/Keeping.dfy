/** Every step of the exchange keeps its invariant. */
module Keeping {
  import opened Common
  import opened Stats
  import opened Calls
  import opened Exchange
  import Registry

  // ---- sums -------------------------------------------------------------------

  lemma {:induction false} SlotSumPut(cfg: Config, slots: seq<Slot>, i: nat, t: Slot, k: nat, n: nat, e: Entry)
    requires i < |slots| && k <= |slots|
    ensures SlotSum(cfg, slots[i := t], k, n, e) ==
            SlotSum(cfg, slots, k, n, e) + if i < k then Charge(cfg, t, n, e) - Charge(cfg, slots[i], n, e) else 0
  {
    if k > 0 {
      SlotSumPut(cfg, slots, i, t, k - 1, n, e);
    }
  }

  lemma {:induction false} HoldSumPut(cfg: Config, vs: seq<Invite>, t: nat, v: Invite, k: nat, n: nat, e: Entry)
    requires t < |vs| && k <= |vs|
    ensures HoldSum(cfg, vs[t := v], k, n, e) ==
            HoldSum(cfg, vs, k, n, e) + if t < k then Hold(cfg, v, n, e) - Hold(cfg, vs[t], n, e) else 0
  {
    if k > 0 {
      HoldSumPut(cfg, vs, t, v, k - 1, n, e);
    }
  }

  /** A reservation is still there: totals cannot underflow. */
  lemma {:induction false} HoldSumAtLeast(cfg: Config, vs: seq<Invite>, t: nat, k: nat, n: nat, e: Entry)
    requires t < k <= |vs|
    ensures HoldSum(cfg, vs, k, n, e) >= Hold(cfg, vs[t], n, e)
  {
    if t < k - 1 {
      HoldSumAtLeast(cfg, vs, t, k - 1, n, e);
    }
  }

  lemma {:induction false} SlotSumAtLeast(cfg: Config, slots: seq<Slot>, i: nat, k: nat, n: nat, e: Entry)
    requires i < k <= |slots|
    ensures SlotSum(cfg, slots, k, n, e) >= Charge(cfg, slots[i], n, e)
  {
    if i < k - 1 {
      SlotSumAtLeast(cfg, slots, i, k - 1, n, e);
    }
  }

  // ---- one slot changes, its charges do not --------------------------------------

  lemma ChargesKept(cfg: Config, s: System, s': System, i: nat, t: Slot)
    requires i < |s.core.slots| && s'.core.slots == s.core.slots[i := t]
    requires s'.core.nodes == s.core.nodes && s'.invites == s.invites
    requires forall n: nat, e: Entry :: Charge(cfg, t, n, e) == Charge(cfg, s.core.slots[i], n, e)
    requires CountsOk(cfg, s) && LimitsOk(cfg, s)
    ensures CountsOk(cfg, s') && LimitsOk(cfg, s')
  {
    forall n: nat, e: Entry ensures Total(cfg, s', n, e) == Total(cfg, s, n, e) {
      SlotSumPut(cfg, s.core.slots, i, t, |s.core.slots|, n, e);
    }
    forall r | 0 <= r < |cfg.regs| ensures Limited(cfg, s', r) {
      assert Limited(cfg, s, r);
    }
  }

  /** Totals that do not grow stay within the limits. */
  lemma LimitsFall(cfg: Config, s: System, s': System)
    requires LimitsOk(cfg, s)
    requires forall n: nat, e: Entry :: Total(cfg, s', n, e) <= Total(cfg, s, n, e)
    ensures LimitsOk(cfg, s')
  {
    forall r | 0 <= r < |cfg.regs| ensures Limited(cfg, s', r) {
      assert Limited(cfg, s, r);
    }
  }

  /** What a change inside a call may touch. */
  ghost predicate SameCall(s: Slot, t: Slot) {
    && InCall(s) && InCall(t) && s.phase == Settled
    && t == s.(handler := t.handler, connected := t.connected, tid := t.tid, did := t.did, timer := t.timer)
  }

  /** No farewell was said, or the one that leaves the call without another. */
  ghost predicate Spoken(s: Slot, t: Slot, acts: seq<Act>, acts': seq<Act>) {
    || (acts' == acts && (Live(t) ==> Live(s) || Silent(acts, s.call)))
    || (exists a :: acts' == acts + [a] && a.call == s.call && Live(s) && !Live(t))
  }

  lemma LocalKeeps(cfg: Config, s: System, i: nat, t: Slot, acts: seq<Act>)
    requires Inv(cfg, s) && i < |s.core.slots| && SameCall(s.core.slots[i], t)
    requires Spoken(s.core.slots[i], t, s.core.acts, acts)
    ensures Inv(cfg, s.(core := s.core.Put(i, t).(acts := acts)))
  {
    var c, c' := s.core, s.core.Put(i, t).(acts := acts);
    var s' := s.(core := c');
    ChargesKept(cfg, s, s', i, t);
    assert forall j :: 0 <= j < |c.slots| ==> OnFree(c', j) == OnFree(c, j);
    assert forall p: Path, j: nat :: OnBucket(c', p, j) == OnBucket(c, p, j);
    assert forall p: Path :: Descending(c'.slots, c'.buckets[p]) by {
      forall p: Path ensures Descending(c'.slots, c'.buckets[p]) {
        assert Descending(c.slots, c.buckets[p]);
      }
    }
    assert FreeOk(c') && BucketsOk(c');
    ActsKept(c, i, t, acts);
  }

  lemma ActsKept(c: Core, i: nat, t: Slot, acts: seq<Act>)
    requires i < |c.slots| && CallsOk(c) && ActsOk(c) && SlotsOk(c) && SameCall(c.slots[i], t)
    requires Spoken(c.slots[i], t, c.acts, acts)
    ensures ActsOk(c.Put(i, t).(acts := acts))
  {
    var c' := c.Put(i, t).(acts := acts);
    if acts != c.acts {
      var a :| acts == c.acts + [a] && a.call == c.slots[i].call && Live(c.slots[i]) && !Live(t);
      forall j | 0 <= j < |c'.slots| && InCall(c'.slots[j]) && Live(c'.slots[j])
        ensures Silent(acts, c'.slots[j].call)
      {
        assert j != i && Silent(c.acts, c.slots[j].call);
        assert c.slots[j].call != c.slots[i].call;
      }
    }
  }

  // ---- the sections of a release -------------------------------------------------

  lemma BeginKeeps(cfg: Config, s: System, i: nat, wall: nat)
    requires Inv(cfg, s) && i < |s.core.slots| && InCall(s.core.slots[i])
    ensures Inv(cfg, s.(core := BeginRelease(cfg, s.core, i, wall)))
  {
    var c, c' := s.core, BeginRelease(cfg, s.core, i, wall);
    var s' := s.(core := c');
    var t := c'.slots[i];
    ChargesKept(cfg, s, s', i, t);
    BeginLists(cfg, c, i, wall);
    BeginTrace(cfg, c, i, wall);
    BeginActs(cfg, c, i, wall);
    forall n: nat ensures Count(t.phase.owed, n) <= 1 {
      OwedOnce(cfg, c.slots[i], n);
    }
  }

  lemma BeginLists(cfg: Config, c: Core, i: nat, wall: nat)
    requires i < |c.slots| && InCall(c.slots[i]) && SlotsOk(c) && FreeOk(c) && BucketsOk(c) && CallsOk(c)
    ensures var c' := BeginRelease(cfg, c, i, wall); SlotsOk(c') && FreeOk(c') && BucketsOk(c') && CallsOk(c')
  {
    var c' := BeginRelease(cfg, c, i, wall);
    assert forall j: nat :: OnFree(c', j) == OnFree(c, j);
    assert forall p: Path, j: nat :: OnBucket(c', p, j) == OnBucket(c, p, j);
    forall p: Path ensures Descending(c'.slots, c'.buckets[p]) {
      assert Descending(c.slots, c.buckets[p]);
    }
  }

  lemma {:induction false} ReadPrefix(log: seq<Record>, more: seq<Record>, i: nat, k: nat)
    requires k <= |log|
    ensures Read(log + more, i, k) == Read(log, i, k)
  {
    if k > 0 {
      ReadPrefix(log, more, i, k - 1);
    }
  }

  lemma BeginTrace(cfg: Config, c: Core, i: nat, wall: nat)
    requires i < |c.slots| && InCall(c.slots[i]) && TraceOk(c)
    ensures TraceOk(BeginRelease(cfg, c, i, wall))
  {
    var c' := BeginRelease(cfg, c, i, wall);
    var r := StopRecord(c.slots[i], i, wall);
    assert c'.log == c.log + [r];
    forall j | 0 <= j < |c.slots|
      ensures Read(c'.log, j, |c'.log|) ==
              if InCall(c'.slots[j]) then Open(c'.slots[j].sequence, c'.slots[j].started) else Closed(c'.slots[j].sequence)
    {
      ReadPrefix(c.log, [r], j, |c.log|);
    }
  }

  lemma BeginActs(cfg: Config, c: Core, i: nat, wall: nat)
    requires cfg.kind == Sip && i < |c.slots| && InCall(c.slots[i]) && CallsOk(c) && ActsOk(c)
    ensures ActsOk(BeginRelease(cfg, c, i, wall))
  {
    var c' := BeginRelease(cfg, c, i, wall);
    assert c'.acts == c.acts + Farewell(c.slots[i]);
    assert |c'.log| == |c.log| + 1;
    forall j | 0 <= j < |c'.slots| && InCall(c'.slots[j]) && Live(c'.slots[j])
      ensures Silent(c'.acts, c'.slots[j].call)
    {
      assert j != i && Silent(c.acts, c.slots[j].call);
      assert c.slots[j].call != c.slots[i].call;
    }
  }

  lemma GiveBackKeeps(cfg: Config, s: System, i: nat, wall: nat)
    requires Inv(cfg, s) && i < |s.core.slots| && s.core.slots[i].phase.GivingBack?
    ensures Inv(cfg, s.(core := GiveBack(s.core, i, wall)))
  {
    var c, c' := s.core, GiveBack(s.core, i, wall);
    var s' := s.(core := c');
    assert SlotOk(c.slots[i]);
    assert forall j: nat :: OnFree(c', j) == OnFree(c, j);
    assert forall p: Path, j: nat :: OnBucket(c', p, j) == OnBucket(c, p, j);
    forall p: Path ensures Descending(c'.slots, c'.buckets[p]) {
      assert Descending(c.slots, c.buckets[p]);
    }
    if c.slots[i].phase.owed == [] {
      ChargesKept(cfg, s, s', i, c'.slots[i]);
    } else {
      GiveBackCounts(cfg, s, i, wall);
      var owed := c.slots[i].phase.owed;
      assert forall n: nat :: Count(owed[1..], n) <= Count(owed, n) <= 1;
    }
  }

  lemma GiveBackCounts(cfg: Config, s: System, i: nat, wall: nat)
    requires CountsOk(cfg, s) && LimitsOk(cfg, s)
    requires i < |s.core.slots| && s.core.slots[i].phase.GivingBack? && s.core.slots[i].phase.owed != []
    requires !InCall(s.core.slots[i])
    ensures var s' := s.(core := GiveBack(s.core, i, wall)); CountsOk(cfg, s') && LimitsOk(cfg, s')
  {
    var c, c' := s.core, GiveBack(s.core, i, wall);
    var s' := s.(core := c');
    var v, t := c.slots[i], c'.slots[i];
    var m := v.phase.owed[0];
    forall n: nat, e: Entry
      ensures Total(cfg, s', n, e) == Total(cfg, s, n, e) - if n == m && e == v.entry then 1 else 0
    {
      SlotSumPut(cfg, c.slots, i, t, |c.slots|, n, e);
    }
    forall n: nat, e: Entry | n < |c.nodes| ensures c'.nodes[n].At(e).current == Total(cfg, s', n, e) % SHORT {
      assert c.nodes[n].At(e).current == Total(cfg, s, n, e) % SHORT;
      WrapDown(Total(cfg, s, n, e), SHORT);
    }
    LimitsFall(cfg, s, s');
  }

  lemma RelinkKeeps(cfg: Config, s: System, i: nat)
    requires Inv(cfg, s) && i < |s.core.slots| && s.core.slots[i].phase.Relinking?
    ensures Inv(cfg, s.(core := Relink(s.core, i)))
  {
    var c, c' := s.core, Relink(s.core, i);
    var s' := s.(core := c');
    assert SlotOk(c.slots[i]);
    ChargesKept(cfg, s, s', i, c'.slots[i]);
    RelinkLists(c, i);
  }

  lemma RelinkLists(c: Core, i: nat)
    requires i < |c.slots| && c.slots[i].phase.Relinking? && c.slots[i].handler == IdleHandler
    requires SlotsOk(c) && FreeOk(c) && BucketsOk(c)
    ensures var c' := Relink(c, i); FreeOk(c') && BucketsOk(c')
  {
    var c' := Relink(c, i);
    var path := c.slots[i].phase.path;
    var b, b' := c.buckets[path], c'.buckets[path];
    assert SlotOk(c.slots[i]) && Descending(c.slots, b);
    DescendingNoDup(c.slots, b);
    DelistMembers(b, i);
    assert FreeOk(c') by {
      assert !OnFree(c, i);
      assert i !in c.free;
      assert forall j: nat :: OnFree(c', j) <==> OnFree(c, j) || j == i;
      assert forall j: nat :: j in c'.free <==> j in c.free || j == i;
    }
    forall p: Path ensures Descending(c'.slots, c'.buckets[p]) {
      assert Descending(c.slots, c.buckets[p]);
      if p == path {
        DescendingDelist(c.slots, b, i);
      }
      assert forall j :: 0 <= j < |c.slots| ==> c'.slots[j].call == c.slots[j].call;
    }
    forall p: Path, j: nat ensures j in c'.buckets[p] <==> OnBucket(c', p, j) {
      assert j in c.buckets[p] <==> OnBucket(c, p, j);
    }
  }

  lemma DescendingNoDup(slots: seq<Slot>, list: seq<nat>)
    requires Descending(slots, list)
    ensures NoDup(list)
  {
    forall j, k | 0 <= j < k < |list| ensures list[j] != list[k] {
      assert slots[list[j]].call > slots[list[k]].call;
    }
  }

  function Skip(p: nat, k: nat): nat { if k < p then k else k + 1 }

  lemma DescendingDelist(slots: seq<Slot>, list: seq<nat>, i: nat)
    requires Descending(slots, list)
    ensures Descending(slots, Delist(list, i))
  {
    if i in list {
      Thinned(slots, list, Delist(list, i), IndexOf(list, i));
    }
  }

  lemma Thinned(slots: seq<Slot>, list: seq<nat>, r: seq<nat>, p: nat)
    requires Descending(slots, list) && |r| == |list| - 1
    requires forall k :: 0 <= k < |r| ==> r[k] == list[Skip(p, k)]
    ensures Descending(slots, r)
  {
    forall j, k | 0 <= j < k < |r| ensures slots[r[j]].call > slots[r[k]].call {
      assert Skip(p, j) < Skip(p, k);
    }
  }

  // ---- invites ----------------------------------------------------------------

  lemma AccountStep(cfg: Config, s: System, s': System, n: nat, e: Entry)
    requires CountsOk(cfg, s) && s'.core.nodes == Account(s.core.nodes, n, e)
    requires forall m: nat, d: Entry :: Total(cfg, s', m, d) == Total(cfg, s, m, d) + if m == n && d == e then 1 else 0
    ensures CountsOk(cfg, s')
  {
    forall m: nat, d: Entry | m < |s.core.nodes| ensures s'.core.nodes[m].At(d).current == Total(cfg, s', m, d) % SHORT {
      assert s.core.nodes[m].At(d).current == Total(cfg, s, m, d) % SHORT;
      WrapUp(Total(cfg, s, m, d), SHORT);
    }
  }

  lemma OwedOnce(cfg: Config, s: Slot, n: nat)
    requires s.span == None && s.board == None
    requires RegNode(cfg, s.registry) != Some(0)
    ensures Count(Owed(cfg, s), n) == (if n == 0 then 1 else 0) + if RegNode(cfg, s.registry) == Some(n) then 1 else 0
    ensures Count(Owed(cfg, s), n) <= 1
  {
    var r := RegNode(cfg, s.registry);
    if r.Some? {
      assert Owed(cfg, s) == [0, r.value] && [0, r.value][1..] == [r.value] && [r.value][1..] == [];
      assert Count([r.value], n) == if r == Some(n) then 1 else 0;
    } else {
      assert Owed(cfg, s) == [0] && [0][1..] == [];
    }
  }

  lemma ChargeOnce(cfg: Config, s: System, i: nat, n: nat)
    requires Sound(cfg, |s.core.nodes|)
    requires i < |s.core.slots| && SipSlot(s.core.slots[i])
    ensures Charge(cfg, s.core.slots[i], n, INCOMING) + Charge(cfg, s.core.slots[i], n, OUTGOING) <= 1
  {
    OwedOnce(cfg, s.core.slots[i], n);
  }

  lemma {:induction false} SlotSumBound(cfg: Config, s: System, k: nat, n: nat)
    requires Sound(cfg, |s.core.nodes|)
    requires k <= |s.core.slots| && forall i :: 0 <= i < k ==> SipSlot(s.core.slots[i])
    ensures SlotSum(cfg, s.core.slots, k, n, INCOMING) + SlotSum(cfg, s.core.slots, k, n, OUTGOING) <= k
  {
    if k > 0 {
      SlotSumBound(cfg, s, k - 1, n);
      ChargeOnce(cfg, s, k - 1, n);
    }
  }

  lemma {:induction false} HoldSumBound(cfg: Config, vs: seq<Invite>, k: nat, n: nat)
    requires k <= |vs|
    ensures HoldSum(cfg, vs, k, n, INCOMING) <= k && HoldSum(cfg, vs, k, n, OUTGOING) == 0
  {
    if k > 0 {
      HoldSumBound(cfg, vs, k - 1, n);
    }
  }

  /** Under such a limit the sixteen-bit fields are the true totals. */
  lemma ActiveIsTotal(cfg: Config, s: System, r: nat)
    requires Inv(cfg, s) && r < |cfg.regs| && cfg.regs[r].node.Some? && 0 < cfg.regs[r].limit < SHORT
    ensures var n := cfg.regs[r].node.value;
            && n < |s.core.nodes|
            && (forall e: Entry :: s.core.nodes[n].At(e).current == Total(cfg, s, n, e) < SHORT)
            && s.core.nodes[n].Active() == Total(cfg, s, n, INCOMING) + Total(cfg, s, n, OUTGOING)
  {
    var n := cfg.regs[r].node.value;
    assert Limited(cfg, s, r);
    forall e: Entry ensures s.core.nodes[n].At(e).current == Total(cfg, s, n, e) < SHORT {
      assert s.core.nodes[n].At(e).current == Total(cfg, s, n, e) % SHORT;
      assert e == INCOMING || e == OUTGOING;
    }
    assert s.core.nodes[n].At(INCOMING).current == Total(cfg, s, n, INCOMING);
    assert s.core.nodes[n].At(OUTGOING).current == Total(cfg, s, n, OUTGOING);
  }

  lemma HoldChange(cfg: Config, s: System, s': System, t: nat, v: Invite)
    requires t < |s.invites| && s'.invites == s.invites[t := v] && s'.core.slots == s.core.slots
    ensures forall n: nat, e: Entry ::
              Total(cfg, s', n, e) == Total(cfg, s, n, e) + Hold(cfg, v, n, e) - Hold(cfg, s.invites[t], n, e)
  {
    forall n: nat, e: Entry
      ensures Total(cfg, s', n, e) == Total(cfg, s, n, e) + Hold(cfg, v, n, e) - Hold(cfg, s.invites[t], n, e)
    {
      HoldSumPut(cfg, s.invites, t, v, |s.invites|, n, e);
    }
  }

  lemma AttachKeeps(cfg: Config, s: System, t: nat, reg: nat, cid: nat)
    requires Inv(cfg, s) && t < |s.invites| && s.invites[t].Ready? && reg < |cfg.regs|
    ensures Inv(cfg, Attach(cfg, s, t, reg, cid))
  {
    var s' := Attach(cfg, s, t, reg, cid);
    if s' != s {
      HoldChange(cfg, s, s', t, Reserved(reg, cid));
      if cfg.regs[reg].node == None {
        LimitsFall(cfg, s, s');
      } else {
        AccountStep(cfg, s, s', cfg.regs[reg].node.value, INCOMING);
        if 0 < cfg.regs[reg].limit < SHORT {
          ActiveIsTotal(cfg, s, reg);
        }
        forall r | 0 <= r < |cfg.regs| ensures Limited(cfg, s', r) {
          assert Limited(cfg, s, r);
        }
      }
    }
  }

  lemma UndoKeeps(cfg: Config, s: System, t: nat, wall: nat)
    requires Inv(cfg, s) && t < |s.invites| && s.invites[t].Refused?
    ensures Inv(cfg, Undo(cfg, s, t, wall))
  {
    var s' := Undo(cfg, s, t, wall);
    HoldChange(cfg, s, s', t, Ready);
    forall n: nat, e: Entry | n < |s.core.nodes| ensures s'.core.nodes[n].At(e).current == Total(cfg, s', n, e) % SHORT {
      assert s.core.nodes[n].At(e).current == Total(cfg, s, n, e) % SHORT;
      WrapDown(Total(cfg, s, n, e), SHORT);
    }
    LimitsFall(cfg, s, s');
  }

  // ---- taking a slot ---------------------------------------------------------------

  lemma AllocateLists(cfg: Config, c: Core, i: nat, cid: nat, e: Entry, reg: Option<nat>, wall: nat)
    requires OnFree(c, i) && wall > 0
    requires SlotsOk(c) && FreeOk(c) && BucketsOk(c) && CallsOk(c)
    ensures var c' := Allocate(cfg, c, i, cid, e, reg, wall);
            SlotsOk(c') && FreeOk(c') && BucketsOk(c') && CallsOk(c')
  {
    hide Descending, AccountAll;
    var c' := Allocate(cfg, c, i, cid, e, reg, wall);
    assert SlotOk(c.slots[i]);
    DelistMembers(c.free, i);
    assert FreeOk(c') by {
      assert forall j: nat :: OnFree(c', j) <==> OnFree(c, j) && j != i;
    }
    forall p: Path, j: nat ensures j in c'.buckets[p] <==> OnBucket(c', p, j) {
      assert j in c.buckets[p] <==> OnBucket(c, p, j);
    }
    forall p: Path ensures Descending(c'.slots, c'.buckets[p]) {
      AllocateOrder(cfg, c, i, cid, e, reg, wall, p);
    }
  }

  lemma AllocateOrder(cfg: Config, c: Core, i: nat, cid: nat, e: Entry, reg: Option<nat>, wall: nat, p: Path)
    requires OnFree(c, i)
    requires FreeOk(c) && BucketsOk(c) && CallsOk(c)
    ensures var c' := Allocate(cfg, c, i, cid, e, reg, wall); Descending(c'.slots, c'.buckets[p])
  {
    var c' := Allocate(cfg, c, i, cid, e, reg, wall);
    var b := c.buckets[p];
    assert Descending(c.slots, b);
    forall k | 0 <= k < |b| ensures b[k] != i && c'.slots[b[k]] == c.slots[b[k]] && c.slots[b[k]].call < |c.log| {
      assert b[k] in b;
      assert OnBucket(c, p, b[k]) && !OnBucket(c, p, i);
    }
    assert c'.slots[i].call == |c.log|;
    if p == PathOf(cid) {
      assert c'.buckets[p] == [i] + b;
    }
  }

  lemma AllocateTrace(cfg: Config, c: Core, i: nat, cid: nat, e: Entry, reg: Option<nat>, wall: nat)
    requires OnFree(c, i) && TraceOk(c)
    ensures TraceOk(Allocate(cfg, c, i, cid, e, reg, wall))
  {
    var c' := Allocate(cfg, c, i, cid, e, reg, wall);
    var r := Start(i, c'.slots[i].sequence, wall);
    assert c'.log == c.log + [r];
    forall j | 0 <= j < |c.slots|
      ensures Read(c'.log, j, |c'.log|) ==
              if InCall(c'.slots[j]) then Open(c'.slots[j].sequence, c'.slots[j].started) else Closed(c'.slots[j].sequence)
    {
      ReadPrefix(c.log, [r], j, |c.log|);
    }
  }

  lemma AllocateActs(cfg: Config, c: Core, cid: nat, e: Entry, reg: Option<nat>, wall: nat)
    requires cfg.kind == Sip && c.free != [] && c.free[0] < |c.slots| && FreeOk(c) && SlotsOk(c) && ActsOk(c)
    ensures var c' := Allocate(cfg, c, c.free[0], cid, e, reg, wall);
            ActsOk(c') && Silent(c'.acts, c'.slots[c.free[0]].call)
  {
    var i := c.free[0];
    var c' := Allocate(cfg, c, i, cid, e, reg, wall);
    assert i in c.free && OnFree(c, i) && SlotOk(c.slots[i]);
    assert c'.slots[i].handler == ReleaseHandler;
  }

  /** Taking the slot turns the invite's reservation into the slot's charge. */
  lemma AllocateCounts(cfg: Config, s: System, s': System, t: nat, wall: nat)
    requires Sound(cfg, |s.core.nodes|) && CountsOk(cfg, s) && LimitsOk(cfg, s)
    requires t < |s.invites| && s.invites[t].Reserved? && s.core.free != []
    requires FreeOk(s.core) && OnFree(s.core, s.core.free[0]) && SipSlot(s.core.slots[s.core.free[0]])
    requires s' == System(Allocate(cfg, s.core, s.core.free[0], s.invites[t].cid, INCOMING, Some(s.invites[t].reg), wall),
                          s.invites[t := Ready])
    ensures CountsOk(cfg, s') && LimitsOk(cfg, s')
    ensures forall n: nat, e: Entry :: Total(cfg, s', n, e) == Total(cfg, s, n, e) + if n == 0 && e == INCOMING then 1 else 0
  {
    var c, c', i := s.core, s'.core, s.core.free[0];
    var v := c'.slots[i];
    assert Seats(c.slots[i]) == [0];
    assert Seats(v) == [0] && [0][1..] == [];
    assert c'.nodes == Account(c.nodes, 0, INCOMING);
    forall n: nat, e: Entry
      ensures Total(cfg, s', n, e) == Total(cfg, s, n, e) + if n == 0 && e == INCOMING then 1 else 0
    {
      SlotSumPut(cfg, c.slots, i, v, |c.slots|, n, e);
      HoldSumPut(cfg, s.invites, t, Ready, |s.invites|, n, e);
      OwedOnce(cfg, v, n);
    }
    AccountStep(cfg, s, s', 0, INCOMING);
    forall r | 0 <= r < |cfg.regs| ensures Limited(cfg, s', r) {
      assert Limited(cfg, s, r);
    }
  }

  lemma ClaimKeeps(cfg: Config, s: System, t: nat, clk: Clock, o: Outcome)
    requires Inv(cfg, s) && Enabled(cfg, s, DoClaim(t, clk, o))
    ensures Inv(cfg, Claim(cfg, s, t, clk, o))
  {
    var c := s.core;
    var Reserved(reg, cid) := s.invites[t];
    if c.free == [] {
      var s' := Claim(cfg, s, t, clk, o);
      HoldChange(cfg, s, s', t, Refused(reg));
      LimitsFall(cfg, s, s');
    } else {
      var i := c.free[0];
      assert i in c.free && OnFree(c, i);
      var a := System(Allocate(cfg, c, i, cid, INCOMING, Some(reg), clk.wall), s.invites[t := Ready]);
      AllocateLists(cfg, c, i, cid, INCOMING, Some(reg), clk.wall);
      AllocateTrace(cfg, c, i, cid, INCOMING, Some(reg), clk.wall);
      AllocateActs(cfg, c, cid, INCOMING, Some(reg), clk.wall);
      AllocateCounts(cfg, s, a, t, clk.wall);
      assert Inv(cfg, a);
      assert SlotOk(c.slots[i]);
      var v := Incoming(cfg, a.core.slots[i], o, clk.ms);
      LocalKeeps(cfg, a, i, v, a.core.acts);
      assert a.core.Put(i, v).(acts := a.core.acts) == a.core.Put(i, v);
    }
  }

  // ---- events ----------------------------------------------------------------------

  lemma HangupKeeps(cfg: Config, s: System, i: nat)
    requires Inv(cfg, s) && i < |s.core.slots| && InCall(s.core.slots[i])
    ensures Inv(cfg, s.(core := Hangup(cfg, s.core, i)))
  {
    var v := s.core.slots[i];
    assert SlotOk(v);
    SpokenFarewell(s.core.acts, v, HungUp(Sip, v), HangupActs(Sip, v));
    LocalKeeps(cfg, s, i, HungUp(Sip, v), s.core.acts + HangupActs(Sip, v));
  }

  /** The DROPs that were heard touch nothing of the rest. */
  lemma DropsAside(cfg: Config, s: System, drops: seq<Drop>)
    requires Inv(cfg, s)
    ensures Inv(cfg, s.(core := s.core.(drops := drops)))
  {
    var s' := s.(core := s.core.(drops := drops));
    assert forall n: nat, e: Entry :: Total(cfg, s', n, e) == Total(cfg, s, n, e);
    assert forall i: nat :: OnFree(s'.core, i) == OnFree(s.core, i);
    assert forall p: Path, i: nat :: OnBucket(s'.core, p, i) == OnBucket(s.core, p, i);
    forall r | 0 <= r < |cfg.regs| ensures Limited(cfg, s', r) {
      assert Limited(cfg, s, r);
    }
  }

  lemma DisconnectKeeps(cfg: Config, s: System, i: nat)
    requires Inv(cfg, s) && i < |s.core.slots| && s.core.slots[i].handler == ScriptHandler
    ensures Inv(cfg, s.(core := Disconnect(cfg, s.core, i)))
  {
    var v := s.core.slots[i];
    assert SlotOk(v);
    SpokenFarewell(s.core.acts, v, Gone(Sip, v), GoneActs(Sip, v));
    LocalKeeps(cfg, s, i, Gone(Sip, v), s.core.acts + GoneActs(Sip, v));
    DropsAside(cfg, s.(core := s.core.Put(i, Gone(Sip, v)).(acts := s.core.acts + GoneActs(Sip, v))), Disconnect(cfg, s.core, i).drops);
  }

  /** At most one word, and only from a live call that it ends. */
  lemma SpokenFarewell(acts: seq<Act>, s: Slot, t: Slot, said: seq<Act>)
    requires |said| <= 1 && (said == [] ==> Live(t) ==> Live(s))
    requires said != [] ==> said[0].call == s.call && Live(s) && !Live(t)
    ensures Spoken(s, t, acts, acts + said)
  {
    if said == [] {
      assert acts + said == acts;
    } else {
      assert said == [said[0]];
    }
  }

  /** A change that says nothing. */
  lemma QuietKeeps(cfg: Config, s: System, i: nat, t: Slot)
    requires Inv(cfg, s) && i < |s.core.slots| && SameCall(s.core.slots[i], t)
    requires Live(t) ==> Live(s.core.slots[i])
    ensures Inv(cfg, s.(core := s.core.Put(i, t)))
  {
    LocalKeeps(cfg, s, i, t, s.core.acts);
    assert s.core.Put(i, t).(acts := s.core.acts) == s.core.Put(i, t);
  }

  lemma StepKeeps(cfg: Config, s: System, i: nat, ms: nat, scr: Script)
    requires Inv(cfg, s) && i < |s.core.slots| && s.core.slots[i].handler == ScriptHandler
    ensures Inv(cfg, s.(core := OnStep(cfg, s.core, i, ms, scr)))
  {
    var v := s.core.slots[i];
    assert SlotOk(v);
    SpokenFarewell(s.core.acts, v, Stepped(cfg, v, ms, scr), SteppedActs(cfg, v, scr));
    LocalKeeps(cfg, s, i, Stepped(cfg, v, ms, scr), s.core.acts + SteppedActs(cfg, v, scr));
  }

  lemma HandleKeeps(cfg: Config, s: System, i: nat, id: Event, clk: Clock, scr: Script)
    requires Inv(cfg, s) && i < |s.core.slots| && id != SHUTDOWN
    ensures Inv(cfg, s.(core := Handle(cfg, s.core, i, id, clk, scr).core))
  {
    var c := s.core;
    assert s.(core := c) == s;
    match c.slots[i].handler {
      case ScriptHandler =>
        match id {
          case RELEASE => BeginKeeps(cfg, s, i, clk.wall);
          case DROP => DisconnectKeeps(cfg, s, i);
          case HANGUP => HangupKeeps(cfg, s, i);
          case TIMEOUT => StepKeeps(cfg, s, i, clk.ms, scr);
          case _ =>
        }
      case ReleaseHandler =>
        if id == TIMEOUT || id == RELEASE {
          BeginKeeps(cfg, s, i, clk.wall);
        } else if id == DROP {
          DropsAside(cfg, s, Handle(cfg, c, i, id, clk, scr).core.drops);
        }
      case IdleHandler =>
      case OfflineHandler =>
        assert false;
    }
  }

  lemma ExpireKeeps(cfg: Config, s: System, i: nat, clk: Clock, scr: Script)
    requires Inv(cfg, s) && Enabled(cfg, s, DoExpire(i, clk, scr))
    ensures Inv(cfg, s.(core := Expire(cfg, s.core, i, clk, scr).core))
  {
    var v := s.core.slots[i];
    assert SlotOk(v) && SipSlot(v);
    assert InCall(v);
    var a := s.(core := s.core.Put(i, v.(timer := None)));
    QuietKeeps(cfg, s, i, v.(timer := None));
    HandleKeeps(cfg, a, i, TIMEOUT, clk, scr);
  }

  // ---- whole runs -------------------------------------------------------------------

  lemma NextKeeps(cfg: Config, s: System, step: Step)
    requires Inv(cfg, s) && Enabled(cfg, s, step)
    ensures Inv(cfg, Next(cfg, s, step))
  {
    match step
    case DoAttach(t, reg, cid) => AttachKeeps(cfg, s, t, reg, cid);
    case DoClaim(t, clk, o) => ClaimKeeps(cfg, s, t, clk, o);
    case DoUndo(t, wall) => UndoKeeps(cfg, s, t, wall);
    case DoPost(i, id, clk, scr) => HandleKeeps(cfg, s, i, id, clk, scr);
    case DoExpire(i, clk, scr) => ExpireKeeps(cfg, s, i, clk, scr);
    case DoGiveBack(i, wall) => GiveBackKeeps(cfg, s, i, wall);
    case DoRelink(i) => RelinkKeeps(cfg, s, i);
  }

  lemma {:induction false} EmptySums(cfg: Config, s: System, k: nat, n: nat, e: Entry)
    requires forall i :: 0 <= i < |s.core.slots| ==> Blank(s.core.slots[i])
    requires forall t :: 0 <= t < |s.invites| ==> s.invites[t] == Ready
    ensures k <= |s.core.slots| ==> SlotSum(cfg, s.core.slots, k, n, e) == 0
    ensures k <= |s.invites| ==> HoldSum(cfg, s.invites, k, n, e) == 0
  {
    if k > 0 {
      EmptySums(cfg, s, k - 1, n, e);
    }
  }

  lemma InitHolds(cfg: Config, s: System)
    requires Init(cfg, s)
    ensures Inv(cfg, s) && TimersOk(s.core)
  {
    var c := s.core;
    forall n: nat, e: Entry ensures Total(cfg, s, n, e) == 0 {
      EmptySums(cfg, s, |c.slots|, n, e);
      EmptySums(cfg, s, |s.invites|, n, e);
    }
    assert FreeOk(c) by {
      forall i: nat ensures i in c.free <==> OnFree(c, i) {
        if i < |c.slots| {
          assert c.free[|c.slots| - 1 - i] == i;
        }
      }
    }
    assert LimitsOk(cfg, s) by {
      forall r | 0 <= r < |cfg.regs| ensures Limited(cfg, s, r) {}
    }
  }

  /** An event concerns its own slot only. */
  lemma TouchesOnly(cfg: Config, c: Core, i: nat, id: Event, clk: Clock, scr: Script, j: nat)
    requires cfg.kind == Sip && i < |c.slots| && j < |c.slots| && i != j
    ensures Handle(cfg, c, i, id, clk, scr).core.slots[j] == c.slots[j]
  {
  }

  lemma HandleTimer(cfg: Config, c: Core, i: nat, id: Event, clk: Clock, scr: Script)
    requires cfg.kind == Sip && i < |c.slots| && c.slots[i].handler != OfflineHandler
    requires c.slots[i].handler == ScriptHandler && id != TIMEOUT ==> c.slots[i].timer.Some?
    ensures var v := Handle(cfg, c, i, id, clk, scr).core.slots[i]; v.handler == ScriptHandler ==> v.timer.Some?
  {
  }

  /** Every section of the code that leaves a slot in its script leaves the
      slot's timer armed. */
  lemma TimersKeep(cfg: Config, s: System, step: Step)
    requires Inv(cfg, s) && TimersOk(s.core) && Enabled(cfg, s, step)
    ensures TimersOk(Next(cfg, s, step).core)
  {
    var c := s.core;
    if step.DoPost? {
      assert SipSlot(c.slots[step.i]);
      HandleTimer(cfg, c, step.i, step.id, step.clk, step.scr);
      forall j | 0 <= j < |c.slots| && j != step.i ensures Next(cfg, s, step).core.slots[j] == c.slots[j] {
        TouchesOnly(cfg, c, step.i, step.id, step.clk, step.scr, j);
      }
    } else if step.DoExpire? {
      assert SipSlot(c.slots[step.i]);
      var d := c.Put(step.i, c.slots[step.i].(timer := None));
      HandleTimer(cfg, d, step.i, TIMEOUT, step.clk, step.scr);
      forall j | 0 <= j < |c.slots| && j != step.i ensures Next(cfg, s, step).core.slots[j] == c.slots[j] {
        TouchesOnly(cfg, d, step.i, TIMEOUT, step.clk, step.scr, j);
      }
    } else if step.DoClaim? && c.free != [] {
      assert c.free[0] in c.free && OnFree(c, c.free[0]);
      assert SlotOk(c.slots[c.free[0]]);
    }
  }

  /** The invariant holds at every point of every run. */
  lemma {:induction false} Safety(cfg: Config, s: System, steps: seq<Step>, s': System)
    requires Inv(cfg, s) && TimersOk(s.core) && Runs(cfg, s, steps, s')
    ensures Inv(cfg, s') && TimersOk(s'.core)
    decreases |steps|
  {
    if steps != [] {
      NextKeeps(cfg, s, steps[0]);
      TimersKeep(cfg, s, steps[0]);
      Safety(cfg, Next(cfg, s, steps[0]), steps[1..], s');
    }
  }
}
