/** The pointers follow the exchange: through every run the chains of module Links
    spell the free list and the buckets. */
module Wiring {
  import opened Common
  import opened Calls
  import opened Exchange
  import Keeping
  import L = Links
  import Theorems

  /** The free list and the buckets, in the order of their heads. */
  function Lists(c: Core): (r: seq<seq<nat>>)
    ensures |r| == BUCKETS + 1 && r[0] == c.free && forall p: Path :: r[p + 1] == c.buckets[p]
  {
    [c.free] + c.buckets
  }

  /** `i` goes from list `g` to the front of list `h`. */
  function Shifted(lists: seq<seq<nat>>, g: nat, h: nat, i: nat): seq<seq<nat>>
    requires g < |lists| && h < |lists| && g != h
  {
    lists[g := Delist(lists[g], i)][h := [i] + lists[h]]
  }

  /** No event moves a slot: taking one and the end of its release do. */
  lemma ListsMove(cfg: Config, s: System, step: Step)
    requires Theorems.Reachable(cfg, s) && Enabled(cfg, s, step)
    ensures var c, c' := s.core, Next(cfg, s, step).core;
            match step
            case DoClaim(t, _, _) =>
              if c.free == [] then Lists(c') == Lists(c)
              else Lists(c') == Shifted(Lists(c), 0, PathOf(s.invites[t].cid) + 1, c.free[0])
            case DoRelink(i) => Lists(c') == Shifted(Lists(c), c.slots[i].phase.path + 1, 0, i)
            case _ => Lists(c') == Lists(c)
  {
    hide Theorems.Reachable, FreeOk, BucketsOk, CallsOk, CountsOk, LimitsOk, TraceOk, ActsOk, SlotsOk, Handle, AccountAll, Lists, Shifted;
    Theorems.ReachableIsSafe(cfg, s);
    var c, c' := s.core, Next(cfg, s, step).core;
    if step.DoClaim? && c.free != [] {
      ClaimMoves(c, c', PathOf(s.invites[step.t].cid), c.free[0]);
    } else if step.DoRelink? {
      RelinkMoves(c, c', c.slots[step.i].phase.path, step.i);
    } else {
      NoneMoves(cfg, s, step);
    }
  }

  lemma ClaimMoves(c: Core, c': Core, p: Path, i: nat)
    requires c'.free == Delist(c.free, i) && c'.buckets == c.buckets[p := [i] + c.buckets[p]]
    ensures Lists(c') == Shifted(Lists(c), 0, p + 1, i)
  {
    hide Delist;
    forall k | 0 <= k < BUCKETS + 1 ensures Lists(c')[k] == Shifted(Lists(c), 0, p + 1, i)[k] {
      assert k > 0 ==> Lists(c')[k] == c'.buckets[k - 1] && Lists(c)[k] == c.buckets[k - 1];
    }
  }

  lemma RelinkMoves(c: Core, c': Core, p: Path, i: nat)
    requires c'.free == [i] + c.free && c'.buckets == c.buckets[p := Delist(c.buckets[p], i)]
    ensures Lists(c') == Shifted(Lists(c), p + 1, 0, i)
  {
    hide Delist;
    forall k | 0 <= k < BUCKETS + 1 ensures Lists(c')[k] == Shifted(Lists(c), p + 1, 0, i)[k] {
      assert k > 0 ==> Lists(c')[k] == c'.buckets[k - 1] && Lists(c)[k] == c.buckets[k - 1];
    }
  }

  lemma NoneMoves(cfg: Config, s: System, step: Step)
    requires Inv(cfg, s) && Enabled(cfg, s, step) && !step.DoRelink? && (step.DoClaim? ==> s.core.free == [])
    ensures Lists(Next(cfg, s, step).core) == Lists(s.core)
  {
    hide FreeOk, BucketsOk, CallsOk, CountsOk, LimitsOk, TraceOk, ActsOk, SlotsOk, Handle;
    var c := s.core;
    if step.DoPost? {
      assert SipSlot(c.slots[step.i]);
      EventsMoveNone(cfg, c, step.i, step.id, step.clk, step.scr);
    } else if step.DoExpire? {
      assert SipSlot(c.slots[step.i]);
      EventsMoveNone(cfg, c.Put(step.i, c.slots[step.i].(timer := None)), step.i, TIMEOUT, step.clk, step.scr);
    }
  }

  lemma EventsMoveNone(cfg: Config, c: Core, i: nat, id: Event, clk: Clock, scr: Script)
    requires cfg.kind == Sip && i < |c.slots| && c.slots[i].handler != OfflineHandler
    ensures var c' := Handle(cfg, c, i, id, clk, scr).core; c'.free == c.free && c'.buckets == c.buckets
  {
  }

  /** The slot that moves is on no list but the one it leaves. */
  lemma MoverAlone(cfg: Config, s: System, step: Step)
    requires Theorems.Reachable(cfg, s) && Enabled(cfg, s, step)
    ensures step.DoRelink? ==> forall k :: 0 <= k < BUCKETS + 1 && k != s.core.slots[step.i].phase.path + 1 ==> step.i !in Lists(s.core)[k]
    ensures step.DoClaim? && s.core.free != [] ==>
              s.core.free[0] < |s.core.slots| && forall k :: 0 < k < BUCKETS + 1 ==> s.core.free[0] !in Lists(s.core)[k]
  {
    Theorems.MovesAreSafe(cfg, s, step);
    assert forall k :: 0 < k < BUCKETS + 1 ==> Lists(s.core)[k] == s.core.buckets[k - 1];
  }

  /** The chains in memory are the model's lists. */
  ghost predicate Spells(links: L.Links, s: System)
    reads links, links.next, links.heads
  {
    links.Valid() && links.lists == Lists(s.core) && links.next.Length == |s.core.slots|
  }

  /** As the constructors do: each slot enlists itself. */
  method Wire(cfg: Config, s: System) returns (links: L.Links)
    requires Init(cfg, s)
    ensures fresh(links) && fresh(links.next) && fresh(links.heads) && Spells(links, s)
  {
    var n := |s.core.slots|;
    links := new L.Links(n, BUCKETS + 1);
    var i := 0;
    while i < n
      invariant i <= n && links.Valid() && fresh(links) && fresh(links.next) && fresh(links.heads) && links.next.Length == n
      invariant |links.lists| == BUCKETS + 1 && links.lists[0] == s.core.free[n - i..]
      invariant forall k :: 0 < k < BUCKETS + 1 ==> links.lists[k] == []
    {
      assert forall k :: n - i <= k < n ==> s.core.free[k] < i;
      links.Enlist(0, i);
      assert s.core.free[n - i - 1..] == [i] + s.core.free[n - i..];
      i := i + 1;
    }
    assert s.core.free[0..] == s.core.free;
    assert links.lists == Lists(s.core);
  }

  /** One step of any thread. */
  method Follow(links: L.Links, cfg: Config, s: System, step: Step)
    requires Theorems.Reachable(cfg, s) && Enabled(cfg, s, step) && Spells(links, s)
    modifies links`lists, links.next, links.heads
    ensures Spells(links, Next(cfg, s, step))
  {
    hide Theorems.Reachable, Next;
    ListsMove(cfg, s, step);
    MoverAlone(cfg, s, step);
    Theorems.SlotsKept(cfg, s, step);
    if step.DoRelink? {
      links.Shift(s.core.slots[step.i].phase.path + 1, 0, step.i);
    } else if step.DoClaim? && s.core.free != [] {
      links.Shift(0, PathOf(s.invites[step.t].cid) + 1, s.core.free[0]);
    }
  }

  /** Any run. */
  method FollowRun(cfg: Config, s0: System, steps: seq<Step>, ghost last: System) returns (links: L.Links, s: System)
    requires Init(cfg, s0) && Runs(cfg, s0, steps, last)
    ensures s == last && Spells(links, s)
  {
    hide Theorems.Reachable, Init, Next, Spells;
    links := Wire(cfg, s0);
    s := s0;
    Theorems.StartsReachable(cfg, s0);
    var k := 0;
    while k < |steps|
      invariant k <= |steps| && fresh(links) && fresh(links.next) && fresh(links.heads) && Spells(links, s)
      invariant Theorems.Reachable(cfg, s) && Runs(cfg, s, steps[k..], last)
    {
      assert steps[k..][0] == steps[k] && steps[k..][1..] == steps[k + 1..];
      Follow(links, cfg, s, steps[k]);
      Theorems.NextReachable(cfg, s, steps[k]);
      s := Next(cfg, s, steps[k]);
      k := k + 1;
    }
  }
}
