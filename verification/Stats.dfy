/** Call statistics: one node holds, for incoming and for outgoing calls, the
    counters of common/stats.cpp.  `current`, `peak`, `min`, `max`, `pmin` and
    `pmax` are 16 bits wide there and the totals 64 bits, so every increment and
    decrement below wraps explicitly. */
module Stats {
  import opened Common

  const SHORT := 0x1_0000
  const LONG := 0x1_0000_0000_0000_0000

  /** statmap::stat_t */
  const INCOMING: Entry := 0
  const OUTGOING: Entry := 1
  type Entry = e: nat | e < 2

  datatype Counter = Counter(total: nat, period: nat, pperiod: nat,
                             current: nat, peak: nat, min: nat, max: nat, pmin: nat, pmax: nat)

  const ZERO := Counter(0, 0, 0, 0, 0, 0, 0, 0, 0)

  datatype Node = Node(incoming: Counter, outgoing: Counter, lastcall: nat) {
    function At(e: Entry): Counter {
      if e == INCOMING then incoming else outgoing
    }

    function With(e: Entry, c: Counter): Node {
      if e == INCOMING then this.(incoming := c) else this.(outgoing := c)
    }

    /** Calls in progress in both directions. */
    function Active(): nat {
      incoming.current + outgoing.current
    }
  }

  const UNTOUCHED := Node(ZERO, ZERO, 0)

  // ---- one counter -----------------------------------------------------

  function Up(c: Counter): Counter {
    var cur := (c.current + 1) % SHORT;
    c.(period := (c.period + 1) % LONG, total := (c.total + 1) % LONG, current := cur,
       peak := if cur > c.peak then cur else c.peak,
       max := if cur > c.max then cur else c.max)
  }

  function Down(c: Counter): Counter {
    var cur := (c.current + SHORT - 1) % SHORT;
    c.(current := cur, min := if cur < c.min then cur else c.min)
  }

  function Roll(c: Counter): Counter {
    c.(pperiod := c.period, pmax := c.max, pmin := c.min, max := c.current, min := c.current, period := 0)
  }

  // ---- one node --------------------------------------------------------

  function Updated(n: Node, e: Entry): Node {
    n.With(e, Up(n.At(e)))
  }

  function Released(n: Node, e: Entry, now: nat): Node {
    n.With(e, Down(n.At(e))).(lastcall := if n.Active() == 1 then now else n.lastcall)
  }

  function Rolled(n: Node): Node {
    n.(incoming := Roll(n.incoming), outgoing := Roll(n.outgoing))
  }

  // ---- what the counters mean over a whole history ----------------------

  datatype Change = Assigned | Freed | Boundary

  function Delta(c: Change): int {
    match c case Assigned => 1 case Freed => -1 case Boundary => 0
  }

  function Apply(c: Counter, change: Change): Counter {
    match change case Assigned => Up(c) case Freed => Down(c) case Boundary => Roll(c)
  }

  /** The counter the code holds after the first `k` changes. */
  function After(h: seq<Change>, k: nat): Counter
    requires k <= |h|
  {
    if k == 0 then ZERO else Apply(After(h, k - 1), h[k - 1])
  }

  /** The true number of calls in progress after the first `k` changes. */
  ghost function Calls(h: seq<Change>, k: nat): int
    requires k <= |h|
  {
    if k == 0 then 0 else Calls(h, k - 1) + Delta(h[k - 1])
  }

  /** The number of calls assigned among changes `from .. k`. */
  ghost function Assignments(h: seq<Change>, from: nat, k: nat): nat
    requires from <= k <= |h|
  {
    if k == from then 0 else Assignments(h, from, k - 1) + (if h[k - 1] == Assigned then 1 else 0)
  }

  /** Where the window that is open after `k` changes began. */
  ghost function Opened(h: seq<Change>, k: nat): (b: nat)
    requires k <= |h|
    ensures b <= k && (b > 0 ==> h[b - 1] == Boundary)
  {
    if k == 0 then 0 else if h[k - 1] == Boundary then k else Opened(h, k - 1)
  }

  ghost predicate IsMax(v: int, h: seq<Change>, lo: nat, hi: nat)
    requires lo <= hi <= |h|
  {
    && (exists j :: lo <= j <= hi && v == Calls(h, j))
    && (forall j :: lo <= j <= hi ==> Calls(h, j) <= v)
  }

  ghost predicate IsMin(v: int, h: seq<Change>, lo: nat, hi: nat)
    requires lo <= hi <= |h|
  {
    && (exists j :: lo <= j <= hi && v == Calls(h, j))
    && (forall j :: lo <= j <= hi ==> v <= Calls(h, j))
  }

  /** Every field says what it is documented to say. */
  ghost predicate Exact(h: seq<Change>, k: nat)
    requires k <= |h|
  {
    var c, b := After(h, k), Opened(h, k);
    && c.current == Calls(h, k)
    && c.min <= c.current <= c.max <= c.peak
    && IsMin(c.min, h, b, k) && IsMax(c.max, h, b, k)
    && IsMax(c.peak, h, 0, k)
    && (b > 0 ==>
          var a := Opened(h, b - 1);
          IsMin(c.pmin, h, a, b - 1) && IsMax(c.pmax, h, a, b - 1))
  }

  /** At each point of the history the true number fits sixteen bits. */
  ghost predicate Fits(h: seq<Change>, n: nat)
    requires n <= |h|
  {
    forall k :: 0 <= k <= n ==> 0 <= Calls(h, k) < SHORT
  }

  /** The totals need no assumption at all beyond their own modulus. */
  lemma {:induction false} TotalsAreExact(h: seq<Change>, k: nat)
    requires k <= |h|
    ensures After(h, k).total == Assignments(h, 0, k) % LONG
    ensures After(h, k).period == Assignments(h, Opened(h, k), k) % LONG
    ensures var b := Opened(h, k); b > 0 ==> After(h, k).pperiod == Assignments(h, Opened(h, b - 1), b - 1) % LONG
    ensures After(h, k).current == Calls(h, k) % SHORT
  {
    if k > 0 {
      TotalsAreExact(h, k - 1);
      CounterSteps(h, k);
    }
  }

  /** One change steps the wrapped fields as it steps the true figures. */
  lemma CounterSteps(h: seq<Change>, k: nat)
    requires 0 < k <= |h|
    ensures var p, c := After(h, k - 1), After(h, k);
            && (p.current == Calls(h, k - 1) % SHORT ==> c.current == Calls(h, k) % SHORT)
            && (p.total == Assignments(h, 0, k - 1) % LONG ==> c.total == Assignments(h, 0, k) % LONG)
            && (h[k - 1] != Boundary && p.period == Assignments(h, Opened(h, k - 1), k - 1) % LONG
                ==> c.period == Assignments(h, Opened(h, k), k) % LONG)
  {
    CallsStep(h, k);
    AssignmentsStep(h, 0, k);
    if h[k - 1] != Boundary {
      AssignmentsStep(h, Opened(h, k - 1), k);
    }
    hide Assignments;
  }

  lemma CallsStep(h: seq<Change>, k: nat)
    requires 0 < k <= |h|
    ensures After(h, k - 1).current == Calls(h, k - 1) % SHORT ==> After(h, k).current == Calls(h, k) % SHORT
  {
    WrapUp(Calls(h, k - 1), SHORT);
    WrapDown(Calls(h, k - 1), SHORT);
  }

  lemma AssignmentsStep(h: seq<Change>, from: nat, k: nat)
    requires from < k <= |h|
    ensures Assignments(h, from, k) % LONG ==
            if h[k - 1] == Assigned then (Assignments(h, from, k - 1) % LONG + 1) % LONG else Assignments(h, from, k - 1) % LONG
  {
    WrapUp(Assignments(h, from, k - 1), LONG);
  }

  lemma {:induction false} FitsIsExact(h: seq<Change>, k: nat)
    requires k <= |h| && Fits(h, k)
    ensures Exact(h, k)
  {
    if k == 0 {
      assert Calls(h, 0) == 0;
    } else {
      assert 0 <= Calls(h, k) < SHORT;
      FitsIsExact(h, k - 1);
      if h[k - 1] == Boundary {
        BoundaryIsExact(h, k);
      } else {
        MovesAreExact(h, k);
      }
    }
  }

  lemma BoundaryIsExact(h: seq<Change>, k: nat)
    requires 0 < k <= |h| && h[k - 1] == Boundary && Exact(h, k - 1)
    ensures Exact(h, k)
  {
    var p, c := After(h, k - 1), After(h, k);
    WindowStep(h, k, p.min, p.max, p.peak);
    assert c == Roll(p) && Opened(h, k) == k;
    assert c.current == Calls(h, k);
  }

  lemma MovesAreExact(h: seq<Change>, k: nat)
    requires 0 < k <= |h| && h[k - 1] != Boundary && Exact(h, k - 1) && 0 <= Calls(h, k) < SHORT
    ensures Exact(h, k)
  {
    hide IsMin, IsMax;
    var p, c := After(h, k - 1), After(h, k);
    WindowStep(h, k, p.min, p.max, p.peak);
    var v := Calls(h, k);
    assert c.current == v by {
      if h[k - 1] == Assigned { ModUnique(p.current + 1, 0, v, SHORT); } else { ModUnique(p.current + SHORT - 1, 1, v, SHORT); }
    }
    assert c.min == if v < p.min then v else p.min;
    assert c.max == if v > p.max then v else p.max;
    assert c.peak == if v > p.peak then v else p.peak;
    assert c.pmin == p.pmin && c.pmax == p.pmax && Opened(h, k) == Opened(h, k - 1);
  }

  /** Extending a window by one change extends its extremes by one value. */
  lemma WindowStep(h: seq<Change>, k: nat, mn: nat, mx: nat, pk: nat)
    requires 0 < k <= |h|
    requires var b := Opened(h, k - 1); IsMin(mn, h, b, k - 1) && IsMax(mx, h, b, k - 1) && IsMax(pk, h, 0, k - 1)
    ensures var v := Calls(h, k); IsMax(if v > pk then v else pk, h, 0, k)
    ensures var v, b := Calls(h, k), Opened(h, k);
            h[k - 1] != Boundary ==>
              && IsMin(if v < mn then v else mn, h, b, k)
              && IsMax(if v > mx then v else mx, h, b, k)
    ensures h[k - 1] == Boundary ==> Calls(h, k) == Calls(h, k - 1)
  {
    hide IsMax, IsMin;
    var b := Opened(h, k - 1);
    MaxStep(h, 0, k, pk);
    MaxStep(h, b, k, mx);
    MinStep(h, b, k, mn);
  }

  lemma MaxStep(h: seq<Change>, lo: nat, k: nat, m: nat)
    requires lo < k <= |h| && IsMax(m, h, lo, k - 1)
    ensures var v := Calls(h, k); IsMax(if v > m then v else m, h, lo, k)
  {
    var j :| lo <= j <= k - 1 && m == Calls(h, j);
  }

  lemma MinStep(h: seq<Change>, lo: nat, k: nat, m: nat)
    requires lo < k <= |h| && IsMin(m, h, lo, k - 1)
    ensures var v := Calls(h, k); IsMin(if v < m then v else m, h, lo, k)
  {
    var j :| lo <= j <= k - 1 && m == Calls(h, j);
  }

  /** Exact window statistics: over every history, each field holds exactly
      what it should at every moment if and only if the true count of calls never
      leaves the range of an unsigned short. */
  lemma {:induction false} WindowStatistics(h: seq<Change>)
    ensures (forall k :: 0 <= k <= |h| ==> Exact(h, k)) <==> Fits(h, |h|)
  {
    if Fits(h, |h|) {
      forall k | 0 <= k <= |h| ensures Exact(h, k) {
        FitsIsExact(h, k);
      }
    }
    if forall k :: 0 <= k <= |h| ==> Exact(h, k) {
      forall k | 0 <= k <= |h| ensures 0 <= Calls(h, k) < SHORT {
        assert Exact(h, k);
        CurrentIsShort(h, k);
      }
    }
  }

  lemma {:induction false} CurrentIsShort(h: seq<Change>, k: nat)
    requires k <= |h|
    ensures After(h, k).current < SHORT
  {
    if k > 0 {
      CurrentIsShort(h, k - 1);
    }
  }

  // ---- histories of a whole node -----------------------------------------

  datatype Use = Enter(entry: Entry) | Leave(entry: Entry, now: nat) | Turn

  function NodeAfter(h: seq<Use>): Node {
    if h == [] then UNTOUCHED
    else
      var n := NodeAfter(h[..|h| - 1]);
      match h[|h| - 1]
      case Enter(e) => Updated(n, e)
      case Leave(e, now) => Released(n, e, now)
      case Turn => Rolled(n)
  }

  /** The changes of a node's history that one direction sees. */
  function Seen(h: seq<Use>, e: Entry): seq<Change> {
    if h == [] then []
    else
      var s := Seen(h[..|h| - 1], e);
      match h[|h| - 1]
      case Enter(x) => if x == e then s + [Assigned] else s
      case Leave(x, _) => if x == e then s + [Freed] else s
      case Turn => s + [Boundary]
  }

  lemma {:induction false} AfterIsLocal(h: seq<Change>, x: Change, k: nat)
    requires k <= |h|
    ensures After(h + [x], k) == After(h, k)
  {
    if k > 0 {
      AfterIsLocal(h, x, k - 1);
      assert (h + [x])[k - 1] == h[k - 1];
    }
  }

  /** The two directions of a node do not disturb each other: each counter is
      what its own history alone makes it, so WindowStatistics speaks of nodes. */
  lemma {:induction false} DirectionsAreIndependent(h: seq<Use>, e: Entry)
    ensures NodeAfter(h).At(e) == After(Seen(h, e), |Seen(h, e)|)
  {
    if h != [] {
      var g, x := h[..|h| - 1], h[|h| - 1];
      DirectionsAreIndependent(g, e);
      var s := Seen(g, e);
      AfterIsLocal(s, Assigned, |s|);
      AfterIsLocal(s, Freed, |s|);
      AfterIsLocal(s, Boundary, |s|);
    }
  }

  /** What active() tells the admission test: the number of calls that the node
      has in progress in both directions, iff neither number exceeds sixteen bits
      (given that no call has left before it came). */
  lemma ActiveIsCalls(h: seq<Use>)
    requires forall e: Entry :: Calls(Seen(h, e), |Seen(h, e)|) >= 0
    ensures var i, o := Calls(Seen(h, INCOMING), |Seen(h, INCOMING)|), Calls(Seen(h, OUTGOING), |Seen(h, OUTGOING)|);
            && NodeAfter(h).Active() <= i + o
            && (NodeAfter(h).Active() == i + o <==> i < SHORT && o < SHORT)
  {
    ActiveHalf(h, INCOMING);
    ActiveHalf(h, OUTGOING);
  }

  lemma ActiveHalf(h: seq<Use>, e: Entry)
    requires Calls(Seen(h, e), |Seen(h, e)|) >= 0
    ensures var x := Calls(Seen(h, e), |Seen(h, e)|);
            if x < SHORT then NodeAfter(h).At(e).current == x else NodeAfter(h).At(e).current < x
  {
    var s := Seen(h, e);
    DirectionsAreIndependent(h, e);
    TotalsAreExact(s, |s|);
    CurrentIsShort(s, |s|);
    if Calls(s, |s|) < SHORT {
      ModUnique(Calls(s, |s|), 0, Calls(s, |s|), SHORT);
    }
  }

  // ---- when a node was last emptied ----------------------------------------

  /** The true number of calls in both directions after this history. */
  ghost function TrueCalls(h: seq<Use>): int {
    Calls(Seen(h, INCOMING), |Seen(h, INCOMING)|) + Calls(Seen(h, OUTGOING), |Seen(h, OUTGOING)|)
  }

  /** No call has left before it came. */
  ghost predicate Orderly(h: seq<Use>) {
    forall k, e: Entry :: 0 <= k <= |h| ==> Calls(Seen(h[..k], e), |Seen(h[..k], e)|) >= 0
  }

  /** The time of the latest Leave that took the last call, 0 if there was none. */
  ghost function LastEmptied(h: seq<Use>): nat {
    if h == [] then 0
    else
      var g, x := h[..|h| - 1], h[|h| - 1];
      if x.Leave? && TrueCalls(g) == 1 then x.now else LastEmptied(g)
  }

  /** The number that the sixteen-bit counters show. */
  ghost function Shown(h: seq<Use>): int {
    Calls(Seen(h, INCOMING), |Seen(h, INCOMING)|) % SHORT + Calls(Seen(h, OUTGOING), |Seen(h, OUTGOING)|) % SHORT
  }

  /** A Leave at which other calls are left, but the counters hide them. */
  ghost predicate Misjudged(x: Use, before: seq<Use>) { x.Leave? && TrueCalls(before) != 1 && Shown(before) == 1 }

  ghost predicate LastCallRight(h: seq<Use>) { NodeAfter(h).lastcall == LastEmptied(h) }

  /** Not misjudged, or by chance at the very time at which the node was emptied. */
  ghost predicate Harmless(x: Use, before: seq<Use>) { Misjudged(x, before) ==> x.now == LastEmptied(before) }

  /** `lastcall` is, at every moment of a history, when the node was last emptied,
      iff each of its uses is harmless. */
  lemma {:induction false} LastCall(h: seq<Use>)
    requires Orderly(h)
    ensures (forall k :: 0 <= k <= |h| ==> LastCallRight(h[..k])) <==> (forall k :: 0 <= k < |h| ==> Harmless(h[k], h[..k]))
  {
    hide LastCallRight, Harmless, Orderly;
    if h == [] {
      LastCallStarts();
      assert forall k :: 0 <= k <= |h| ==> h[..k] == [];
    } else {
      var n := |h| - 1;
      var g := h[..n];
      PrefixOrderly(h);
      assert forall k :: 0 <= k <= n ==> g[..k] == h[..k];
      assert forall k :: 0 <= k < n ==> g[k] == h[k];
      LastCall(g);
      LastStep(h);
      assert h[..n + 1] == h && g[..n] == g;
      assert forall k :: 0 <= k <= |h| ==> k <= n || h[..k] == h;
    }
  }

  lemma LastCallStarts()
    ensures LastCallRight([])
  {
  }

  lemma PrefixOrderly(h: seq<Use>)
    requires h != [] && Orderly(h)
    ensures Orderly(h[..|h| - 1])
  {
    var g := h[..|h| - 1];
    assert forall k :: 0 <= k <= |g| ==> g[..k] == h[..k];
  }

  lemma LastStep(h: seq<Use>)
    requires h != [] && Orderly(h)
    ensures var x, g := h[|h| - 1], h[..|h| - 1]; LastCallRight(g) ==> (LastCallRight(h) <==> Harmless(x, g))
  {
    hide Shown, TrueCalls;
    var g := h[..|h| - 1];
    ActiveIsShown(g);
    OneIsShown(g);
  }

  lemma OneIsShown(g: seq<Use>)
    requires Calls(Seen(g, INCOMING), |Seen(g, INCOMING)|) >= 0 && Calls(Seen(g, OUTGOING), |Seen(g, OUTGOING)|) >= 0
    ensures TrueCalls(g) == 1 ==> Shown(g) == 1
  {
    var i, o := Calls(Seen(g, INCOMING), |Seen(g, INCOMING)|), Calls(Seen(g, OUTGOING), |Seen(g, OUTGOING)|);
    if i + o == 1 {
      ModUnique(i, 0, i, SHORT);
      ModUnique(o, 0, o, SHORT);
    }
  }

  lemma ActiveIsShown(g: seq<Use>)
    ensures NodeAfter(g).Active() == Shown(g)
  {
    DirectionsAreIndependent(g, INCOMING);
    DirectionsAreIndependent(g, OUTGOING);
    TotalsAreExact(Seen(g, INCOMING), |Seen(g, INCOMING)|);
    TotalsAreExact(Seen(g, OUTGOING), |Seen(g, OUTGOING)|);
  }

  /** So while both directions fit sixteen bits the field is right. */
  lemma LastCallFits(h: seq<Use>)
    requires Orderly(h)
    requires forall k, e: Entry :: 0 <= k < |h| ==> Calls(Seen(h[..k], e), |Seen(h[..k], e)|) < SHORT
    ensures NodeAfter(h).lastcall == LastEmptied(h)
  {
    forall k | 0 <= k < |h| ensures Harmless(h[k], h[..k]) {
      var g := h[..k];
      var i, o := Calls(Seen(g, INCOMING), |Seen(g, INCOMING)|), Calls(Seen(g, OUTGOING), |Seen(g, OUTGOING)|);
      assert 0 <= i < SHORT && 0 <= o < SHORT;
      ModUnique(i, 0, i, SHORT);
      ModUnique(o, 0, o, SHORT);
    }
    LastCall(h);
    assert h[..|h|] == h;
    assert LastCallRight(h[..|h|]);
  }

  // ---- the node as the code updates it ----------------------------------

  datatype Usage = UNUSED | SYSTEM | BOARD | SPAN | REGISTRY

  class Statmap {
    var usage: Usage
    var stats: seq<Counter>
    var lastcall: nat
    var timeslots: nat

    ghost predicate Valid() reads this { |stats| == 2 }

    ghost function View(): Node
      reads this
      requires Valid()
    {
      Node(stats[INCOMING], stats[OUTGOING], lastcall)
    }

    constructor ()
      ensures Valid() && usage == UNUSED && timeslots == 0
      ensures View() == UNTOUCHED
    {
      usage, stats, lastcall, timeslots := UNUSED, [ZERO, ZERO], 0, 0;
    }

    method Active() returns (n: nat)
      requires Valid()
      ensures n == View().Active()
    {
      n := stats[0].current + stats[1].current;
    }

    method Update(entry: Entry)
      requires Valid()
      modifies this`stats
      ensures Valid() && View() == Updated(old(View()), entry)
    {
      stats := stats[entry := stats[entry].(period := (stats[entry].period + 1) % LONG)];
      stats := stats[entry := stats[entry].(total := (stats[entry].total + 1) % LONG)];
      stats := stats[entry := stats[entry].(current := (stats[entry].current + 1) % SHORT)];
      if stats[entry].current > stats[entry].peak {
        stats := stats[entry := stats[entry].(peak := stats[entry].current)];
      }
      if stats[entry].current > stats[entry].max {
        stats := stats[entry := stats[entry].(max := stats[entry].current)];
      }
    }

    /** The inner loop of statmap::period. */
    method Close()
      requires Valid()
      modifies this`stats
      ensures Valid() && View() == Rolled(old(View()))
    {
      for entry := 0 to 2
        invariant Valid()
        invariant forall k :: 0 <= k < 2 ==> stats[k] == if k < entry then Roll(old(stats[k])) else old(stats[k])
      {
        stats := stats[entry := stats[entry].(pperiod := stats[entry].period)];
        stats := stats[entry := stats[entry].(pmax := stats[entry].max)];
        stats := stats[entry := stats[entry].(pmin := stats[entry].min)];
        stats := stats[entry := stats[entry].(max := stats[entry].current, min := stats[entry].current)];
        stats := stats[entry := stats[entry].(period := 0)];
      }
    }

    method Release(entry: Entry, now: nat)
      requires Valid()
      modifies this`stats, this`lastcall
      ensures Valid() && View() == Released(old(View()), entry, now)
    {
      var active := Active();
      if active == 1 {
        lastcall := now;
      }
      stats := stats[entry := stats[entry].(current := (stats[entry].current + SHORT - 1) % SHORT)];
      if stats[entry].current < stats[entry].min {
        stats := stats[entry := stats[entry].(min := stats[entry].current)];
      }
    }
  }

  /** The table of nodes in shared memory, handed out in order. */
  class Pool {
    var nodes: seq<Statmap>
    var count: nat
    var used: nat

    ghost predicate Valid()
      reads this, nodes
    {
      && NoDup(nodes)
      && count == |nodes|
      && used <= count
      && (forall n :: n in nodes ==> n.Valid())
      && (forall k :: used <= k < |nodes| ==> nodes[k].usage == UNUSED)
    }

    /** statmap::create: room for `total` nodes beside the system node. */
    constructor (total: nat, timeslots: nat)
      ensures Valid() && fresh(nodes) && count == total + 1 && used == 1
      ensures nodes[0].usage == SYSTEM && nodes[0].timeslots == timeslots
      ensures forall n :: n in nodes ==> n.View() == UNTOUCHED
    {
      nodes, count, used := [], total + 1, 0;
      new;
      while |nodes| < count
        invariant NoDup(nodes) && |nodes| <= count == total + 1 && used == 0
        invariant fresh(nodes)
        invariant forall n :: n in nodes ==> n.Valid() && n.usage == UNUSED && n.View() == UNTOUCHED
      {
        var node := new Statmap();
        nodes := nodes + [node];
      }
      nodes[0].usage := SYSTEM;
      nodes[0].timeslots := timeslots;
      used := 1;
    }

    /** statmap::getRegistry (getBoard and getSpan differ in the tag only): the
        next unused node, and none once the table is exhausted. */
    method Take(usage: Usage, timeslots: nat) returns (node: Statmap?)
      requires Valid() && usage != UNUSED
      modifies this`used, nodes
      ensures Valid() && nodes == old(nodes) && count == old(count)
      ensures node == null <==> old(used) == count
      ensures node == null ==> used == old(used) && forall n :: n in nodes ==> unchanged(n)
      ensures node != null ==>
                && used == old(used) + 1 && node == nodes[old(used)]
                && node !in nodes[..old(used)] && old(node.usage) == UNUSED
                && node.usage == usage && node.timeslots == timeslots % SHORT
                && node.View() == old(node.View())
      ensures forall n :: n in nodes && n != node ==> unchanged(n)
    {
      if count == 0 || used >= count {
        return null;
      }
      node := nodes[used];
      used := used + 1;
      node.usage := usage;
      node.timeslots := timeslots % SHORT;
    }

    /** statmap::period: closes the window of every node in use. */
    method Period()
      requires Valid()
      modifies nodes
      ensures Valid()
      ensures forall n :: n in nodes ==> n.usage == old(n.usage)
      ensures forall n :: n in nodes ==>
                n.View() == if n.usage == UNUSED then old(n.View()) else Rolled(old(n.View()))
    {
      var pos := 0;
      while pos < count
        invariant 0 <= pos <= count
        invariant Valid()
        invariant forall n :: n in nodes ==> n.usage == old(n.usage)
        invariant forall k :: 0 <= k < pos ==>
                    nodes[k].View() == if nodes[k].usage == UNUSED then old(nodes[k].View()) else Rolled(old(nodes[k].View()))
        invariant forall k :: pos <= k < |nodes| ==> nodes[k].View() == old(nodes[k].View())
      {
        var node := nodes[pos];
        pos := pos + 1;
        if node.usage == UNUSED {
          continue;
        }
        node.Close();
      }
    }
  }
}
