/** Failing over along SRV records (uri::next in common/uri.cpp). */
module Srv {
  import opened Common

  /** Both fields, and `pri`, are sixteen bits wide. */
  type Word = n: nat | n < 0x1_0000
  datatype Address = Address(priority: Word, weight: Word)

  const LAST: Word := 0xFFFF

  /** ++pri */
  function Bumped(pri: Word): Word { if pri == LAST then 0 else pri + 1 }

  /** The loop of next over the first `k` records: a record is taken when it comes
      before the one held, or outweighs it. */
  function Pick(list: seq<Address>, from: Word, k: nat): (r: Option<nat>)
    requires k <= |list|
    ensures r.Some? ==> r.value < k && list[r.value].priority >= from
    ensures r == None <==> forall i :: 0 <= i < k ==> list[i].priority < from
  {
    if k == 0 then None
    else
      var node, np := Pick(list, from, k - 1), list[k - 1];
      if np.priority < from then node
      else if node == None || np.priority < list[node.value].priority || np.weight > list[node.value].weight then Some(k - 1)
      else node
  }

  /** What next returns, and where it leaves `pri`. */
  function Result(list: seq<Address>, pri: Word): Option<nat> { Pick(list, Bumped(pri), |list|) }

  function Moved(list: seq<Address>, pri: Word): Word {
    var r := Result(list, pri);
    if r.Some? then list[r.value].priority else Bumped(pri)
  }

  class Walker {
    const srvlist: seq<Address>
    var pri: Word
    var entry: Option<nat>

    constructor (srvlist: seq<Address>, pri: Word)
      ensures this.srvlist == srvlist && this.pri == pri
    {
      this.srvlist, this.pri, entry := srvlist, pri, None;
    }

    /** While `pri` is below its last value each entry returned raises it, so no
        record repeats, and NULL means that no record has a greater priority. */
    method Next() returns (r: Option<nat>)
      modifies this`pri, this`entry
      ensures r == entry == Result(srvlist, old(pri)) && pri == Moved(srvlist, old(pri))
      ensures old(pri) < LAST ==> (r == None <==> forall i :: 0 <= i < |srvlist| ==> srvlist[i].priority <= old(pri))
      ensures old(pri) < LAST ==> pri > old(pri)
    {
      pri := Bumped(pri);
      var index, node := 0, None;
      while index < |srvlist|
        invariant index <= |srvlist| && node == Pick(srvlist, pri, index)
      {
        var np := srvlist[index];
        index := index + 1;
        if np.priority < pri {
          continue;
        }
        if node == None || np.priority < srvlist[node.value].priority || np.weight > srvlist[node.value].weight {
          node := Some(index - 1);
        }
      }
      if node != None {
        pri := srvlist[node.value].priority;
      }
      entry := node;
      r := node;
    }
  }

  // ---- the walk ------------------------------------------------------------------------

  /** `pri` after `n` calls of next. */
  function PriAfter(list: seq<Address>, pri: Word, n: nat): Word {
    if n == 0 then pri else Moved(list, PriAfter(list, pri, n - 1))
  }

  /** The call after those returns NULL. */
  predicate Ends(list: seq<Address>, pri: Word, n: nat) { Result(list, PriAfter(list, pri, n)) == None }

  lemma {:induction false} PriShift(list: seq<Address>, pri: Word, n: nat)
    ensures PriAfter(list, pri, n + 1) == PriAfter(list, Moved(list, pri), n)
  {
    if n > 0 {
      PriShift(list, pri, n - 1);
    }
  }

  /** The failover walk ends, from wherever it starts, iff no record has the
      greatest priority of all: behind that one `pri` wraps round to 0. */
  lemma WalkEnds(list: seq<Address>, pri: Word)
    ensures (exists n: nat :: Ends(list, pri, n)) <==> forall i :: 0 <= i < |list| ==> list[i].priority < LAST
  {
    if i :| 0 <= i < |list| && list[i].priority == LAST {
      forall n: nat ensures !Ends(list, pri, n) {
        assert list[i].priority >= Bumped(PriAfter(list, pri, n));
      }
    } else {
      Reaches(list, pri);
    }
  }

  lemma {:induction false} Reaches(list: seq<Address>, pri: Word)
    requires forall i :: 0 <= i < |list| ==> list[i].priority < LAST
    ensures exists n: nat :: Ends(list, pri, n)
    decreases pri == LAST, LAST - pri
  {
    if Result(list, pri) == None {
      assert Ends(list, pri, 0);
    } else {
      Reaches(list, Moved(list, pri));
      var m: nat :| Ends(list, Moved(list, pri), m);
      PriShift(list, pri, m);
      assert Ends(list, pri, m + 1);
    }
  }

  // ---- which record comes next -------------------------------------------------------------

  /** `i` has the lowest priority that is still to come. */
  ghost predicate Lowest(list: seq<Address>, from: Word, k: nat, i: nat)
    requires k <= |list|
  {
    i < k && from <= list[i].priority && forall j :: 0 <= j < k && from <= list[j].priority ==> list[i].priority <= list[j].priority
  }

  /** No record behind `i` that is still to come outweighs it. */
  ghost predicate Stands(list: seq<Address>, from: Word, k: nat, i: nat)
    requires i < k <= |list|
  {
    forall j :: i < j < k && from <= list[j].priority ==> list[j].weight <= list[i].weight
  }

  /** What the loop holds comes before everything behind it and is not outweighed. */
  lemma {:induction false} HeldStands(list: seq<Address>, from: Word, k: nat)
    requires k <= |list|
    ensures var held := Pick(list, from, k);
            held.Some? ==>
              && Stands(list, from, k, held.value)
              && forall j :: held.value < j < k && from <= list[j].priority ==> list[held.value].priority <= list[j].priority
  {
    if k > 0 {
      HeldStands(list, from, k - 1);
    }
  }

  /** A record to come that none behind it comes before or outweighs. */
  ghost predicate Undefeated(list: seq<Address>, from: Word, k: nat, i: nat)
    requires k <= |list|
  {
    i < k && from <= list[i].priority &&
    forall j :: i < j < k && from <= list[j].priority ==> list[i].priority <= list[j].priority && list[j].weight <= list[i].weight
  }

  lemma HeldUndefeated(list: seq<Address>, from: Word, k: nat)
    requires k <= |list|
    ensures Pick(list, from, k).Some? ==> Undefeated(list, from, k, Pick(list, from, k).value)
  {
    HeldStands(list, from, k);
  }

  /** The loop holds one no later than any that is undefeated. */
  lemma {:induction false} HeldEarlier(list: seq<Address>, from: Word, k: nat, j: nat)
    requires k <= |list| && Undefeated(list, from, k, j)
    ensures Pick(list, from, k).Some? && Pick(list, from, k).value <= j
  {
    if j < k - 1 {
      HeldEarlier(list, from, k - 1, j);
      HeldUndefeated(list, from, k - 1);
    } else {
      assert list[j].priority >= from;
    }
  }

  /** Whatever the list, next takes the first record that none behind it defeats, so of
      equal records the earlier one. */
  lemma PickIsFirst(list: seq<Address>, pri: Word, i: nat)
    ensures var from := Bumped(pri);
            Result(list, pri) == Some(i) <==>
            Undefeated(list, from, |list|, i) && forall j :: 0 <= j < i ==> !Undefeated(list, from, |list|, j)
  {
    hide Undefeated, Pick;
    var from := Bumped(pri);
    HeldUndefeated(list, from, |list|);
    forall j: nat | Undefeated(list, from, |list|, j) ensures Result(list, pri).Some? && Result(list, pri).value <= j {
      HeldEarlier(list, from, |list|, j);
    }
  }

  /** Behind a lowest record that stands, the loop holds one of its priority that
      is at least as heavy. */
  lemma {:induction false} StandingKept(list: seq<Address>, from: Word, k: nat, i: nat)
    requires i < k <= |list| && Lowest(list, from, |list|, i) && Stands(list, from, |list|, i)
    ensures var held := Pick(list, from, k);
            held.Some? && list[held.value].priority == list[i].priority && list[held.value].weight >= list[i].weight
  {
    if k == i + 1 {
      var node := Pick(list, from, i);
      assert node.Some? ==> list[node.value].priority >= list[i].priority;
    } else {
      StandingKept(list, from, k - 1, i);
    }
  }

  /** next takes a record of the lowest priority to come iff some record of that
      priority is outweighed by none behind it. */
  lemma PickLowest(list: seq<Address>, pri: Word)
    ensures var from := Bumped(pri);
            && (Result(list, pri).Some? && Lowest(list, from, |list|, Result(list, pri).value) <==>
                exists i :: 0 <= i < |list| && Lowest(list, from, |list|, i) && Stands(list, from, |list|, i))
  {
    var from := Bumped(pri);
    HeldStands(list, from, |list|);
    if i :| 0 <= i < |list| && Lowest(list, from, |list|, i) && Stands(list, from, |list|, i) {
      StandingKept(list, from, |list|, i);
    }
  }

  // ---- which priorities are visited ---------------------------------------------------------------

  /** The priorities that the walk visits before NULL, or before `pri` wraps. */
  function Visited(list: seq<Address>, pri: Word): seq<Word>
    decreases LAST - pri
  {
    if pri == LAST || Result(list, pri) == None then []
    else [Moved(list, pri)] + Visited(list, Moved(list, pri))
  }

  ghost predicate Ascending(s: seq<Word>) { forall j, k :: 0 <= j < k < |s| ==> s[j] < s[k] }

  lemma AscendingNil()
    ensures Ascending([])
  {
  }

  lemma Pushed(q: Word, rest: seq<Word>)
    requires Ascending(rest) && forall p :: p in rest ==> p > q
    ensures Ascending([q] + rest)
  {
    assert forall k :: 0 <= k < |rest| ==> rest[k] in rest;
  }

  /** Whatever the weights, the walk only climbs, and only to priorities that
      some record has. */
  lemma {:induction false} Climbs(list: seq<Address>, pri: Word)
    ensures Ascending(Visited(list, pri))
    ensures forall p :: p in Visited(list, pri) ==> p > pri && exists i :: 0 <= i < |list| && list[i].priority == p
    decreases LAST - pri
  {
    hide Ascending, Pick;
    AscendingNil();
    if pri < LAST && Result(list, pri).Some? {
      var q := Moved(list, pri);
      assert list[Result(list, pri).value].priority == q;
      Climbs(list, q);
      Pushed(q, Visited(list, q));
    }
  }

  /** Some record of priority `p` is outweighed by none behind it of this or a
      greater priority. */
  ghost predicate Tenable(list: seq<Address>, p: Word) {
    exists i :: 0 <= i < |list| && list[i].priority == p && Stands(list, p, |list|, i)
  }

  ghost predicate Occurs(list: seq<Address>, p: Word) { exists i :: 0 <= i < |list| && list[i].priority == p }

  /** A record that is visited is outweighed by none behind it. */
  lemma {:induction false} VisitedIsTenable(list: seq<Address>, pri: Word, p: Word)
    requires p in Visited(list, pri)
    ensures Tenable(list, p)
    decreases LAST - pri
  {
    HeldStands(list, Bumped(pri), |list|);
    if p == Moved(list, pri) {
      assert Stands(list, p, |list|, Result(list, pri).value);
    } else {
      VisitedIsTenable(list, Moved(list, pri), p);
    }
  }

  /** Whatever the list, a priority all of whose records are outweighed by later
      ones of no lesser priority is skipped. */
  lemma HeavierSkips(list: seq<Address>, pri: Word, p: Word)
    requires forall i :: 0 <= i < |list| && list[i].priority == p ==>
               exists j :: i < j < |list| && p <= list[j].priority && list[j].weight > list[i].weight
    ensures p !in Visited(list, pri)
  {
    if p in Visited(list, pri) {
      VisitedIsTenable(list, pri, p);
    }
  }

  /** The walk visits every greater priority iff each of them has a record that is
      outweighed by none behind it of this or a greater priority. */
  lemma {:induction false} VisitsAll(list: seq<Address>, pri: Word)
    ensures (forall p: Word :: p > pri && Occurs(list, p) ==> p in Visited(list, pri)) <==>
            (forall p: Word :: p > pri && Occurs(list, p) ==> Tenable(list, p))
    decreases LAST - pri
  {
    if forall p: Word :: p > pri && Occurs(list, p) ==> p in Visited(list, pri) {
      forall p: Word | p > pri && Occurs(list, p) ensures Tenable(list, p) {
        VisitedIsTenable(list, pri, p);
      }
    }
    if forall p: Word :: p > pri && Occurs(list, p) ==> Tenable(list, p) {
      forall p: Word | p > pri && Occurs(list, p) ensures p in Visited(list, pri) {
        TenableIsVisited(list, pri, p);
      }
    }
  }

  lemma {:induction false} TenableIsVisited(list: seq<Address>, pri: Word, p: Word)
    requires forall q: Word :: q > pri && Occurs(list, q) ==> Tenable(list, q)
    requires p > pri && Occurs(list, p)
    ensures p in Visited(list, pri)
    decreases LAST - pri
  {
    assert Result(list, pri).Some?;
    var i := LowestAt(list, Bumped(pri));
    var m := list[i].priority;
    assert Tenable(list, m);
    var k :| 0 <= k < |list| && list[k].priority == m && Stands(list, m, |list|, k);
    assert Lowest(list, Bumped(pri), |list|, k) && Stands(list, Bumped(pri), |list|, k);
    StandingKept(list, Bumped(pri), |list|, k);
    assert Moved(list, pri) == m;
    if p > m {
      TenableIsVisited(list, m, p);
    }
  }

  lemma {:induction false} LowestUpTo(list: seq<Address>, from: Word, k: nat) returns (i: nat)
    requires k <= |list| && exists j :: 0 <= j < k && from <= list[j].priority
    ensures Lowest(list, from, k, i)
  {
    var n := k - 1;
    if exists j :: 0 <= j < n && from <= list[j].priority {
      i := LowestUpTo(list, from, n);
      if from <= list[n].priority < list[i].priority {
        i := n;
      }
    } else {
      i := n;
    }
  }

  lemma LowestAt(list: seq<Address>, from: Word) returns (i: nat)
    requires exists j :: 0 <= j < |list| && from <= list[j].priority
    ensures Lowest(list, from, |list|, i)
  {
    i := LowestUpTo(list, from, |list|);
  }

  /** With equal weights it climbs through all of them. */
  lemma EqualWeights(list: seq<Address>, pri: Word)
    requires forall j, k :: 0 <= j < |list| && 0 <= k < |list| ==> list[j].weight == list[k].weight
    ensures forall p: Word :: p > pri && Occurs(list, p) ==> p in Visited(list, pri)
  {
    forall p: Word | p > pri && Occurs(list, p) ensures Tenable(list, p) {
      var i :| 0 <= i < |list| && list[i].priority == p;
      assert Stands(list, p, |list|, i);
    }
    VisitsAll(list, pri);
  }
}
