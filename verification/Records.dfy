/** The queue of call detail records (common/dbi.cpp).

    A record is with a caller from get to post, then pending, then in the batch
    that the drain works through, then on the free list.  Each method is one
    critical section, so any interleaving of callers and drain is a sequence of
    calls. */
module Records {
  import opened Common

  /** What a record says; `stop` is its type. */
  datatype Body = Body(stop: bool, timeslot: nat, sequence: nat, starting: nat, duration: nat)

  // ---- what is written, over a whole history ------------------------------------------

  /** The records between two drains that are still linked when the second comes:
      all of them if post moves the end of the list along, else only the first
      and the latest. */
  function Kept<T>(advances: bool, posted: seq<T>): seq<T> {
    if advances || |posted| <= 2 then posted else [posted[0], posted[|posted| - 1]]
  }

  predicate HasStop(posted: seq<Body>) { exists k :: 0 <= k < |posted| && posted[k].stop }

  /** What all drains together should write: the file is only opened when a call
      has ended since the drain before. */
  function Written(advances: bool, windows: seq<seq<Body>>): seq<Body> {
    if windows == [] then []
    else Written(advances, windows[..|windows| - 1]) +
         var w := windows[|windows| - 1]; if HasStop(w) then Kept(advances, w) else []
  }

  /** All records there have been, in the order in which they were posted. */
  function Flat(windows: seq<seq<Body>>): seq<Body> {
    if windows == [] then [] else Flat(windows[..|windows| - 1]) + windows[|windows| - 1]
  }

  /** This window reaches the file whole. */
  predicate Whole(advances: bool, w: seq<Body>) { w == [] || (HasStop(w) && (advances || |w| <= 2)) }

  lemma WholeIsKept(advances: bool, w: seq<Body>)
    ensures var kept := if HasStop(w) then Kept(advances, w) else [];
            |kept| <= |w| && (|kept| == |w| <==> Whole(advances, w)) && (Whole(advances, w) ==> kept == w)
  {
  }

  lemma {:induction false} WrittenFits(advances: bool, windows: seq<seq<Body>>)
    ensures |Written(advances, windows)| <= |Flat(windows)|
  {
    if windows != [] {
      WrittenFits(advances, windows[..|windows| - 1]);
      WholeIsKept(advances, windows[|windows| - 1]);
    }
  }

  /** The file holds everything that was posted, in order, iff each window between
      two drains is empty or holds a STOP and, unless the list's end moves along,
      no more than two records.  So a START alone in its window is lost always. */
  lemma {:induction false} InOrder(advances: bool, windows: seq<seq<Body>>)
    ensures Written(advances, windows) == Flat(windows) <==> forall k :: 0 <= k < |windows| ==> Whole(advances, windows[k])
  {
    if windows != [] {
      hide HasStop, Kept, Whole;
      var n := |windows| - 1;
      var ws, w := windows[..n], windows[n];
      var kept := if HasStop(w) then Kept(advances, w) else [];
      InOrder(advances, ws);
      WrittenFits(advances, ws);
      WholeIsKept(advances, w);
      assert forall k :: 0 <= k <= n ==> windows[k] == if k < n then ws[k] else w;
      assert forall k :: 0 <= k < n ==> ws[k] == windows[k];
      if Written(advances, windows) == Flat(windows) {
        assert |Written(advances, ws)| + |kept| == |Flat(ws)| + |w|;
        assert Written(advances, ws) == Written(advances, windows)[..|Flat(ws)|] == Flat(ws);
      }
    }
  }

  /** Not moving the end along makes no difference to the file iff no window with
      a STOP holds more than two records. */
  lemma {:induction false} AdvanceMatters(windows: seq<seq<Body>>)
    ensures Written(false, windows) == Written(true, windows) <==>
            (forall k :: 0 <= k < |windows| && HasStop(windows[k]) ==> |windows[k]| <= 2)
    ensures |Written(false, windows)| <= |Written(true, windows)|
  {
    if windows != [] {
      var n := |windows| - 1;
      var ws, w := windows[..n], windows[n];
      AdvanceMatters(ws);
      var a, b := Written(false, ws), Written(true, ws);
      if |a| == |b| && (HasStop(w) ==> |w| <= 2) {
      } else {
        assert |Written(false, windows)| < |Written(true, windows)|;
      }
      if Written(false, windows) == Written(true, windows) {
        assert a == Written(false, windows)[..|a|] && b == Written(true, windows)[..|b|];
      }
      assert forall k :: 0 <= k < n ==> ws[k] == windows[k];
      assert forall k :: 0 <= k <= n ==> windows[k] == if k < n then ws[k] else w;
      Lengths(windows);
    }
  }

  lemma {:induction false} Lengths(windows: seq<seq<Body>>)
    ensures |Written(false, windows)| <= |Written(true, windows)|
    ensures |Written(false, windows)| == |Written(true, windows)| ==> Written(false, windows) == Written(true, windows)
  {
    if windows != [] {
      Lengths(windows[..|windows| - 1]);
    }
  }

  // ---- the file ----------------------------------------------------------------------------

  /** The drain's FILE pointer.  It is not reset when the file is closed. */
  datatype File = Unset | Open | Closed

  predicate AnyStop(windows: seq<seq<Body>>) { exists k :: 0 <= k < |windows| && HasStop(windows[k]) }

  /** Some pass without a STOP comes after one with a STOP. */
  predicate Stale(windows: seq<seq<Body>>) {
    exists j, k :: 0 <= j < k < |windows| && HasStop(windows[j]) && !HasStop(windows[k])
  }

  lemma StaleNext(ws: seq<seq<Body>>, w: seq<Body>)
    ensures Stale(ws + [w]) <==> Stale(ws) || (AnyStop(ws) && !HasStop(w))
    ensures AnyStop(ws + [w]) <==> AnyStop(ws) || HasStop(w)
    ensures !Stale([]) && !AnyStop([])
  {
    hide HasStop;
    var all := ws + [w];
    if Stale(ws) {
      var j, k :| 0 <= j < k < |ws| && HasStop(ws[j]) && !HasStop(ws[k]);
      assert all[j] == ws[j] && all[k] == ws[k];
    }
    if AnyStop(ws) {
      var j :| 0 <= j < |ws| && HasStop(ws[j]);
      assert all[j] == ws[j] && all[|ws|] == w;
    }
    assert HasStop(w) ==> HasStop(all[|ws|]);
  }

  /** Where the file stands, with `rest` still to be written.  Closed files have
      been used iff a pass without a STOP has come after one with a STOP; and unless
      that happens, what has been written and has still to be is what it should. */
  ghost predicate FileOk(advances: bool, fp: File, draining: bool, misused: bool, windows: seq<seq<Body>>,
                         written: seq<Body>, rest: seq<Body>)
  {
    && (if draining then windows != [] else rest == [])
    && (fp == Unset <==> !AnyStop(windows))
    && (fp == Open <==> draining && HasStop(windows[|windows| - 1]))
    && (misused ==> Stale(windows))
    && (Stale(if draining then windows[..|windows| - 1] else windows) ==> misused)
    && (!Stale(windows) ==> written + (if fp == Open then rest else []) == Written(advances, windows))
  }

  lemma PassBegins(advances: bool, fp: File, misused: bool, windows: seq<seq<Body>>, written: seq<Body>, rest: seq<Body>,
                   posted: seq<Body>)
    requires FileOk(advances, fp, false, misused, windows, written, rest)
    ensures rest == []
    ensures FileOk(advances, if HasStop(posted) then Open else fp, true, misused, windows + [posted], written, Kept(advances, posted))
  {
    hide HasStop, Kept, Written, Stale, AnyStop;
    WrittenNext(advances, windows, posted);
    StaleNext(windows, posted);
    assert (windows + [posted])[..|windows|] == windows;
  }

  /** A pass that finds the file closed has no STOP and comes after one that had. */
  lemma PassIsStale(advances: bool, fp: File, misused: bool, windows: seq<seq<Body>>, written: seq<Body>, rest: seq<Body>)
    requires FileOk(advances, fp, true, misused, windows, written, rest)
    ensures fp == Closed ==> Stale(windows)
    ensures fp != Closed ==> (Stale(windows) <==> misused)
  {
    hide HasStop, Written, Stale, AnyStop;
    var n := |windows| - 1;
    assert windows == windows[..n] + [windows[n]];
    StaleNext(windows[..n], windows[n]);
  }

  /** One record of the pass: written to an open file, nowhere if there is none. */
  lemma PassGoesOn(advances: bool, fp: File, misused: bool, windows: seq<seq<Body>>, written: seq<Body>, b: Body, rest: seq<Body>,
                   written': seq<Body>)
    requires FileOk(advances, fp, true, misused, windows, written, [b] + rest)
    requires fp == Open ==> written' == written + [b]
    requires fp == Unset ==> written' == written
    ensures FileOk(advances, fp, true, misused || fp == Closed, windows, written', rest)
  {
    hide HasStop, Written, Stale, AnyStop;
    PassIsStale(advances, fp, misused, windows, written, [b] + rest);
    assert fp == Open ==> written + ([b] + rest) == written' + rest;
  }

  lemma HasStopPush(s: seq<Body>, b: Body)
    ensures HasStop(s + [b]) <==> HasStop(s) || b.stop
  {
    if HasStop(s) {
      var k :| 0 <= k < |s| && s[k].stop;
      assert (s + [b])[k].stop;
    }
    assert (s + [b])[|s|] == b;
  }

  lemma KeptPush(advances: bool, posted: seq<Body>, kept: seq<Body>, b: Body)
    requires kept == Kept(advances, posted)
    ensures Kept(advances, posted + [b]) == if advances || |kept| < 2 then kept + [b] else [kept[0], b]
  {
  }

  lemma NothingPosted(advances: bool, posted: seq<Body>)
    ensures HasStop(posted) ==> Kept(advances, posted) != []
    ensures Kept<Body>(advances, []) == [] && !HasStop([])
  {
  }

  lemma WrittenNext(advances: bool, windows: seq<seq<Body>>, w: seq<Body>)
    ensures Written(advances, windows + [w]) == Written(advances, windows) + if HasStop(w) then Kept(advances, w) else []
  {
    assert (windows + [w])[..|windows|] == windows;
  }

  // ---- the linked records ----------------------------------------------------------------

  class Dbi {
    var next: Dbi?
    var body: Body

    constructor ()
      ensures next == null
    {
      next := null;
      body := Body(false, 0, 0, 0, 0);
    }
  }

  /** `s` is the list that starts at `head`. */
  ghost predicate Chain(head: Dbi?, s: seq<Dbi>)
    reads s
  {
    && head == (if s == [] then null else s[0])
    && forall k :: 0 <= k < |s| ==> s[k].next == Follower(s, k)
  }

  ghost function Follower(s: seq<Dbi>, k: nat): Dbi? {
    if k + 1 < |s| then s[k + 1] else null
  }

  lemma ChainHead(head: Dbi?, s: seq<Dbi>)
    requires Chain(head, s)
    ensures head == if s == [] then null else s[0]
  {
  }

  lemma ChainNil()
    ensures Chain(null, [])
  {
  }

  lemma ChainTail(head: Dbi?, s: seq<Dbi>)
    requires s != [] && Chain(head, s)
    ensures Chain(s[0].next, s[1..])
  {
    forall k | 0 <= k < |s[1..]| ensures s[1..][k].next == Follower(s[1..], k) {
      assert s[k + 1].next == Follower(s, k + 1);
    }
  }

  lemma ChainPush(r: Dbi, s: seq<Dbi>)
    requires Chain(r.next, s)
    ensures Chain(r, [r] + s)
  {
    var t := [r] + s;
    forall k | 0 <= k < |t| ensures t[k].next == Follower(t, k) {
      if k > 0 {
        assert t[k] == s[k - 1] && s[k - 1].next == Follower(s, k - 1);
      }
    }
  }

  /** Each record but the last leads to the one after it. */
  ghost predicate Inside(s: seq<Dbi>)
    requires s != []
    reads Front(s)
  {
    forall k :: 0 <= k < |Front(s)| ==> Front(s)[k].next == s[k + 1]
  }

  function Front(s: seq<Dbi>): seq<Dbi>
    requires s != []
  {
    s[..|s| - 1]
  }

  lemma ChainInside(head: Dbi?, s: seq<Dbi>)
    requires Chain(head, s)
    ensures s != [] ==> Inside(s)
  {
    forall k | 0 <= k < |s| - 1 ensures s[k].next == s[k + 1] {
      assert s[k].next == Follower(s, k);
    }
  }

  /** Linking `r` behind the last record. */
  lemma ChainGrows(s: seq<Dbi>, r: Dbi)
    requires s != [] && Inside(s) && s[|s| - 1].next == r && r.next == null
    ensures Chain(s[0], s + [r])
  {
    var t := s + [r];
    forall k | 0 <= k < |t| ensures t[k].next == Follower(t, k) {
      assert k < |s| - 1 ==> Front(s)[k].next == s[k + 1];
    }
  }

  lemma LastOnce(s: seq<Dbi>)
    requires s != [] && NoDup(s)
    ensures s[|s| - 1] !in Front(s)
  {
  }

  /** With `r` behind the last record, or behind the first of two, what is linked
      is a chain again. */
  lemma Joined(advances: bool, s: seq<Dbi>, r: Dbi)
    requires r.next == null
    requires s != [] ==> if advances || |s| < 2 then Inside(s) && s[|s| - 1].next == r else s[0].next == r
    ensures var t := if advances || |s| < 2 then s + [r] else [s[0], r]; Chain(t[0], t)
  {
    if s == [] {
      assert [] + [r] == [r];
    } else if advances || |s| < 2 {
      ChainGrows(s, r);
    }
  }

  ghost function Bodies(s: seq<Dbi>): (r: seq<Body>)
    reads s
    ensures |r| == |s| && forall k :: 0 <= k < |s| ==> r[k] == s[k].body
  {
    seq(|s|, k requires 0 <= k < |s| reads s => s[k].body)
  }

  // ---- who has which record ------------------------------------------------------------------

  /** The three lists, the records that callers hold, and those that were posted
      and are linked nowhere any more. */
  datatype Places = Places(free: seq<Dbi>, pending: seq<Dbi>, batch: seq<Dbi>, held: set<Dbi>, lost: set<Dbi>)

  ghost predicate Linked(p: Places, r: Dbi) { r in p.free || r in p.pending || r in p.batch }

  /** Every record is in one place. */
  ghost predicate Apart(p: Places) {
    && NoDup(p.free) && NoDup(p.pending) && NoDup(p.batch)
    && (forall r :: r in p.free ==> r !in p.pending && r !in p.batch)
    && (forall r :: r in p.pending ==> r !in p.batch)
    && (forall r :: r in p.held ==> !Linked(p, r) && r !in p.lost)
    && (forall r :: r in p.lost ==> !Linked(p, r))
  }

  function Taken(p: Places): Places
    requires p.free != []
  {
    p.(free := p.free[1..], held := p.held + {p.free[0]})
  }

  function Given(p: Places, r: Dbi, advances: bool): Places {
    if advances || |p.pending| < 2 then p.(pending := p.pending + [r], held := p.held - {r})
    else p.(pending := [p.pending[0], r], held := p.held - {r}, lost := p.lost + {p.pending[1]})
  }

  function Delivered(p: Places): Places
    requires p.batch != []
  {
    p.(free := [p.batch[0]] + p.free, batch := p.batch[1..])
  }

  /** After `n` turns of the drain's loop. */
  function Drained(p: Places, n: nat): Places
    requires n <= |p.batch|
  {
    p.(free := Reversed(p.batch[..n]) + p.free, batch := p.batch[n..])
  }

  lemma DrainedNext(p: Places, n: nat)
    requires n <= |p.batch|
    ensures |Drained(p, n).batch| == |p.batch| - n && Drained(p, 0) == p
    ensures n < |p.batch| ==> Drained(p, n).batch[0] == p.batch[n] && Drained(p, n + 1) == Delivered(Drained(p, n))
  {
    hide Reversed;
    ReversedNil<Dbi>();
    assert p.batch[..0] == [] && [] + p.free == p.free;
    if n < |p.batch| {
      ReversedNext(p.batch, n);
      var r := Reversed(p.batch[..n]);
      assert [p.batch[n]] + (r + p.free) == ([p.batch[n]] + r) + p.free;
      assert p.batch[n..][1..] == p.batch[n + 1..];
    }
  }

  lemma TakenApart(p: Places)
    requires Apart(p) && p.free != []
    ensures Apart(Taken(p))
    ensures var r := p.free[0];
            r !in p.free[1..] && r !in p.pending && r !in p.batch && r !in p.held && r !in p.lost
  {
    assert p.free[0] in p.free;
    assert forall r :: r in p.free[1..] ==> r in p.free;
    assert forall r :: r in p.held ==> !Linked(p, r);
  }

  lemma MadeApart(p: Places, r: Dbi)
    requires Apart(p) && !Linked(p, r) && r !in p.lost
    ensures Apart(p.(held := p.held + {r}))
  {
  }

  lemma GivenApart(p: Places, r: Dbi, advances: bool)
    requires Apart(p) && r in p.held && (advances || |p.pending| <= 2)
    ensures Apart(Given(p, r, advances)) && !Linked(p, r) && NoDup(p.pending)
    ensures p.pending != [] ==> forall q :: q in p.pending ==> q !in p.free && q !in p.batch
  {
    var p' := Given(p, r, advances);
    assert forall q :: q in p'.pending ==> q in p.pending || q == r;
    assert forall q :: q in p'.lost ==> q in p.lost || q in p.pending;
    if !advances && |p.pending| == 2 {
      assert p.pending[0] in p.pending && p.pending[1] in p.pending;
    }
  }

  lemma DetachedApart(p: Places)
    requires Apart(p) && p.batch == []
    ensures Apart(p.(pending := [], batch := p.pending))
  {
  }

  lemma DeliveredApart(p: Places)
    requires Apart(p) && p.batch != []
    ensures Apart(Delivered(p))
    ensures var r := p.batch[0]; r !in p.free && r !in p.pending && r !in p.batch[1..]
  {
    var p' := Delivered(p);
    assert p.batch[0] in p.batch;
    assert forall r :: r in p'.free ==> r in p.free || r == p.batch[0];
    assert forall r :: r in p'.batch ==> r in p.batch;
    assert forall r :: Linked(p', r) ==> Linked(p, r);
  }

  // ---- the queue ------------------------------------------------------------------------------

  class Queue {
    /** Whether post moves `runlast` along.  In common/dbi.cpp it does not. */
    const advances: bool
    var freelist: Dbi?
    var runlist: Dbi?
    var runlast: Dbi?
    var cdr: bool
    var cp: Dbi?            // the drain's batch
    var fp: File
    var written: seq<Body>
    ghost var draining: bool   // a batch has been taken and its file not yet seen to
    ghost var misused: bool    // a closed file has been written to or closed again
    ghost var at: Places
    ghost var posted: seq<Body>
    ghost var windows: seq<seq<Body>>

    constructor (advances: bool)
      ensures Valid() && this.advances == advances && at == Places([], [], [], {}, {}) && windows == [] && !draining && !misused
    {
      this.advances := advances;
      freelist, runlist, runlast, cp := null, null, null, null;
      cdr, fp, written, draining, misused := false, Unset, [], false, false;
      at, posted, windows := Places([], [], [], {}, {}), [], [];
    }

    /** The pointers are what the lists say, and every record is in one place. */
    ghost predicate Shaped()
      reads `freelist, `runlist, `runlast, `cp, `at, at.free, at.pending, at.batch
    {
      && Chain(freelist, at.free) && Chain(runlist, at.pending) && Chain(cp, at.batch) && Apart(at)
      && runlast == (if at.pending == [] then null else if advances then at.pending[|at.pending| - 1] else at.pending[0])
      && (if advances then at.lost == {} else |at.pending| <= 2)
    }

    /** What is linked says what was posted. */
    ghost predicate Faithful()
      reads `at, `posted, `cdr, at.pending
    {
      Bodies(at.pending) == Kept(advances, posted) && (cdr <==> HasStop(posted))
    }

    ghost predicate Filed()
      reads `fp, `draining, `misused, `windows, `written, `at, at.batch
    {
      FileOk(advances, fp, draining, misused, windows, written, Bodies(at.batch))
    }

    ghost predicate Valid()
      reads this, at.free, at.pending, at.batch
    {
      Shaped() && Faithful() && Filed()
    }

    /** A record from get is on no list, and nobody else holds it. */
    method Get() returns (rec: Dbi)
      requires Valid()
      modifies this`freelist, this`at, OrNone(freelist)`body
      ensures Valid() && rec !in old(at.held) && !Linked(at, rec) && rec !in at.lost
      ensures if old(at.free) == [] then fresh(rec) && at == old(at).(held := old(at.held) + {rec})
              else rec == old(at.free[0]) && at == Taken(old(at)) && rec.body == Body(old(at.free[0].body.stop), 0, 0, 0, 0)
    {
      hide Chain, Apart, Kept, HasStop, FileOk, Bodies;
      ChainHead(freelist, at.free);
      if freelist != null {
        TakenApart(at);
        ChainTail(freelist, at.free);
        rec := freelist;
        freelist := rec.next;
        at := Taken(at);
        rec.body := rec.body.(timeslot := 0, sequence := 0, starting := 0, duration := 0);
      } else {
        rec := new Dbi();
        MadeApart(at, rec);
        at := at.(held := at.held + {rec});
      }
    }

    /** The caller writes its record. */
    method Fill(rec: Dbi, body: Body)
      requires Valid() && rec in at.held
      modifies rec`body
      ensures Valid() && rec.body == body
    {
      hide Chain, Kept, HasStop, Written, Bodies;
      assert !Linked(at, rec);
      rec.body := body;
    }

    /** Without the advance a third record unlinks the second. */
    method Post(rec: Dbi)
      requires Valid() && rec in at.held
      modifies this`runlist, this`runlast, this`cdr, this`at, this`posted, rec`next, OrNone(runlast)`next
      ensures Valid() && at == Given(old(at), rec, advances) && posted == old(posted) + [rec.body]
    {
      hide Shaped, Kept, HasStop, Bodies, FileOk;
      HasStopPush(posted, rec.body);
      KeptPush(advances, posted, Bodies(at.pending), rec.body);
      ghost var said := Bodies(at.pending);
      Link(rec);
      if rec.body.stop {
        cdr := true;
      }
      posted := posted + [rec.body];
      assert Bodies(at.pending) == if advances || |said| < 2 then said + [rec.body] else [said[0], rec.body];
    }

    method Link(rec: Dbi)
      requires Shaped() && rec in at.held
      modifies this`runlist, this`runlast, this`at, rec`next, OrNone(runlast)`next
      ensures Shaped() && at == Given(old(at), rec, advances) && Bodies(at.batch) == old(Bodies(at.batch))
    {
      hide Chain, Apart, Inside, Bodies, NoDup;
      ghost var was := at.pending;
      GivenApart(at, rec, advances);
      ChainHead(runlist, was);
      ChainInside(runlist, was);
      rec.next := null;
      if runlast != null {
        assert runlast in was && runlast !in at.free && runlast !in at.batch;
        LastOnce(was);
        runlast.next := rec;
      } else {
        runlist, runlast := rec, rec;
      }
      Joined(advances, was, rec);
      if advances {
        runlast := rec;
      }
      at := Given(at, rec, advances);
    }

    /** The drain takes over what is pending.  A STOP among the posts opens the file;
        without one the pointer stays what it was. */
    method Detach()
      requires Valid() && !draining
      modifies this`cp, this`fp, this`cdr, this`runlist, this`runlast, this`at, this`posted, this`windows, this`draining
      ensures Valid() && draining && at == old(at).(pending := [], batch := old(at.pending)) && posted == []
      ensures windows == old(windows) + [old(posted)] && Bodies(at.batch) == Kept(advances, old(posted))
      ensures fp == if HasStop(old(posted)) then Open else old(fp)
    {
      hide Shaped, Kept, HasStop, Bodies, FileOk;
      PassBegins(advances, fp, misused, windows, written, Bodies(at.batch), posted);
      assert |at.batch| == |Bodies(at.batch)|;
      NothingPosted(advances, posted);
      Heads();
      if runlist != null && cdr {
        fp := Open;
      }
      TakeOver();
      cdr := false;
      windows := windows + [posted];
      posted := [];
      draining := true;
    }

    method TakeOver()
      requires Shaped() && at.batch == []
      modifies this`cp, this`runlist, this`runlast, this`at
      ensures Shaped() && at == old(at).(pending := [], batch := old(at.pending))
      ensures Bodies(at.batch) == old(Bodies(at.pending))
    {
      hide Chain, Apart, Bodies;
      ChainNil();
      DetachedApart(at);
      cp := runlist;
      runlist, runlast := null, null;
      at := at.(pending := [], batch := at.pending);
    }

    lemma Heads()
      requires Shaped()
      ensures cp == if at.batch == [] then null else at.batch[0]
      ensures runlist == if at.pending == [] then null else at.pending[0]
    {
    }

    /** One turn of the drain's loop.  Nothing is known of what a write to a closed
        file does. */
    method Deliver()
      requires Valid() && draining && cp != null
      modifies this`cp, this`freelist, this`written, this`misused, this`at, cp`next
      ensures Valid() && old(at.batch) != [] && at == Delivered(old(at))
      ensures fp == Open ==> written == old(written) + [old(cp.body)]
      ensures fp == Unset ==> written == old(written)
      ensures misused <==> old(misused) || fp == Closed
      ensures old(Bodies(at.batch)) == [old(cp.body)] + Bodies(at.batch)
    {
      hide Shaped, Kept, HasStop, Bodies, FileOk;
      ghost var b, text, used := cp.body, written, misused;
      if fp != Unset {
        if fp == Closed {
          misused := true;
          written := *;
        } else {
          written := written + [cp.body];
        }
      }
      Recycle();
      PassGoesOn(advances, fp, used, windows, text, b, Bodies(at.batch), written);
    }

    /** After the loop: the file is closed if the pointer is set, open or not. */
    method Finish()
      requires Valid() && draining && cp == null
      modifies this`fp, this`misused, this`draining
      ensures Valid() && !draining && at.batch == []
      ensures misused <==> Stale(windows)
      ensures !Stale(windows) ==> written == Written(advances, windows)
    {
      hide Shaped, Kept, HasStop, Written, Bodies, Stale, AnyStop;
      Heads();
      PassIsStale(advances, fp, misused, windows, written, Bodies(at.batch));
      if fp != Unset {
        if fp == Closed {
          misused := true;
        }
        fp := Closed;
      }
      draining := false;
    }

    /** The cursor's record goes to the front of the free list. */
    method Recycle()
      requires Shaped() && cp != null
      modifies this`cp, this`freelist, this`at, cp`next
      ensures Shaped() && old(at.batch) != [] && at == Delivered(old(at))
      ensures old(Bodies(at.batch)) == [old(cp.body)] + Bodies(at.batch)
      ensures Bodies(at.pending) == old(Bodies(at.pending))
    {
      hide Chain, Apart, Bodies;
      ChainHead(cp, at.batch);
      DeliveredApart(at);
      ChainTail(cp, at.batch);
      var next := cp.next;
      cp.next := freelist;
      freelist := cp;
      ChainPush(cp, at.free);
      at := Delivered(at);
      cp := next;
    }

    /** The rest of a pass: the whole batch is recycled.  No pass so far has used a
        closed file iff none without a STOP came after one with a STOP; and then the
        file holds exactly what the windows keep, in order. */
    method Drain()
      requires Valid() && draining
      modifies this`cp, this`freelist, this`written, this`misused, this`fp, this`draining, this`at, at.batch
      ensures Valid() && !draining && at == Drained(old(at), |old(at).batch|)
      ensures misused <==> Stale(windows)
      ensures !Stale(windows) ==> written == Written(advances, windows)
    {
      hide Shaped, Kept, HasStop, Written, Bodies, Drained, Delivered, Stale, FileOk;
      ghost var all := at.batch;
      ghost var n := 0;
      DrainedNext(at, 0);
      while cp != null
        invariant Valid() && draining && n <= |all| && at == Drained(old(at), n) && |at.batch| == |all| - n
        decreases |at.batch|
      {
        Heads();
        DrainedNext(old(at), n);
        assert cp == all[n] && cp in all;
        Deliver();
        n := n + 1;
      }
      Heads();
      DrainedNext(old(at), n);
      Finish();
    }
  }

  function OrNone(r: Dbi?): set<Dbi> { if r == null then {} else {r} }

  function Reversed<T>(s: seq<T>): seq<T> { if s == [] then [] else Reversed(s[1..]) + [s[0]] }

  lemma ReversedNil<T>()
    ensures Reversed<T>([]) == []
  {
  }

  lemma {:induction false} ReversedPush<T>(s: seq<T>, x: T)
    ensures Reversed(s + [x]) == [x] + Reversed(s)
  {
    if s != [] {
      assert (s + [x])[1..] == s[1..] + [x];
      ReversedPush(s[1..], x);
    }
  }

  lemma ReversedNext<T>(s: seq<T>, n: nat)
    requires n < |s|
    ensures Reversed(s[..n + 1]) == [s[n]] + Reversed(s[..n])
  {
    assert s[..n + 1] == s[..n] + [s[n]];
    ReversedPush(s[..n], s[n]);
  }
}
