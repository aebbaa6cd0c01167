/** The intrusive lists behind `timeslots` and `assigned[]`: each slot has one
    `Next`, each list one head.  Modules Calls and Timeslots speak of the
    sequences that these pointers spell. */
module Links {
  import opened Common

  /** From `head`, following `next`, come exactly the slots of `s`. */
  predicate Chained(next: seq<Option<nat>>, head: Option<nat>, s: seq<nat>)
    decreases |s|
  {
    if s == [] then head == None
    else head == Some(s[0]) && s[0] < |next| && Chained(next, next[s[0]], s[1..])
  }

  lemma {:induction false} Determined(next: seq<Option<nat>>, head: Option<nat>, s: seq<nat>, t: seq<nat>)
    requires Chained(next, head, s) && Chained(next, head, t)
    ensures s == t
    decreases |s|
  {
    if s != [] {
      Determined(next, next[s[0]], s[1..], t[1..]);
    }
  }

  lemma {:induction false} FromTheMiddle(next: seq<Option<nat>>, head: Option<nat>, s: seq<nat>, k: nat)
    requires Chained(next, head, s) && k < |s|
    ensures Chained(next, Some(s[k]), s[k..])
    decreases |s|
  {
    if k > 0 {
      FromTheMiddle(next, next[s[0]], s[1..], k - 1);
      assert s[1..][k - 1..] == s[k..];
    }
  }

  /** A list that ends has no loop in it. */
  lemma Acyclic(next: seq<Option<nat>>, head: Option<nat>, s: seq<nat>)
    requires Chained(next, head, s)
    ensures NoDup(s)
  {
    forall j, k | 0 <= j < k < |s| ensures s[j] != s[k] {
      FromTheMiddle(next, head, s, j);
      FromTheMiddle(next, head, s, k);
      if s[j] == s[k] {
        Determined(next, Some(s[j]), s[j..], s[k..]);
      }
    }
  }

  lemma {:induction false} Unaffected(next: seq<Option<nat>>, head: Option<nat>, s: seq<nat>, i: nat, v: Option<nat>)
    requires Chained(next, head, s) && i !in s && i < |next|
    ensures Chained(next[i := v], head, s)
    decreases |s|
  {
    if s != [] {
      assert s[0] in s;
      Unaffected(next, next[s[0]], s[1..], i, v);
    }
  }

  /** Leading the slot before `i` past it takes `i` out. */
  lemma {:induction false} Spliced(next: seq<Option<nat>>, head: Option<nat>, s: seq<nat>, k: nat)
    requires Chained(next, head, s) && NoDup(s) && k + 1 < |s|
    ensures s[k] < |next| && s[k + 1] < |next|
    ensures Chained(next[s[k] := next[s[k + 1]]], head, s[..k + 1] + s[k + 2..])
    decreases |s|
  {
    var t := s[..k + 1] + s[k + 2..];
    FromTheMiddle(next, head, s, k);
    FromTheMiddle(next, head, s, k + 1);
    if k == 0 {
      assert s[1..][1..] == s[2..] && t[1..] == s[2..];
      assert Chained(next, next[s[1]], s[2..]);
      Unaffected(next, next[s[1]], s[2..], s[0], next[s[1]]);
    } else {
      assert NoDup(s[1..]) && s[1..][k - 1] == s[k] && s[1..][k] == s[k + 1];
      Spliced(next, next[s[0]], s[1..], k - 1);
      assert t[1..] == s[1..][..k] + s[1..][k + 1..];
    }
  }

  class Links {
    const next: array<Option<nat>>
    const heads: array<Option<nat>>
    ghost var lists: seq<seq<nat>>

    constructor (slots: nat, heads: nat)
      ensures Valid() && fresh(next) && fresh(this.heads) && next.Length == slots
      ensures lists == seq(heads, _ => [])
    {
      next := new Option<nat>[slots](_ => None);
      this.heads := new Option<nat>[heads](_ => None);
      lists := seq(heads, _ => []);
    }

    /** Every head spells its list, and no slot is on two of them. */
    ghost predicate Valid()
      reads this, next, heads
    {
      && next != heads && |lists| == heads.Length
      && (forall h :: 0 <= h < |lists| ==> Chained(next[..], heads[h], lists[h]))
      && (forall g, h :: 0 <= g < h < |lists| ==> forall x :: x in lists[g] ==> x !in lists[h])
    }

    /** enlist: the slot must be on no list, for it has only one `Next`. */
    method Enlist(h: nat, i: nat)
      requires Valid() && h < heads.Length && i < next.Length && forall g :: 0 <= g < |lists| ==> i !in lists[g]
      modifies this`lists, next, heads
      ensures Valid() && lists == old(lists)[h := [i] + old(lists)[h]]
    {
      ghost var nx := next[..];
      forall g | 0 <= g < |lists| ensures Chained(nx[i := heads[h]], heads[g], lists[g]) {
        Unaffected(nx, heads[g], lists[g], i, heads[h]);
      }
      next[i] := heads[h];
      heads[h] := Some(i);
      lists := lists[h := [i] + lists[h]];
    }

    /** delist: walk to the slot and lead its predecessor, or the head, past it. */
    method Remove(h: nat, i: nat)
      requires Valid() && h < heads.Length
      modifies this`lists, next, heads
      ensures Valid() && lists == old(lists)[h := Delist(old(lists)[h], i)]
    {
      ghost var s := lists[h];
      var prev: Option<nat>, node := None, heads[h];
      ghost var k := 0;
      while node != None && node != Some(i)
        invariant k <= |s| && Chained(next[..], node, s[k..])
        invariant i !in s[..k] && prev == if k == 0 then None else Some(s[k - 1])
        decreases |s| - k
      {
        assert s[..k + 1] == s[..k] + [s[k]];
        assert s[k..][1..] == s[k + 1..];
        prev := node;
        node := next[node.value];
        k := k + 1;
      }
      if node == None {
        assert s[..k] == s;
        return;
      }
      assert s[k] == i;
      Unlink(h, s, k, i, prev);
    }

    method Unlink(h: nat, ghost s: seq<nat>, ghost k: nat, i: nat, prev: Option<nat>)
      requires Valid() && h < heads.Length && s == lists[h] && k < |s| && s[k] == i && i !in s[..k]
      requires prev == if k == 0 then None else Some(s[k - 1])
      modifies this`lists, next, heads
      ensures Valid() && lists == old(lists)[h := Delist(s, i)]
    {
      ghost var nx, r := next[..], Delist(s, i);
      Acyclic(nx, heads[h], s);
      FromTheMiddle(nx, heads[h], s, k);
      assert IndexOf(s, i) == k && r == s[..k] + s[k + 1..];
      DelistMembers(s, i);
      assert s[k..][1..] == s[k + 1..];
      if prev == None {
        heads[h] := next[i];
        assert r == s[1..];
      } else {
        Spliced(nx, heads[h], s, k - 1);
        assert s[k - 1] in s;
        forall g | 0 <= g < |lists| && g != h ensures Chained(nx[s[k - 1] := nx[i]], heads[g], lists[g]) {
          Unaffected(nx, heads[g], lists[g], s[k - 1], nx[i]);
        }
        next[prev.value] := next[i];
      }
      lists := lists[h := r];
    }

    /** What allocate and the end of release do: off one list, onto another. */
    method Shift(g: nat, h: nat, i: nat)
      requires Valid() && g < heads.Length && h < heads.Length && g != h && i < next.Length
      requires forall k :: 0 <= k < |lists| && k != g ==> i !in lists[k]
      modifies this`lists, next, heads
      ensures Valid() && lists == old(lists)[g := Delist(old(lists)[g], i)][h := [i] + old(lists)[h]]
    {
      Acyclic(next[..], heads[g], lists[g]);
      DelistMembers(lists[g], i);
      Remove(g, i);
      Enlist(h, i);
    }
  }
}
