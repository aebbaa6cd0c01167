/** Small vocabulary shared by every model: optional values and the list
    operations that the telephony code performs on its intrusive lists. */
module Common {

  datatype Option<+T> = None | Some(value: T)

  ghost predicate NoDup<T>(s: seq<T>) {
    forall j, k :: 0 <= j < k < |s| ==> s[j] != s[k]
  }

  /** Where `x` first occurs. */
  function IndexOf<T(==)>(s: seq<T>, x: T): (p: nat)
    requires x in s
    ensures p < |s| && s[p] == x
    ensures forall j :: 0 <= j < p ==> s[j] != x
  {
    if s[0] == x then 0 else 1 + IndexOf(s[1..], x)
  }

  /** Unlink the first occurrence of `x`; a list without `x` is left alone. */
  function Delist<T(==)>(s: seq<T>, x: T): (r: seq<T>)
    ensures x !in s ==> r == s
    ensures x in s ==> |r| == |s| - 1
    ensures x in s ==> forall k :: 0 <= k < |r| ==> r[k] == if k < IndexOf(s, x) then s[k] else s[k + 1]
  {
    if x in s then s[..IndexOf(s, x)] + s[IndexOf(s, x) + 1..] else s
  }

  /** In a list without duplicates, unlinking removes exactly `x`. */
  lemma DelistMembers<T>(s: seq<T>, x: T)
    requires NoDup(s)
    ensures NoDup(Delist(s, x))
    ensures forall y :: y in Delist(s, x) <==> y in s && y != x
  {
    if x in s {
      var p := IndexOf(s, x);
      var a, b := s[..p], s[p + 1..];
      assert s == a + [x] + b;
      assert Delist(s, x) == a + b;
      assert forall j :: 0 <= j < |a| ==> a[j] == s[j];
      assert forall j :: 0 <= j < |b| ==> b[j] == s[j + p + 1];
      assert x !in a && x !in b;
    }
  }

  /** Pushing a stranger onto a list and unlinking it again changes nothing. */
  lemma DelistPushed<T>(s: seq<T>, x: T)
    ensures Delist([x] + s, x) == s
  {
    assert ([x] + s)[0] == x;
    assert IndexOf([x] + s, x) == 0;
  }

  /** Stepping a wrapped counter is stepping the true one and wrapping it. */
  lemma WrapUp(x: int, m: int)
    requires m > 0
    ensures (x % m + 1) % m == (x + 1) % m
  {
    var q, r := x / m, x % m;
    assert x == q * m + r;
    if r + 1 < m {
      ModUnique(x + 1, q, r + 1, m);
      ModUnique(r + 1, 0, r + 1, m);
    } else {
      OneMore(q, m);
      ModUnique(x + 1, q + 1, 0, m);
      ModUnique(m, 1, 0, m);
    }
  }

  lemma WrapDown(x: int, m: int)
    requires m > 0
    ensures (x % m + m - 1) % m == (x - 1) % m
  {
    var q, r := x / m, x % m;
    assert x == q * m + r;
    if r == 0 {
      OneMore(q - 1, m);
      ModUnique(x - 1, q - 1, m - 1, m);
      ModUnique(m - 1, 0, m - 1, m);
    } else {
      ModUnique(x - 1, q, r - 1, m);
      ModUnique(r + m - 1, 1, r - 1, m);
    }
  }

  lemma OneMore(q: int, m: int)
    ensures (q + 1) * m == q * m + m
  {
  }

  lemma ModUnique(x: int, q: int, r: int, m: int)
    requires 0 <= r < m && x == q * m + r
    ensures x % m == r
  {
    var d := x / m - q;
    assert x == (x / m) * m + x % m;
    assert d * m == r - x % m by {
      assert d * m == (x / m) * m - q * m;
    }
    assert d >= 1 ==> d * m >= m;
    assert d <= -1 ==> d * m <= -m;
  }

  function Count<T(==)>(s: seq<T>, x: T): nat {
    if s == [] then 0 else (if s[0] == x then 1 else 0) + Count(s[1..], x)
  }

  /** What is left of a timer; zero once it is due. */
  function Remaining(timer: Option<nat>, now: nat): Option<nat> {
    match timer
    case None => None
    case Some(d) => if d <= now then Some(0) else Some(d - now)
  }

  lemma {:induction false} CountAppend<T>(a: seq<T>, b: seq<T>, x: T)
    ensures Count(a + b, x) == Count(a, x) + Count(b, x)
  {
    if a == [] {
      assert a + b == b;
    } else {
      assert (a + b)[1..] == a[1..] + b;
      CountAppend(a[1..], b, x);
    }
  }
}
