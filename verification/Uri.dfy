/** Splitting, joining and printing URIs (common/uri.cpp, sipw/srv.cpp): what the
    functions compute on strings, and the methods that write it into a buffer. */
module Uri {
  import opened Common

  /** A C string holds no NUL. */
  type CString = s: string | '\0' !in s witness ""

  // ---- the string library --------------------------------------------------------

  /** Up to the first `c`, or all of it. */
  function Until(s: string, c: char): string {
    if c in s then s[..IndexOf(s, c)] else s
  }

  /** After the first `c`, or all of it. */
  function Beyond(s: string, c: char): string {
    if c in s then s[IndexOf(s, c) + 1..] else s
  }

  function LastIndexOf(s: string, c: char): (p: nat)
    requires c in s
    ensures p < |s| && s[p] == c
    ensures forall j :: p < j < |s| ==> s[j] != c
  {
    if s[|s| - 1] == c then |s| - 1 else LastIndexOf(s[..|s| - 1], c)
  }

  /** What snprintf leaves of `s` in a buffer of this size. */
  function Truncated(s: string, size: nat): (r: string)
    ensures r <= s && (r == s || |r| + 1 == size || size == 0) && (size > 0 ==> |r| < size)
  {
    if |s| < size then s else if size == 0 then "" else s[..size - 1]
  }

  lemma SplitAt(a: string, c: char, b: string)
    requires c !in a
    ensures var s := a + [c] + b; c in s && IndexOf(s, c) == |a| && Until(s, c) == a && Beyond(s, c) == b
  {
    var s := a + [c] + b;
    assert s[|a|] == c;
    assert forall j :: 0 <= j < |a| ==> s[j] == a[j] != c;
  }

  lemma Rejoined(s: string, c: char)
    requires c in s
    ensures s == Until(s, c) + [c] + Beyond(s, c) && c !in Until(s, c)
  {
  }

  // ---- schemes ----------------------------------------------------------------------

  /** The scheme that the functions print for `s`. */
  function Scheme(s: string): string {
    if "sips:" <= s then "sips:" else if "iax:" <= s then "iax:" else if "h323:" <= s then "h323:" else "sip:"
  }

  predicate Known(s: string) { "sips:" <= s || "iax:" <= s || "h323:" <= s || "sip:" <= s }

  /** Without its scheme; only some functions take `udp:` for one. */
  function Bare(s: string, udp: bool): string { s[Skipped(s, udp)..] }

  function Skipped(s: string, udp: bool): (n: nat)
    ensures n <= |s|
  {
    if "sips:" <= s || "h323:" <= s then 5
    else if "sip:" <= s || "iax:" <= s || "tcp:" <= s || (udp && "udp:" <= s) then 4
    else 0
  }

  function Create(server: string, userid: Option<string>): string {
    var rest := Bare(server, false);
    if '@' !in rest && userid.Some? then Scheme(server) + userid.value + "@" + rest else Scheme(server) + rest
  }

  function Server(uri: string): string { Scheme(uri) + Beyond(Bare(uri, true), '@') }

  function UserId(uri: string): Option<string> {
    var rest := Bare(uri, true);
    if '@' in rest then Some(Until(rest, '@')) else None
  }

  lemma SchemeBack(uri: string, t: string)
    ensures var s := Scheme(uri) + t; Known(s) && Scheme(s) == Scheme(uri) && Bare(s, true) == t && Bare(s, false) == t
    ensures Known(uri) ==> uri == Scheme(uri) + Bare(uri, true) && Bare(uri, true) == Bare(uri, false)
    ensures !Known(uri) ==> |uri| <= |Bare(uri, true)| + 4 && (uri == Scheme(uri) + Bare(uri, true) ==> false)
  {
    var s := Scheme(uri) + t;
    assert s[..|Scheme(uri)|] == Scheme(uri) && s[|Scheme(uri)|..] == t;
    assert s[0] == Scheme(uri)[0] && s[1] == Scheme(uri)[1] && s[2] == Scheme(uri)[2] && s[3] == Scheme(uri)[3];
    if Known(uri) {
      assert uri == Scheme(uri) + Bare(uri, true);
    }
  }

  lemma {:induction false} CountNone(s: string, c: char)
    ensures Count(s, c) == 0 <==> c !in s
  {
    if s != [] {
      assert s == [s[0]] + s[1..];
      CountNone(s[1..], c);
    }
  }

  /** A string holds one more `c` than what follows its first. */
  lemma CountBeyond(s: string, c: char)
    requires c in s
    ensures Count(s, c) == 1 + Count(Beyond(s, c), c)
  {
    Rejoined(s, c);
    var a, b := Until(s, c), Beyond(s, c);
    CountAppend(a + [c], b, c);
    CountAppend(a, [c], c);
    CountNone(a, c);
    assert Count([c], c) == 1;
  }

  lemma SchemeCount(uri: string)
    ensures '@' !in Scheme(uri) && (Known(uri) ==> Count(uri, '@') == Count(Bare(uri, true), '@'))
  {
    SchemeBack(uri, "");
    CountAppend(Scheme(uri), Bare(uri, true), '@');
    CountNone(Scheme(uri), '@');
  }

  /** Split and join are inverse: taking a URI apart and joining the parts gives
      it back iff it carries a scheme that create prints and at most one '@'. */
  lemma SplitJoin(x: string)
    ensures Create(Server(x), UserId(x)) == x <==> Known(x) && Count(x, '@') <= 1
  {
    var rest := Bare(x, true);
    var h := Beyond(rest, '@');
    SchemeBack(x, h);
    SchemeCount(x);
    if '@' in rest {
      Rejoined(rest, '@');
      CountBeyond(rest, '@');
    }
    CountNone(rest, '@');
    CountNone(h, '@');
    SplitJoinCases(x, rest, h);
  }

  lemma SplitJoinCases(x: string, rest: string, h: string)
    requires rest == Bare(x, true) && h == Beyond(rest, '@')
    ensures Create(Server(x), UserId(x)) == x <==> Known(x) && ('@' in rest ==> '@' !in h)
  {
    hide Scheme, Bare, Known;
    SchemeBack(x, h);
    var r := Create(Server(x), UserId(x));
    if '@' in rest {
      var u := Until(rest, '@');
      Rejoined(rest, '@');
      if '@' in h {
        assert r == Scheme(x) + h;
      } else {
        assert r == Scheme(x) + u + "@" + h;
        assert r == Scheme(x) + rest;
      }
    } else {
      assert r == Scheme(x) + rest;
    }
  }

  /** Join and split are inverse: a server and a user come back from their URI,
      the server with its scheme normalised, iff the server names no user of its
      own and the user no '@', or the server already names this very user. */
  lemma JoinSplit(s: string, u: string)
    ensures var x := Create(s, Some(u));
            Server(x) == Server(s) && UserId(x) == Some(u) <==>
            if '@' in s then u == Until(Bare(s, false), '@') else '@' !in u && !("udp:" <= s)
  {
    hide Scheme, Bare, Known;
    BareAt(s);
    if '@' in s {
      SchemeBack(s, Bare(s, false));
      OwnUser(s);
    } else {
      PlainServer(s, u);
    }
  }

  lemma PlainServer(s: string, u: string)
    requires '@' !in s
    ensures var x := Create(s, Some(u));
            Server(x) == Server(s) && UserId(x) == Some(u) <==> '@' !in u && !("udp:" <= s)
  {
    hide Scheme, Bare, Known;
    var rest := Bare(s, false);
    var t := u + ['@'] + rest;
    BareAt(s);
    BareUdp(s);
    SchemeBack(s, t);
    assert t == u + "@" + rest && t[|u|] == '@';
    assert Create(s, Some(u)) == Scheme(s) + t;
    Rejoined(t, '@');
    if '@' !in u {
      SplitAt(u, '@', rest);
      assert Server(Create(s, Some(u))) == Scheme(s) + rest;
      assert Server(s) == Scheme(s) + Bare(s, true);
    }
  }

  lemma BareUdp(s: string)
    ensures if "udp:" <= s then Bare(s, false) == "udp:" + Bare(s, true) else Bare(s, true) == Bare(s, false)
  {
    if "udp:" <= s {
      assert s[0] == "udp:"[0];
      assert s == "udp:" + s[4..];
    }
  }

  /** Stripping a scheme neither adds nor removes an '@'. */
  lemma BareAt(s: string)
    ensures '@' in s <==> '@' in Bare(s, false)
    ensures '@' in s <==> '@' in Bare(s, true)
  {
    NoAtSkipped(s, false);
    NoAtSkipped(s, true);
    SuffixHas(s, Skipped(s, false));
    SuffixHas(s, Skipped(s, true));
  }

  lemma SuffixHas(s: string, n: nat)
    requires n <= |s| && '@' !in s[..n]
    ensures '@' in s <==> '@' in s[n..]
  {
    assert s == s[..n] + s[n..];
  }

  lemma NoAtSkipped(s: string, udp: bool)
    ensures '@' !in s[..Skipped(s, udp)]
  {
    var p := s[..Skipped(s, udp)];
    assert p == "" || p == "sips:" || p == "h323:" || p == "sip:" || p == "iax:" || p == "tcp:" || p == "udp:";
  }

  /** create keeps `udp:` in front of a server that names a user; server drops it. */
  lemma OwnUser(s: string)
    requires '@' in Bare(s, false)
    ensures Beyond(Bare(s, true), '@') == Beyond(Bare(s, false), '@')
  {
    hide Bare;
    var a, b := Bare(s, false), Bare(s, true);
    BareUdp(s);
    if "udp:" <= s {
      BareAt(s);
      assert a[4..] == b && a[..4] == "udp:";
      BeyondSkipped(a, 4);
    }
  }

  /** An address without a scheme is a sip one, and so is one of scheme tcp; server takes
      udp for sip too, but create keeps it as part of the host. */
  lemma Normalised(h: string, u: string)
    requires Skipped(h, true) == 0 && '@' !in h
    ensures Create(h, Some(u)) == Create("tcp:" + h, Some(u)) == Create("sip:" + h, Some(u)) == "sip:" + u + "@" + h
    ensures Create("udp:" + h, Some(u)) == "sip:" + u + "@udp:" + h
    ensures Server(h) == Server("tcp:" + h) == Server("udp:" + h) == Server("sip:" + h) == "sip:" + h
  {
    hide Create, Server;
    NormalisedForms(h, "tcp:", u);
    NormalisedForms(h, "udp:", u);
    NormalisedForms(h, "sip:", u);
    assert Create(h, Some(u)) == "sip:" + u + "@" + h && Server(h) == "sip:" + h by {
      PlainForms(h, u);
    }
  }

  lemma PlainForms(h: string, u: string)
    requires Skipped(h, true) == 0 && '@' !in h
    ensures Create(h, Some(u)) == "sip:" + u + "@" + h && Server(h) == "sip:" + h
  {
  }

  lemma NormalisedForms(h: string, p: string, u: string)
    requires (p == "tcp:" || p == "udp:" || p == "sip:") && '@' !in h
    ensures Server(p + h) == "sip:" + h
    ensures Create(p + h, Some(u)) == "sip:" + u + "@" + if p == "udp:" then p + h else h
  {
    var s := p + h;
    assert s[0] == p[0] && s[1] == p[1] && s[2] == p[2] && s[3] == p[3];
    assert s[4..] == h;
    OneScheme(s);
    assert p <= s;
    assert s[3] == ':';
  }

  // ---- dialling relative to another identity --------------------------------------------

  /** The scheme of what is dialled, else that of the caller's identity; the
      last three carry no colon. */
  function DialScheme(to: string, id: string): string {
    if Skipped(to, true) > 0 then Scheme(to)
    else if "sips:" <= id then "sips:" else if "iax:" <= id then "iax:"
    else if "h323:" <= id then "h323" else if "tcp:" <= id || "udp:" <= id then "sip"
    else "sip:"
  }

  function HostOf(id: string): string { if '@' in id then Beyond(id, '@') else Bare(id, true) }

  function Dialed(to: string, id: string): string {
    var rest := Bare(to, true);
    if '@' in rest then DialScheme(to, id) + rest else DialScheme(to, id) + rest + "@" + HostOf(id)
  }

  /** Dialling keeps the server and names the extension iff the extension is bare
      and the identity is not of the schemes that lose their colon. */
  lemma RelativeDial(to: string, id: string)
    ensures var x := Dialed(to, id);
            UserId(x) == Some(to) && Server(x) == Server(id) <==>
            '@' !in to && Skipped(to, true) == 0 && !("h323:" <= id || "tcp:" <= id || "udp:" <= id)
  {
    BareAt(to);
    if '@' in to {
      UserHasNoAt(Dialed(to, id));
    } else if Skipped(to, true) > 0 {
      DialedUser(to, to, id);
    } else if "h323:" <= id || "tcp:" <= id || "udp:" <= id {
      NoColon(to, id);
    } else {
      assert DialScheme(to, id) == Scheme(id);
      DialedUser(id, to, id);
      ServerHost(id);
    }
  }

  lemma UserHasNoAt(x: string)
    ensures UserId(x).Some? ==> '@' !in UserId(x).value
  {
    if '@' in Bare(x, true) {
      Rejoined(Bare(x, true), '@');
    }
  }

  lemma DialedUser(scheme: string, to: string, id: string)
    requires '@' !in to && DialScheme(to, id) == Scheme(scheme)
    ensures UserId(Dialed(to, id)) == Some(Bare(to, true)) && Server(Dialed(to, id)) == Scheme(scheme) + HostOf(id)
  {
    hide Scheme, Bare, Known, Skipped, DialScheme, HostOf;
    BareAt(to);
    var u, h := Bare(to, true), HostOf(id);
    SplitAt(u, '@', h);
    SchemeBack(scheme, u + ['@'] + h);
    assert Dialed(to, id) == Scheme(scheme) + (u + ['@'] + h);
  }

  /** The identity's scheme is of those that lose their colon. */
  predicate LosesColon(id: string) { "h323:" <= id || "tcp:" <= id || "udp:" <= id }

  /** An address that names its own host is dialled there: what follows its first '@'
      stays, and so does its user, iff it has a scheme itself or the identity's keeps
      its colon; the scheme is then its own, if it has one, or else the identity's. */
  lemma DialOwnHost(to: string, id: string)
    requires '@' in to
    ensures '@' in Dialed(to, id) && Beyond(Dialed(to, id), '@') == Beyond(to, '@')
    ensures UserId(Dialed(to, id)) == UserId(to) <==> Skipped(to, true) > 0 || !LosesColon(id)
    ensures Skipped(to, true) > 0 ==> Server(Dialed(to, id)) == Server(to)
    ensures Skipped(to, true) == 0 && !LosesColon(id) ==> Server(Dialed(to, id)) == Scheme(id) + Beyond(to, '@')
  {
    hide Scheme, Known, Skipped, DialScheme;
    var p, rest := DialScheme(to, id), Bare(to, true);
    BareAt(to);
    NoAtSkipped(to, true);
    BeyondSkipped(to, Skipped(to, true));
    DialSchemes(to, id);
    PrefixBeyond(p, rest);
    if Skipped(to, true) > 0 {
      SchemeBack(to, rest);
    } else if !LosesColon(id) {
      SchemeBack(id, rest);
    } else {
      LongerUser(p, rest);
    }
  }

  /** With a scheme but no host of its own it is dialled at the identity's host, under
      its own scheme. */
  lemma DialOwnScheme(to: string, id: string)
    requires '@' !in to && Skipped(to, true) > 0
    ensures UserId(Dialed(to, id)) == Some(Bare(to, true))
    ensures Scheme(id) <= Server(id) && Server(Dialed(to, id)) == Scheme(to) + Server(id)[|Scheme(id)|..]
  {
    hide Scheme, HostOf;
    DialSchemes(to, id);
    DialedUser(to, to, id);
    ServerHost(id);
    assert (Scheme(id) + HostOf(id))[|Scheme(id)|..] == HostOf(id);
  }

  lemma DialSchemes(to: string, id: string)
    ensures '@' !in DialScheme(to, id)
    ensures Skipped(to, true) > 0 ==> DialScheme(to, id) == Scheme(to)
    ensures Skipped(to, true) == 0 && !LosesColon(id) ==> DialScheme(to, id) == Scheme(id)
    ensures Skipped(to, true) == 0 && LosesColon(id) ==> DialScheme(to, id) == "h323" || DialScheme(to, id) == "sip"
  {
    assert "h323:" <= id ==> id[0] == "h323:"[0];
    assert "tcp:" <= id ==> id[0] == "tcp:"[0];
    assert "udp:" <= id ==> id[0] == "udp:"[0];
  }

  lemma PrefixBeyond(p: string, s: string)
    requires '@' !in p && '@' in s
    ensures '@' in p + s && Beyond(p + s, '@') == Beyond(s, '@') && |Until(p + s, '@')| == |p| + |Until(s, '@')|
  {
    assert (p + s)[..|p|] == p && (p + s)[|p|..] == s;
    BeyondSkipped(p + s, |p|);
  }

  /** Without its colon a scheme becomes part of the user, or eats into it. */
  lemma LongerUser(p: string, rest: string)
    requires (p == "h323" || p == "sip") && '@' in rest
    ensures UserId(p + rest) != Some(Until(rest, '@'))
  {
    var x := p + rest;
    PrefixBeyond(p, rest);
    BareAt(x);
    NoAtSkipped(x, true);
    BeyondSkipped(x, Skipped(x, true));
    SkippedColon(x, p, rest);
  }

  lemma ServerHost(id: string)
    ensures Server(id) == Scheme(id) + HostOf(id)
  {
    BareAt(id);
    if '@' in id {
      NoAtSkipped(id, true);
      BeyondSkipped(id, Skipped(id, true));
    }
  }

  /** What follows the first '@' does not depend on what comes before. */
  lemma BeyondSkipped(s: string, n: nat)
    requires n <= |s| && '@' in s[n..] && '@' !in s[..n]
    ensures Beyond(s, '@') == Beyond(s[n..], '@') && |Until(s[n..], '@')| == |Until(s, '@')| - n
  {
    hide Until, Beyond;
    var p, b := s[..n], s[n..];
    var u, h := Until(b, '@'), Beyond(b, '@');
    Rejoined(b, '@');
    SplitAt(p + u, '@', h);
    assert s == p + b;
    assert p + (u + ['@'] + h) == (p + u) + ['@'] + h;
  }

  lemma NoColon(to: string, id: string)
    requires '@' !in to && Skipped(to, true) == 0 && ("h323:" <= id || "tcp:" <= id || "udp:" <= id)
    ensures UserId(Dialed(to, id)) != Some(to)
  {
    var p, h, x := DialScheme(to, id), HostOf(id), Dialed(to, id);
    assert p == "h323" || p == "sip" by {
      assert "h323:" <= id ==> id[0] == "h323:"[0];
      assert "tcp:" <= id ==> id[0] == "tcp:"[0];
      assert "udp:" <= id ==> id[0] == "udp:"[0];
    }
    BareAt(to);
    assert x == (p + to) + ['@'] + h;
    SplitAt(p + to, '@', h);
    BareAt(x);
    NoAtSkipped(x, true);
    BeyondSkipped(x, Skipped(x, true));
    SkippedColon(x, p, to);
  }

  /** No scheme that a text starting with `p` can have is as long as `p`. */
  lemma SkippedColon(x: string, p: string, to: string)
    requires (p == "h323" || p == "sip") && p + to <= x
    ensures Skipped(x, true) != |p|
  {
    assert x[0] == p[0];
  }

  // ---- hosts and ports --------------------------------------------------------------------

  predicate IsLower(c: char) { 'a' <= c <= 'z' }

  function LowerRun(s: string): (n: nat)
    ensures n <= |s| && (n < |s| ==> !IsLower(s[n]))
    ensures forall k :: 0 <= k < n ==> IsLower(s[k])
  {
    if s == "" || !IsLower(s[0]) then 0 else 1 + LowerRun(s[1..])
  }

  /** hostid and portid take any lower-case run and its colon for a scheme. */
  function AfterScheme(uri: string): string {
    var n := LowerRun(uri);
    if n < |uri| && uri[n] == ':' then uri[n + 1..] else uri
  }

  predicate Once(s: string, c: char) { c in s && IndexOf(s, c) == LastIndexOf(s, c) }

  predicate Bracketed(s: string) { s != "" && s[0] == '[' }

  function PortId(uri: string): nat { PortIn(AfterScheme(uri)) }

  function PortIn(t: string): nat {
    if Bracketed(t) then
      (if ']' in t && ':' in t[IndexOf(t, ']')..] then Atoi(Beyond(t[IndexOf(t, ']')..], ':')) % 0x1_0000 else 0)
    else if Once(t, ':') then Atoi(Beyond(t, ':')) % 0x1_0000
    else 0
  }

  function HostId(uri: string, size: nat): string { HostIn(Beyond(AfterScheme(uri), '@'), size) }

  function HostIn(t: string, size: nat): string {
    if Bracketed(t) then Until(Truncated(t[1..], size), ']')
    else
      var b := Truncated(t, size);
      if Once(b, ':') then Until(b, ':') else b
  }

  predicate IsDigit(c: char) { '0' <= c <= '9' }

  predicate IsSpace(c: char) { c == ' ' || '\t' <= c <= '\r' }

  function Digits(s: string, acc: nat): nat
    decreases |s|
  {
    if s == "" || !IsDigit(s[0]) then acc else Digits(s[1..], acc * 10 + (s[0] as int - '0' as int))
  }

  function Atoi(s: string): int {
    if s == "" then 0
    else if IsSpace(s[0]) then Atoi(s[1..])
    else if s[0] == '-' then -(Digits(s[1..], 0) as int)
    else if s[0] == '+' then Digits(s[1..], 0)
    else Digits(s, 0)
  }

  function Decimal(n: nat): (s: string)
    ensures s != "" && forall k :: 0 <= k < |s| ==> IsDigit(s[k])
  {
    (if n < 10 then "" else Decimal(n / 10)) + [('0' as int + n % 10) as char]
  }

  lemma {:induction false} DigitsAppend(a: string, b: string, acc: nat)
    requires forall k :: 0 <= k < |a| ==> IsDigit(a[k])
    ensures Digits(a + b, acc) == Digits(b, Digits(a, acc))
    decreases |a|
  {
    if a == "" {
      assert a + b == b;
    } else {
      assert (a + b)[1..] == a[1..] + b;
      DigitsAppend(a[1..], b, acc * 10 + (a[0] as int - '0' as int));
    }
  }

  /** atoi reads back what %u prints. */
  lemma {:induction false} DecimalBack(n: nat)
    ensures Digits(Decimal(n), 0) == n && Atoi(Decimal(n)) == n
  {
    var d := ('0' as int + n % 10) as char;
    if n >= 10 {
      DecimalBack(n / 10);
      DigitsAppend(Decimal(n / 10), [d], 0);
    } else {
      assert Decimal(n) == [d];
    }
    assert [d][1..] == "";
  }

  /** The two forms in which route prints a host and a port. */
  function Printed(schema: string, host: string, port: nat): string {
    schema + ":" + Authority(host, port)
  }

  function Authority(host: string, port: nat): string {
    if ':' in host then "[" + host + "]:" + Decimal(port) else host + ":" + Decimal(port)
  }

  predicate Printable(host: string) {
    '@' !in host && if ':' in host then ']' !in host else !Bracketed(host)
  }

  lemma SchemeGone(schema: string, t: string)
    requires forall k :: 0 <= k < |schema| ==> IsLower(schema[k])
    ensures AfterScheme(schema + ":" + t) == t
  {
    var s := schema + ":" + t;
    assert s[|schema|] == ':';
    assert forall k :: 0 <= k < |schema| ==> s[k] == schema[k];
    assert LowerRun(s) == |schema|;
  }

  /** Printing and parsing are inverse: hostid and portid recover what route
      prints, for every port, iff the host holds no '@', and no ']' if it is
      printed in brackets, and does not look bracketed if it is not. */
  lemma HostPort(schema: string, host: string, port: nat, size: nat)
    requires (forall k :: 0 <= k < |schema| ==> IsLower(schema[k])) && port < 0x1_0000 && |host| < size
    ensures var x := Printed(schema, host, port);
            HostId(x, size) == host && PortId(x) == port <==> Printable(host)
  {
    var t := Authority(host, port);
    SchemeGone(schema, t);
    AuthorityAts(host, port);
    CountNone(t, '@');
    CountNone(host, '@');
    if '@' in host {
      CountBeyond(t, '@');
      CountHost(Beyond(t, '@'), size);
    } else if ':' in host {
      InBrackets(host, port, size);
    } else {
      Plain(host, port, size);
    }
  }

  lemma CountPrefix(s: string, k: nat, c: char)
    requires k <= |s|
    ensures Count(s[..k], c) <= Count(s, c)
  {
    CountAppend(s[..k], s[k..], c);
    assert s[..k] + s[k..] == s;
  }

  lemma CountHost(t: string, size: nat)
    ensures Count(HostIn(t, size), '@') <= Count(t, '@')
  {
    var u := if Bracketed(t) then t[1..] else t;
    var b := Truncated(u, size);
    assert b == u[..|b|];
    CountPrefix(u, |b|, '@');
    var h := HostIn(t, size);
    assert h == b[..|h|];
    CountPrefix(b, |h|, '@');
  }

  lemma AuthorityAts(host: string, port: nat)
    ensures Count(Authority(host, port), '@') == Count(host, '@')
  {
    var d := Decimal(port);
    CountNone(d, '@');
    if ':' in host {
      CountAppend("[" + host + "]:", d, '@');
      CountAppend("[" + host, "]:", '@');
      CountAppend("[", host, '@');
      CountNone("[", '@');
      CountNone("]:", '@');
    } else {
      CountAppend(host + ":", d, '@');
      CountAppend(host, ":", '@');
      CountNone(":", '@');
    }
  }

  /** What a cut at the first `c` leaves of a text that starts with `a`. */
  lemma UntilPrefix(v: string, a: string, c: char)
    requires a <= v
    ensures c in a ==> |Until(v, c)| < |a|
    ensures c !in a ==> a <= Until(v, c)
    ensures c !in a && |v| > |a| && v[|a|] == c ==> Until(v, c) == a
  {
    assert forall j :: 0 <= j < |a| ==> v[j] == a[j];
    if c in a {
      var j :| 0 <= j < |a| && a[j] == c;
      assert v[j] == c;
    }
  }

  lemma InBrackets(host: string, port: nat, size: nat)
    requires ':' in host && port < 0x1_0000 && |host| < size
    ensures var t := Authority(host, port);
            HostIn(t, size) == host && PortIn(t) == port <==> ']' !in host
  {
    hide Atoi, Digits, HostIn, PortIn, Decimal;
    var d, t := Decimal(port), Authority(host, port);
    assert t == "[" + (host + "]:" + d);
    BracketHost(host, d, size);
    if ']' !in host {
      BracketPort(host, d);
      DecimalBack(port);
    }
  }

  lemma BracketHost(host: string, d: string, size: nat)
    requires |host| < size
    ensures HostIn("[" + (host + "]:" + d), size) == host <==> ']' !in host
  {
    var t := host + "]:" + d;
    var v := Truncated(t, size);
    assert ("[" + t)[1..] == t;
    assert host <= v && (|v| > |host| ==> v[|host|] == ']');
    UntilPrefix(v, host, ']');
  }

  lemma BracketPort(host: string, d: string)
    requires ']' !in host
    ensures PortIn("[" + (host + "]:" + d)) == Atoi(d) % 0x1_0000
  {
    hide Atoi;
    var t := "[" + (host + "]:" + d);
    SplitAt("[" + host, ']', ":" + d);
    assert t == "[" + host + [']'] + (":" + d);
    assert t[|host| + 1..] == "]" + [':'] + d;
    SplitAt("]", ':', d);
  }

  lemma Plain(host: string, port: nat, size: nat)
    requires ':' !in host && port < 0x1_0000 && |host| < size
    ensures var t := Authority(host, port);
            HostIn(t, size) == host && PortIn(t) == port <==> !Bracketed(host)
  {
    hide Atoi, Digits, HostIn, PortIn;
    var d, t := Decimal(port), Authority(host, port);
    assert t == host + [':'] + d;
    if Bracketed(host) {
      LooksBracketed(host, d, size);
    } else {
      PlainHost(host, d, size);
      PlainPort(host, d);
      DecimalBack(port);
    }
  }

  lemma LooksBracketed(host: string, d: string, size: nat)
    requires ':' !in host && |host| < size && Bracketed(host)
    ensures HostIn(host + [':'] + d, size) != host
  {
    var t, a := host + [':'] + d, host[1..] + ":";
    assert t[1..] == a + d;
    var v := Truncated(t[1..], size);
    assert a <= v;
    UntilPrefix(v, a, ']');
    assert HostIn(t, size) == Until(v, ']');
    assert ']' !in a ==> Until(v, ']')[|host| - 1] == ':';
  }

  lemma PlainHost(host: string, d: string, size: nat)
    requires ':' !in host && |host| < size && !Bracketed(host) && forall k :: 0 <= k < |d| ==> IsDigit(d[k])
    ensures HostIn(host + [':'] + d, size) == host
  {
    var t := host + [':'] + d;
    var v := Truncated(t, size);
    assert host <= v;
    assert t[0] == if host == "" then ':' else host[0];
    if |v| > |host| {
      var e := v[|host| + 1..];
      assert v == host + [':'] + e && e == d[..|e|];
      OnlyColon(host, e);
    } else {
      assert v == host;
    }
  }

  lemma PlainPort(host: string, d: string)
    requires ':' !in host && !Bracketed(host) && forall k :: 0 <= k < |d| ==> IsDigit(d[k])
    ensures PortIn(host + [':'] + d) == Atoi(d) % 0x1_0000
  {
    hide Atoi;
    var t := host + [':'] + d;
    assert t[0] == if host == "" then ':' else host[0];
    OnlyColon(host, d);
  }

  lemma OnlyColon(a: string, b: string)
    requires ':' !in a && forall k :: 0 <= k < |b| ==> IsDigit(b[k])
    ensures var s := a + [':'] + b; Once(s, ':') && Until(s, ':') == a && Beyond(s, ':') == b
  {
    SplitAt(a, ':', b);
    var s := a + [':'] + b;
    assert forall k :: |a| < k < |s| ==> s[k] == b[k - |a| - 1];
  }

  /** A text without a port, in both forms: the host comes back, and the port is 0. */
  lemma NoPort(schema: string, host: string, size: nat)
    requires (forall k :: 0 <= k < |schema| ==> IsLower(schema[k])) && Printable(host) && |host| < size
    ensures var x := schema + ":" + if ':' in host then "[" + host + "]" else host;
            HostId(x, size) == host && PortId(x) == 0
  {
    hide Atoi, Digits;
    if ':' in host {
      SchemeGone(schema, "[" + host + "]");
      NoPortInBrackets(host, size);
    } else {
      SchemeGone(schema, host);
    }
  }

  lemma NoPortInBrackets(host: string, size: nat)
    requires ']' !in host && '@' !in host && |host| < size
    ensures var t := "[" + host + "]"; '@' !in t && HostIn(t, size) == host && PortIn(t) == 0
  {
    hide Atoi;
    var t := "[" + host + "]";
    assert t[1..] == host + [']'] + "";
    SplitAt("[" + host, ']', "");
    assert t == ("[" + host) + [']'] + "";
    assert t[|host| + 1..] == "]";
    var v := Truncated(t[1..], size);
    assert host <= v && (|v| > |host| ==> v[|host|] == ']');
    UntilPrefix(v, host, ']');
  }

  /** Neither cuts a text with more than one colon, such as a bare IPv6 address. */
  lemma ManyColons(schema: string, a: string, b: string, size: nat)
    requires forall k :: 0 <= k < |schema| ==> IsLower(schema[k])
    requires ':' in a && !Bracketed(a) && '@' !in a && '@' !in b && |a| + |b| + 1 < size
    ensures var t := a + [':'] + b; HostId(schema + ":" + t, size) == t && PortId(schema + ":" + t) == 0
  {
    hide Atoi;
    var t := a + [':'] + b;
    SchemeGone(schema, t);
    TwoColons(a, b);
    assert t[0] == a[0] && t[|a|] == ':';
    UntilPrefix(t, a, ':');
    assert IndexOf(t, ':') < |a| <= LastIndexOf(t, ':');
  }

  predicate AllLower(s: string) { forall k :: 0 <= k < |s| ==> IsLower(s[k]) }

  /** Without a scheme host and port come back iff the host is not all lower-case letters:
      then it is taken for a scheme itself. */
  lemma Schemeless(host: string, port: nat, size: nat)
    requires host != "" && Printable(host) && ':' !in host && port < 0x1_0000 && |host| < size
    ensures var x := Authority(host, port); HostId(x, size) == host && PortId(x) == port <==> !AllLower(host)
    ensures HostId(host, size) == host && PortId(host) == 0
  {
    hide HostIn, PortIn, Decimal, Atoi;
    var d := Decimal(port);
    var x := Authority(host, port);
    assert x == host + ":" + d == host + [':'] + d;
    NoScheme(host, "");
    assert host + "" == host;
    BareHost(host, size);
    if AllLower(host) {
      SchemeGone(host, d);
      DigitsAreNoHost(d, host, size);
    } else {
      NoScheme(host, ":" + d);
      assert host + (":" + d) == x;
      AuthorityAts(host, port);
      CountNone(x, '@');
      CountNone(host, '@');
      Plain(host, port, size);
    }
  }

  lemma NoScheme(host: string, rest: string)
    requires ':' !in host && (rest == "" || !AllLower(host))
    ensures AfterScheme(host + rest) == host + rest
  {
    var x := host + rest;
    if LowerRun(x) < |host| {
      assert x[LowerRun(x)] == host[LowerRun(x)];
    } else {
      assert forall k :: 0 <= k < |host| ==> x[k] == host[k];
    }
  }

  lemma BareHost(host: string, size: nat)
    requires ':' !in host && '@' !in host && !Bracketed(host) && |host| < size
    ensures HostIn(Beyond(host, '@'), size) == host && PortIn(host) == 0
  {
  }

  lemma DigitsAreNoHost(d: string, host: string, size: nat)
    requires host != "" && AllLower(host) && forall k :: 0 <= k < |d| ==> IsDigit(d[k])
    ensures HostIn(Beyond(d, '@'), size) != host
  {
    var h := HostIn(Beyond(d, '@'), size);
    assert h != "" ==> h[0] in d;
  }

  /** Behind a user the host still comes back.  The port does iff neither the user nor
      the host holds a colon, for portid does not skip the user; else it reads 0. */
  lemma BehindUser(schema: string, u: string, host: string, port: nat, size: nat)
    requires (forall k :: 0 <= k < |schema| ==> IsLower(schema[k])) && port < 0x1_0000 && |host| < size
    requires '@' !in u && !Bracketed(u) && Printable(host)
    ensures var x := schema + ":" + (u + "@" + Authority(host, port));
            && HostId(x, size) == HostId(Printed(schema, host, port), size) == host
            && PortId(x) == if ':' in u || ':' in host then 0 else PortId(Printed(schema, host, port))
  {
    hide HostId, PortId, HostIn, PortIn, Authority, Printed, Atoi;
    HostPort(schema, host, port, size);
    UserSkipped(schema, u, host, port, size);
    UserInPort(u, host, port);
    PortAfter(schema, u + "@" + Authority(host, port));
  }

  lemma PortAfter(schema: string, t: string)
    requires forall k :: 0 <= k < |schema| ==> IsLower(schema[k])
    ensures PortId(schema + ":" + t) == PortIn(t)
  {
    SchemeGone(schema, t);
  }

  lemma UserSkipped(schema: string, u: string, host: string, port: nat, size: nat)
    requires (forall k :: 0 <= k < |schema| ==> IsLower(schema[k])) && '@' !in u && '@' !in host
    ensures HostId(schema + ":" + (u + "@" + Authority(host, port)), size) == HostId(Printed(schema, host, port), size)
  {
    hide HostIn, Authority;
    var a := Authority(host, port);
    SchemeGone(schema, a);
    SchemeGone(schema, u + "@" + a);
    SplitAt(u, '@', a);
    assert u + "@" + a == u + ['@'] + a;
    AuthorityAts(host, port);
    CountNone(a, '@');
    CountNone(host, '@');
  }

  lemma UserInPort(u: string, host: string, port: nat)
    requires !Bracketed(u) && port < 0x1_0000
    ensures PortIn(u + "@" + Authority(host, port)) == if ':' in u || ':' in host then 0 else port
  {
    hide Atoi, Digits, Decimal, PortIn;
    var d := Decimal(port);
    var h := if ':' in host then "[" + host + "]" else host;
    var a := u + "@" + h;
    assert u + "@" + Authority(host, port) == a + [':'] + d;
    assert a[0] == if u == "" then '@' else u[0];
    InUserOrHost(u, host, h);
    DecimalBack(port);
    if ':' in a {
      TwoColons(a, d);
    } else {
      PlainPort(a, d);
    }
  }

  lemma InUserOrHost(u: string, host: string, h: string)
    requires h == if ':' in host then "[" + host + "]" else host
    ensures ':' in u + "@" + h <==> ':' in u || ':' in host
  {
    if ':' in host {
      assert h[1..|host| + 1] == host;
    }
  }

  /** Unless it is bracketed only a text with a single colon has a port. */
  lemma TwoColons(a: string, d: string)
    requires ':' in a && !Bracketed(a)
    ensures PortIn(a + [':'] + d) == 0
  {
    hide Atoi;
    var t := a + [':'] + d;
    assert t[0] == a[0] && t[|a|] == ':';
    UntilPrefix(t, a, ':');
    assert IndexOf(t, ':') < |a| <= LastIndexOf(t, ':');
  }

  // ---- the functions that fill a buffer -------------------------------------------------

  /** The C string in a buffer. */
  ghost function Text(buf: array<char>): string
    reads buf
  {
    Until(buf[..], '\0')
  }

  lemma SliceIsC(s: CString, lo: nat)
    requires lo <= |s|
    ensures '\0' !in s[lo..]
  {
  }

  lemma BareIsC(s: CString, udp: bool)
    ensures '\0' !in Bare(s, udp) && '\0' !in Beyond(Bare(s, udp), '@') && '\0' !in Beyond(s, '@') && '\0' !in Scheme(s)
  {
    SliceIsC(s, Skipped(s, udp));
  }

  /** snprintf */
  method Print(buf: array<char>, s: CString)
    requires buf.Length > 0
    modifies buf
    ensures Text(buf) == Truncated(s, buf.Length) && '\0' in buf[..]
  {
    var n := if |s| < buf.Length then |s| else buf.Length - 1;
    var k := 0;
    while k < n
      invariant k <= n && buf[..k] == s[..k]
    {
      buf[k] := s[k];
      k := k + 1;
    }
    buf[n] := '\0';
    assert buf[..n] == s[..n];
    UntilPrefix(buf[..], s[..n], '\0');
    UntilEnds(buf[..], n);
  }

  lemma UntilEnds(v: string, n: nat)
    requires n < |v| && v[n] == '\0' && '\0' !in v[..n]
    ensures Until(v, '\0') == v[..n]
  {
    assert v == v[..n] + ['\0'] + v[n + 1..];
    SplitAt(v[..n], '\0', v[n + 1..]);
  }

  /** Overwrites the first `c` with the end of the text. */
  method Cut(buf: array<char>, c: char)
    requires '\0' in buf[..] && c != '\0'
    modifies buf
    ensures '\0' in buf[..] && Text(buf) == Until(old(Text(buf)), c)
  {
    ghost var v := buf[..];
    var k := 0;
    while buf[k] != '\0' && buf[k] != c
      invariant k < buf.Length && '\0' !in v[..k] && c !in v[..k]
      invariant k <= IndexOf(v, '\0')
      decreases buf.Length - k
    {
      assert v[..k + 1] == v[..k] + [v[k]];
      k := k + 1;
    }
    CutAt(v, c, k);
    if buf[k] == c {
      buf[k] := '\0';
    }
    assert buf[..k] == v[..k] && buf[k] == '\0';
    UntilEnds(buf[..], k);
  }

  lemma CutAt(v: string, c: char, k: nat)
    requires k < |v| && '\0' in v && '\0' !in v[..k] && c !in v[..k] && (v[k] == '\0' || v[k] == c)
    ensures Until(Until(v, '\0'), c) == v[..k]
  {
    var t := Until(v, '\0');
    UntilPrefix(v, v[..k], '\0');
    if v[k] == '\0' {
      UntilEnds(v, k);
    } else {
      var p := IndexOf(v, '\0');
      assert p > k by {
        assert forall j :: 0 <= j < k ==> v[j] == v[..k][j];
      }
      assert t[..k] == v[..k] && t[k] == c;
      UntilPrefix(t, v[..k], c);
    }
  }

  /** uri::create */
  method WriteUri(buf: array<char>, server: CString, userid: Option<CString>) returns (ok: bool)
    requires buf.Length > 0
    modifies buf
    ensures ok && Text(buf) == Truncated(Create(server, userid), buf.Length)
  {
    hide Scheme, Bare;
    BareIsC(server, false);
    var schema, rest := TakeScheme(server, false);
    if '@' !in rest && userid.Some? {
      Print(buf, schema + userid.value + "@" + rest);
    } else {
      Print(buf, schema + rest);
    }
    ok := true;
  }

  /** The scheme tests that create and server begin with. */
  method TakeScheme(uri: CString, udp: bool) returns (schema: CString, rest: CString)
    ensures schema == Scheme(uri) && rest == Bare(uri, udp)
  {
    BareIsC(uri, udp);
    OneScheme(uri);
    schema, rest := "sip:", uri;
    if "sips:" <= uri {
      schema, rest := "sips:", uri[5..];
    } else if "iax:" <= uri {
      schema, rest := "iax:", uri[4..];
    } else if "h323:" <= uri {
      schema, rest := "h323:", uri[5..];
    } else if "sip:" <= uri || "tcp:" <= uri || (udp && "udp:" <= uri) {
      rest := uri[4..];
    }
  }

  /** No text carries two schemes. */
  lemma OneScheme(s: string)
    ensures "iax:" <= s || "tcp:" <= s || "udp:" <= s || "sip:" <= s ==> !("sips:" <= s || "h323:" <= s)
    ensures "tcp:" <= s || "udp:" <= s ==> Scheme(s) == "sip:"
    ensures "iax:" <= s ==> Scheme(s) == "iax:"
    ensures "h323:" <= s ==> Scheme(s) == "h323:"
    ensures "sip:" <= s ==> Scheme(s) == "sip:"
  {
    assert "iax:" <= s ==> s[0] == 'i';
    assert "tcp:" <= s ==> s[0] == 't';
    assert "udp:" <= s ==> s[0] == 'u';
    assert "h323:" <= s ==> s[0] == 'h';
    assert "sip:" <= s ==> s[0] == 's' && s[3] == ':';
    assert "sips:" <= s ==> s[0] == 's' && s[3] == 's';
  }

  /** uri::server */
  method WriteServer(buf: array<char>, uri: CString) returns (ok: bool)
    requires buf.Length > 0
    modifies buf
    ensures ok && Text(buf) == Truncated(Server(uri), buf.Length)
  {
    hide Scheme, Bare;
    BareIsC(uri, true);
    var schema, rest := TakeScheme(uri, true);
    if '@' in rest {
      rest := rest[IndexOf(rest, '@') + 1..];
    }
    Print(buf, schema + rest);
    ok := true;
  }

  /** uri::userid: a URI without a user leaves the buffer empty. */
  method WriteUserId(buf: array<char>, uri: CString) returns (ok: bool)
    requires buf.Length > 0
    modifies buf
    ensures ok <==> UserId(uri).Some?
    ensures Text(buf) == if ok then Truncated(UserId(uri).value, buf.Length) else ""
  {
    BareIsC(uri, true);
    OneScheme(uri);
    buf[0] := '\0';
    UntilEnds(buf[..], 0);
    var rest := uri;
    if "sip:" <= uri || "tcp:" <= uri || "udp:" <= uri || "iax:" <= uri {
      rest := uri[4..];
    } else if "sips:" <= uri || "h323:" <= uri {
      rest := uri[5..];
    }
    if '@' !in rest {
      return false;
    }
    Print(buf, rest);
    Cut(buf, '@');
    CutTruncated(rest, '@', buf.Length);
    ok := true;
  }

  /** Cutting and truncating in either order. */
  lemma CutTruncated(s: string, c: char, size: nat)
    requires size > 0
    ensures Until(Truncated(s, size), c) == Truncated(Until(s, c), size)
  {
    var t, u := Truncated(s, size), Until(s, c);
    assert t <= s;
    if |u| < |t| {
      assert t[..|u|] == u && c !in u && t[|u|] == c by {
        assert s[|u|] == t[|u|];
      }
      UntilPrefix(t, u, c);
    } else {
      assert forall k :: 0 <= k < |t| ==> t[k] == s[k];
      assert t <= u && c !in t;
    }
  }

  /** uri::dialed */
  method WriteDialed(buf: array<char>, to: CString, id: CString) returns (ok: bool)
    requires buf.Length > 0
    modifies buf
    ensures ok && Text(buf) == Truncated(Dialed(to, id), buf.Length)
  {
    hide DialScheme, HostOf, Bare;
    BareIsC(to, true);
    BareIsC(id, true);
    var schema, rest := PickScheme(to, id);
    if '@' in rest {
      Print(buf, schema + rest);
    } else {
      var host := PickHost(id);
      Print(buf, schema + rest + "@" + host);
    }
    ok := true;
  }

  method PickScheme(to: CString, id: CString) returns (schema: CString, rest: CString)
    ensures schema == DialScheme(to, id) && rest == Bare(to, true)
  {
    OneScheme(to);
    OneScheme(id);
    BareIsC(to, true);
    schema, rest := "sip:", to;
    if "sips:" <= to {
      schema, rest := "sips:", to[5..];
    } else if "iax:" <= to {
      schema, rest := "iax:", to[4..];
    } else if "h323:" <= to {
      schema, rest := "h323:", to[5..];
    } else if "tcp:" <= to || "udp:" <= to || "sip:" <= to {
      rest := to[4..];
    } else if "sips:" <= id {
      schema := "sips:";
    } else if "iax:" <= id {
      schema := "iax:";
    } else if "h323:" <= id {
      schema := "h323";
    } else if "tcp:" <= id || "udp:" <= id {
      schema := "sip";
    }
  }

  method PickHost(id: CString) returns (host: CString)
    ensures host == HostOf(id)
  {
    OneScheme(id);
    BareIsC(id, true);
    host := id;
    if '@' in id {
      host := id[IndexOf(id, '@') + 1..];
    } else if "sips:" <= id || "h323:" <= id {
      host := id[5..];
    } else if "sip:" <= id || "iax:" <= id || "tcp:" <= id || "udp:" <= id {
      host := id[4..];
    }
  }

  /** The loop that hostid and portid start with. */
  method SkipScheme(uri: CString) returns (rest: CString)
    ensures rest == AfterScheme(uri)
  {
    var cp := 0;
    while cp < |uri| && IsLower(uri[cp])
      invariant cp <= |uri| && forall k :: 0 <= k < cp ==> IsLower(uri[k])
    {
      cp := cp + 1;
    }
    assert cp == LowerRun(uri);
    rest := uri;
    if cp < |uri| && uri[cp] == ':' {
      rest := uri[cp + 1..];
    }
  }

  /** uri::portid */
  method ReadPort(uri: CString) returns (port: nat)
    ensures port == PortId(uri) < 0x1_0000
  {
    hide AfterScheme, Atoi, Digits;
    var t := SkipScheme(uri);
    port := 0;
    if t != "" && t[0] == '[' {
      if ']' in t {
        var q := t[IndexOf(t, ']')..];
        if ':' in q {
          port := Atoi(q[IndexOf(q, ':') + 1..]) % 0x1_0000;
        }
      }
    } else if ':' in t && LastIndexOf(t, ':') == IndexOf(t, ':') {
      port := Atoi(t[IndexOf(t, ':') + 1..]) % 0x1_0000;
    }
  }

  /** uri::hostid */
  method WriteHost(buf: array<char>, uri: CString) returns (ok: bool)
    requires buf.Length > 0
    modifies buf
    ensures ok && Text(buf) == HostId(uri, buf.Length)
  {
    hide AfterScheme, HostIn;
    var t := SkipScheme(uri);
    if '@' in t {
      SliceIsC(t, IndexOf(t, '@') + 1);
      t := t[IndexOf(t, '@') + 1..];
    }
    WriteHostIn(buf, t);
    ok := true;
  }

  method WriteHostIn(buf: array<char>, t: CString)
    requires buf.Length > 0
    modifies buf
    ensures Text(buf) == HostIn(t, buf.Length)
  {
    if t != "" && t[0] == '[' {
      SliceIsC(t, 1);
      Print(buf, t[1..]);
      Cut(buf, ']');
    } else {
      Print(buf, t);
      var b := Truncated(t, buf.Length);
      if ':' in b && LastIndexOf(b, ':') == IndexOf(b, ':') {
        Cut(buf, ':');
      }
    }
  }

  /** The last lines of sipw/srv.cpp route. */
  method WriteRoute(buf: array<char>, schema: CString, host: CString, port: nat)
    requires buf.Length > 0 && port < 0x1_0000
    modifies buf
    ensures Text(buf) == Truncated(Printed(schema, host, port), buf.Length)
  {
    hide Decimal;
    var d := Decimal(port);
    if ':' in host {
      Print(buf, schema + ":" + ("[" + host + "]:" + d));
    } else {
      Print(buf, schema + ":" + (host + ":" + d));
    }
  }
}
