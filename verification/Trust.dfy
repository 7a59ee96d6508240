/**
  The trust-domain rule on hosts written with letters, digits, hyphens, dots and colons: who
  receives a payload does not depend on port, case or trailing dots.
 */
module Trust {

  predicate IsHostChar(c: char) {
    'a' <= c <= 'z' || 'A' <= c <= 'Z' || '0' <= c <= '9' || c == '-' || c == '.' || c == ':'
  }

  /** RFC 3986, section 3.2: an authority without user part, brackets or anything to escape. */
  predicate PlainHost(s: string) {
    forall i :: 0 <= i < |s| ==> IsHostChar(s[i])
  }

  function LowerChar(c: char): char {
    if 'A' <= c <= 'Z' then (c as int + 32) as char else c
  }

  function Lower(s: string): (r: string)
    ensures |r| == |s| && forall i :: 0 <= i < |s| ==> r[i] == LowerChar(s[i])
  {
    seq(|s|, i requires 0 <= i < |s| => LowerChar(s[i]))
  }

  /** `s.rstrip(".")` */
  function DropDots(s: string): (r: string)
    ensures r == "" || r[|r| - 1] != '.'
    ensures r <= s
    decreases |s|
  {
    if s != "" && s[|s| - 1] == '.' then DropDots(s[..|s| - 1]) else s
  }

  /** What is before the first colon. */
  function UpToColon(s: string): (r: string)
    ensures r <= s && ':' !in r
    ensures |r| < |s| ==> s[|r|] == ':'
  {
    if s == "" || s[0] == ':' then ""
    else
      var r := UpToColon(s[1..]);
      assert s == [s[0]] + s[1..];
      [s[0]] + r
  }

  function Colons(s: string): nat {
    if s == "" then 0 else Colons(s[1..]) + if s[0] == ':' then 1 else 0
  }

  /**
    `normalize_host`: the host name `urlsplit` finds is what precedes the first colon; when that
    is empty the raw text is used, without its port if it has a single colon.
   */
  function NormalizeHost(s: string): string
    requires PlainHost(s)
  {
    if s == "" then ""
    else
      var host := UpToColon(s);
      var chosen := if host != "" then Lower(host) else if Colons(s) == 1 then host else s;
      Lower(DropDots(chosen))
  }

  const LOOPBACK: set<string> := {"localhost", "127.0.0.1", "::1"}

  const VENDORS: map<string, string> := map["api.anthropic.com" := "anthropic", "api.openai.com" := "openai"]

  function DomainOfHost(host: string): string {
    if host in LOOPBACK then "loopback"
    else if host in VENDORS then VENDORS[host]
    else if host != "" then host
    else "unknown"
  }

  /** `trust_domain` */
  function TrustDomain(s: string): string
    requires PlainHost(s)
  {
    DomainOfHost(NormalizeHost(s))
  }

  // ---------- what does not matter ----------

  lemma {:induction false} UpToColonKeeps(h: string, rest: string)
    requires ':' !in h && (rest == "" || rest[0] == ':')
    ensures UpToColon(h + rest) == h
  {
    if h == "" {
      assert h + rest == rest;
    } else {
      assert (h + rest)[1..] == h[1..] + rest;
      assert ':' !in h[1..];
      UpToColonKeeps(h[1..], rest);
      assert [h[0]] + h[1..] == h;
    }
  }

  lemma LowerTwice(s: string)
    ensures Lower(Lower(s)) == Lower(s)
  {
  }

  lemma {:induction false} DropDotsLower(s: string)
    ensures DropDots(Lower(s)) == Lower(DropDots(s))
    decreases |s|
  {
    if s != "" && s[|s| - 1] == '.' {
      assert Lower(s)[..|s| - 1] == Lower(s[..|s| - 1]);
      DropDotsLower(s[..|s| - 1]);
    }
  }

  /** A host name without colon is its lower-case form without trailing dots. */
  lemma NameNormalizes(h: string)
    requires PlainHost(h) && h != "" && ':' !in h
    ensures NormalizeHost(h) == Lower(DropDots(h))
  {
    UpToColonKeeps(h, "");
    assert h + "" == h;
    DropDotsLower(h);
    LowerTwice(DropDots(h));
  }

  /** A port is not an isolation boundary. */
  lemma PortDoesNotMatter(h: string, port: string)
    requires PlainHost(h) && h != "" && ':' !in h && PlainHost(port)
    ensures PlainHost(h + ":" + port) && TrustDomain(h + ":" + port) == TrustDomain(h)
  {
    var s := h + ":" + port;
    assert s == h + (":" + port);
    UpToColonKeeps(h, ":" + port);
    UpToColonKeeps(h, "");
    assert h + "" == h;
  }

  /** Equal but for the case of letters. */
  predicate SameButCase(a: string, b: string) {
    |a| == |b| && forall i :: 0 <= i < |a| ==> SameLetter(a[i], b[i])
  }

  predicate SameLetter(c: char, d: char) {
    c == d || ('A' <= c <= 'Z' && d as int == c as int + 32) || ('A' <= d <= 'Z' && c as int == d as int + 32)
  }

  lemma {:induction false} UpToColonLower(s: string)
    ensures UpToColon(Lower(s)) == Lower(UpToColon(s))
  {
    if s != "" {
      assert Lower(s)[1..] == Lower(s[1..]);
      UpToColonLower(s[1..]);
    }
  }

  lemma LowerKeepsLength(s: string)
    ensures Lower(s) == "" <==> s == ""
  {
  }

  /** The normal form is that of the lower-case text. */
  lemma NormalOfLower(s: string)
    requires PlainHost(s)
    ensures PlainHost(Lower(s)) && NormalizeHost(Lower(s)) == NormalizeHost(s)
  {
    assert forall i :: 0 <= i < |s| ==> IsHostChar(s[i]) && Lower(s)[i] == LowerChar(s[i]);
    UpToColonLower(s);
    ColonsLower(s);
    LowerTwice(UpToColon(s));
    DropDotsLower(s);
    LowerTwice(DropDots(s));
    hide Lower, DropDots, UpToColon, Colons;
    LowerKeepsLength(s);
    LowerKeepsLength(UpToColon(s));
  }

  /** The case of letters is not an isolation boundary. */
  lemma CaseDoesNotMatter(a: string, b: string)
    requires PlainHost(a) && SameButCase(a, b)
    ensures PlainHost(b) && TrustDomain(a) == TrustDomain(b)
  {
    assert forall i :: 0 <= i < |a| ==> SameLetter(a[i], b[i]) && IsHostChar(a[i]);
    assert Lower(a) == Lower(b);
    hide NormalizeHost, DomainOfHost;
    NormalOfLower(a);
    NormalOfLower(b);
  }

  /** A vendor's host is that vendor's. */
  lemma {:induction false} VendorHost(h: string)
    requires h == "api.openai.com" || h == "api.anthropic.com"
    ensures PlainHost(h) && TrustDomain(h) == if h == "api.openai.com" then "openai" else "anthropic"
  {
    VendorPlain(h);
    hide UpToColon, Lower, DropDots, PlainHost, NormalizeHost, DomainOfHost;
    NameNormalizes(h);
    GroupOf(h);
  }

  lemma {:induction false} VendorPlain(h: string)
    requires h == "api.openai.com" || h == "api.anthropic.com"
    ensures PlainHost(h) && ':' !in h && DropDots(h) == h && Lower(h) == h
  {
  }

  /** Any other name, in lower case and without trailing dots, is a domain of its own. */
  lemma OwnDomain(h: string)
    requires PlainHost(h) && h != "" && ':' !in h && Lower(h) == h && h[|h| - 1] != '.'
    requires h !in {"localhost", "127.0.0.1", "api.anthropic.com", "api.openai.com"}
    ensures TrustDomain(h) == h
  {
    hide UpToColon, Lower, PlainHost, NormalizeHost, DomainOfHost;
    NameNormalizes(h);
    OwnLabel(h);
  }

  lemma OwnLabel(h: string)
    requires h != "" && ':' !in h && h !in {"localhost", "127.0.0.1", "api.anthropic.com", "api.openai.com"}
    ensures DomainOfHost(h) == h
  {
    assert "::1"[0] == ':';
  }

  /** No host at all is the domain `unknown`. */
  lemma NoHost()
    ensures TrustDomain("") == "unknown"
  {
  }

  lemma TrailingDotDoesNotMatter(h: string)
    requires PlainHost(h) && h != "" && ':' !in h
    ensures PlainHost(h + ".") && TrustDomain(h + ".") == TrustDomain(h)
  {
    hide DomainOfHost, UpToColon, Lower;
    NameNormalizes(h);
    NameNormalizes(h + ".");
    assert (h + ".")[..|h|] == h;
  }

  lemma {:induction false} DropDotsTwice(s: string)
    ensures DropDots(DropDots(s)) == DropDots(s)
    decreases |s|
  {
    if s != "" && s[|s| - 1] == '.' {
      DropDotsTwice(s[..|s| - 1]);
    }
  }

  lemma LowerKeepsPlain(h: string)
    requires PlainHost(h) && ':' !in h
    ensures PlainHost(Lower(h)) && ':' !in Lower(h)
  {
    assert forall i :: 0 <= i < |h| ==> h[i] in h && Lower(h)[i] == LowerChar(h[i]);
  }

  /** A plain authority normalises to a plain name without colon. */
  lemma PlainNormal(s: string)
    requires PlainHost(s) && UpToColon(s) != ""
    ensures var n := Lower(DropDots(UpToColon(s))); NormalizeHost(s) == n && PlainHost(n) && ':' !in n
  {
    var h := UpToColon(s);
    assert forall i :: 0 <= i < |h| ==> h[i] == s[i];
    assert forall i :: 0 <= i < |DropDots(h)| ==> DropDots(h)[i] == h[i] && h[i] in h;
    DropDotsLower(h);
    LowerTwice(DropDots(h));
    LowerKeepsPlain(DropDots(h));
  }

  lemma NamedTwice(s: string)
    requires PlainHost(s) && UpToColon(s) != ""
    ensures PlainHost(NormalizeHost(s)) && NormalizeHost(NormalizeHost(s)) == NormalizeHost(s)
  {
    var h := UpToColon(s);
    var n := Lower(DropDots(h));
    PlainNormal(s);
    if n != "" {
      hide NormalizeHost, UpToColon, Lower, DropDots;
      NameNormalizes(n);
      DropDotsLower(DropDots(h));
      DropDotsTwice(h);
      LowerTwice(DropDots(h));
    }
  }

  lemma {:induction false} ColonsLower(s: string)
    ensures Colons(Lower(s)) == Colons(s)
  {
    if s != "" {
      assert Lower(s)[1..] == Lower(s[1..]);
      ColonsLower(s[1..]);
    }
  }

  lemma {:induction false} ColonsAppend(s: string, c: char)
    ensures Colons(s + [c]) == Colons(s) + if c == ':' then 1 else 0
  {
    if s == "" {
      assert s + [c] == [c];
      assert [c][1..] == "";
    } else {
      assert (s + [c])[1..] == s[1..] + [c];
      ColonsAppend(s[1..], c);
    }
  }

  lemma {:induction false} ColonsDropDots(s: string)
    ensures Colons(DropDots(s)) == Colons(s)
    decreases |s|
  {
    if s != "" && s[|s| - 1] == '.' {
      ColonsDropDots(s[..|s| - 1]);
      ColonsAppend(s[..|s| - 1], '.');
      assert s == s[..|s| - 1] + ['.'];
    }
  }

  /** Without a host name before the first colon, and with a second colon, the raw text is the host. */
  lemma NamelessNormalizes(s: string)
    requires PlainHost(s) && s != "" && UpToColon(s) == ""
    ensures NormalizeHost(s) == if Colons(s) == 1 then "" else Lower(DropDots(s))
  {
  }

  lemma KeepsFirst(s: string)
    requires s != "" && s[0] == ':'
    ensures var n := Lower(DropDots(s)); n != "" && n[0] == ':' && UpToColon(n) == "" && (PlainHost(s) ==> PlainHost(n))
  {
    FirstNotDropped(s);
    var d := DropDots(s);
    assert forall i :: 0 <= i < |d| ==> d[i] == s[i];
  }

  lemma {:induction false} FirstNotDropped(s: string)
    requires s != "" && s[0] != '.'
    ensures DropDots(s) != "" && DropDots(s)[0] == s[0]
    decreases |s|
  {
    if s[|s| - 1] == '.' {
      FirstNotDropped(s[..|s| - 1]);
    }
  }

  lemma NamelessTwice(s: string)
    requires PlainHost(s) && s != "" && UpToColon(s) == ""
    ensures PlainHost(NormalizeHost(s)) && NormalizeHost(NormalizeHost(s)) == NormalizeHost(s)
  {
    hide NormalizeHost, Lower, DropDots, PlainHost, Colons;
    NamelessNormalizes(s);
    if Colons(s) == 1 {
      EmptyHost();
    } else {
      var n := Lower(DropDots(s));
      KeepsFirst(s);
      NamelessNormalizes(n);
      ColonsLower(DropDots(s));
      ColonsDropDots(s);
      DropDotsLower(DropDots(s));
      DropDotsTwice(s);
      LowerTwice(DropDots(s));
    }
  }

  lemma EmptyHost()
    ensures PlainHost("") && NormalizeHost("") == ""
  {
  }

  /** Normalising a plain host a second time changes nothing. */
  lemma NormalizeHostIdempotent(s: string)
    requires PlainHost(s)
    ensures PlainHost(NormalizeHost(s)) && NormalizeHost(NormalizeHost(s)) == NormalizeHost(s)
  {
    hide NormalizeHost, PlainHost, UpToColon;
    if s == "" {
      EmptyHost();
    } else if UpToColon(s) == "" {
      NamelessTwice(s);
    } else {
      NamedTwice(s);
    }
  }

  lemma {:induction false} LoopbackPlain(h: string)
    requires h == "localhost" || h == "127.0.0.1"
    ensures PlainHost(h) && ':' !in h && DropDots(h) == h && Lower(h) == h
  {
  }

  /** The names of the local machine are one domain, whatever the port. */
  lemma LoopbackName(h: string, port: string)
    requires (h == "localhost" || h == "127.0.0.1") && PlainHost(port)
    ensures PlainHost(h) && PlainHost(h + ":" + port) && TrustDomain(h + ":" + port) == "loopback"
  {
    hide UpToColon, Lower, DropDots, PlainHost, NormalizeHost;
    LoopbackPlain(h);
    NameNormalizes(h);
    PortDoesNotMatter(h, port);
  }

  /** And so is its IPv6 address. */
  lemma LoopbackSix()
    ensures TrustDomain("::1") == "loopback"
  {
    assert "::1"[1..] == ":1" && ":1"[1..] == "1" && "1"[1..] == "";
    assert Colons("::1") == 2;
    assert Lower("::1") == "::1";
  }

  /** The normalised names that each label of the rule stands for, the label itself among them. */
  const GROUPS: set<set<string>> :=
    {LOOPBACK + {"loopback"}, {"api.anthropic.com", "anthropic"}, {"api.openai.com", "openai"}, {"", "unknown"}}

  /** One name, or two names of one label. */
  predicate OneParty(x: string, y: string) {
    x == y || exists g :: g in GROUPS && x in g && y in g
  }

  /**
    Two plain hosts are one trust domain exactly when they normalise to one name or to two names of
    one label.  A host that happens to be called like a vendor's label is taken for that vendor.
   */
  lemma OneDomainIff(a: string, b: string)
    requires PlainHost(a) && PlainHost(b)
    ensures TrustDomain(a) == TrustDomain(b) <==> OneParty(NormalizeHost(a), NormalizeHost(b))
  {
    hide NormalizeHost;
    DomainsDiffer(NormalizeHost(a), NormalizeHost(b));
  }

  lemma DomainsDiffer(x: string, y: string)
    ensures DomainOfHost(x) == DomainOfHost(y) <==> OneParty(x, y)
  {
    GroupOf(x);
    GroupOf(y);
    hide DomainOfHost;
    if DomainOfHost(x) == DomainOfHost(y) && x != y {
      var d := DomainOfHost(x);
      if d == "loopback" {
        assert LOOPBACK + {"loopback"} in GROUPS;
      } else if d == "anthropic" {
        assert {"api.anthropic.com", "anthropic"} in GROUPS;
      } else if d == "openai" {
        assert {"api.openai.com", "openai"} in GROUPS;
      } else {
        assert {"", "unknown"} in GROUPS;
      }
    }
  }

  /** A group is exactly what its label stands for. */
  lemma GroupOf(x: string)
    ensures x in LOOPBACK + {"loopback"} <==> DomainOfHost(x) == "loopback"
    ensures x in {"api.anthropic.com", "anthropic"} <==> DomainOfHost(x) == "anthropic"
    ensures x in {"api.openai.com", "openai"} <==> DomainOfHost(x) == "openai"
    ensures x in {"", "unknown"} <==> DomainOfHost(x) == "unknown"
    ensures DomainOfHost(x) in {"loopback", "anthropic", "openai", "unknown"} || DomainOfHost(x) == x
  {
  }
}
