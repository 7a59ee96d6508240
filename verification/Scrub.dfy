/** Secrets are replaced one after another in every raised message. */
module Scrub {
  import opened JsonText
  import opened Replace

  const MARK: string := "[redacted]"
  const WORD: string := "redacted"

  /** The text after all secrets; empty ones are skipped. */
  function Scrubbed(message: string, secrets: seq<string>): string {
    if secrets == [] then message
    else
      var before := Scrubbed(message, secrets[..|secrets| - 1]);
      var s := secrets[|secrets| - 1];
      if s == "" then before else ReplaceAll(before, s, MARK)
  }

  /** `_scrub` */
  method ScrubMessage(message: string, secrets: seq<string>) returns (r: string)
    ensures r == Scrubbed(message, secrets)
    ensures forall i :: 0 <= i < |secrets| && secrets[i] != "" && Apart(secrets[i]) ==> !Occurs(secrets[i], r)
  {
    r := message;
    for i := 0 to |secrets|
      invariant r == Scrubbed(message, secrets[..i])
    {
      var secret := secrets[i];
      assert secrets[..i + 1][..i] == secrets[..i];
      if secret != "" {
        r := ReplaceAll(r, secret, MARK);
      }
    }
    assert secrets[..|secrets|] == secrets;
    forall i | 0 <= i < |secrets| && secrets[i] != "" && Apart(secrets[i]) ensures !Occurs(secrets[i], r) {
      ScrubbedClean(message, secrets, secrets[i]);
    }
  }

  predicate Clean(message: string, secrets: seq<string>) {
    forall i :: 0 <= i < |secrets| && secrets[i] != "" ==> !Occurs(secrets[i], message)
  }

  // ---------- text that cannot overlap a mark ----------

  /** `x` neither lies in the mark nor starts with an end of it. */
  predicate ClearOfEnd(x: string) {
    forall i :: 0 <= i < |MARK| ==> !StartsWith(x, MARK[i..]) && !StartsWith(MARK[i..], x)
  }

  /** Nowhere in `x` could a mark begin. */
  predicate ClearOfStart(x: string) {
    forall k :: 0 <= k < |x| ==> !StartsWith(MARK, x[k..]) && !StartsWith(x[k..], MARK)
  }

  /** `x` shares no character with a mark, whatever stands around the mark. */
  predicate Apart(x: string) {
    ClearOfEnd(x) && ClearOfStart(x)
  }

  /** A prefix of the output in which no mark could begin is a prefix of the input. */
  lemma {:induction false} PrefixUntouched(x: string, m: string, s: string)
    requires s != "" && ClearOfStart(x) && StartsWith(ReplaceAll(m, s, MARK), x)
    ensures StartsWith(m, x)
    decreases |m|
  {
    var out := ReplaceAll(m, s, MARK);
    if x != "" {
      if StartsWith(m, s) {
        NoMarkAhead(x, ReplaceAll(m[|s|..], s, MARK));
        assert false;
      } else {
        assert out[..|x|][0] == out[0] == x[0];
        assert out[1..] == ReplaceAll(m[1..], s, MARK);
        assert out[1..][..|x| - 1] == out[..|x|][1..] == x[1..];
        assert forall k :: 0 <= k < |x| - 1 ==> x[1..][k..] == x[k + 1..];
        PrefixUntouched(x[1..], m[1..], s);
        assert m[..|x|] == [m[0]] + m[1..][..|x| - 1];
        assert x == [x[0]] + x[1..];
      }
    }
  }

  lemma NoMarkAhead(x: string, rest: string)
    requires x != "" && ClearOfStart(x)
    ensures !StartsWith(MARK + rest, x)
  {
    assert x[0..] == x && MARK[0..] == MARK;
    if StartsWith(MARK + rest, x) {
      OverlapsMark(x, rest, 0);
      assert false;
    }
  }

  lemma OverlapsMark(x: string, rest: string, i: nat)
    requires i < |MARK| && At(x, MARK + rest, i)
    ensures StartsWith(x, MARK[i..]) || StartsWith(MARK[i..], x)
  {
    var t := MARK + rest;
    if i + |x| <= |MARK| {
      assert MARK[i..][..|x|] == t[i..i + |x|];
    } else {
      SliceOfSlice(t, i, i + |x|, 0, |MARK| - i);
      assert x[..|MARK| - i] == x[0..|MARK| - i] == t[i..|MARK|] == MARK[i..];
    }
  }

  /** Such a text found in mark + rest is in the rest. */
  lemma AcrossMark(x: string, rest: string)
    requires ClearOfEnd(x) && Occurs(x, MARK + rest)
    ensures Occurs(x, rest)
  {
    var t := MARK + rest;
    var i :| 0 <= i <= |t| && At(x, t, i);
    if i >= |MARK| {
      assert At(x, rest, i - |MARK|);
    } else {
      OverlapsMark(x, rest, i);
      assert false;
    }
  }

  /** Replacement creates no such text that was not already there. */
  lemma {:induction false} NothingRecreated(x: string, m: string, s: string)
    requires s != "" && x != "" && Apart(x) && Occurs(x, ReplaceAll(m, s, MARK))
    ensures Occurs(x, m)
    decreases |m|
  {
    hide ClearOfEnd, ClearOfStart;
    var out := ReplaceAll(m, s, MARK);
    if StartsWith(m, s) {
      var tail := m[|s|..];
      AcrossMark(x, ReplaceAll(tail, s, MARK));
      NothingRecreated(x, tail, s);
      assert m == m[..|s|] + tail;
      OccursIn(x, m[..|s|], tail);
    } else {
      assert m != "";
      assert m == [m[0]] + m[1..];
      OccursSplit(x, out);
      if StartsWith(out, x) {
        PrefixUntouched(x, m, s);
        OccursAtStart(x, m);
      } else {
        assert out[1..] == ReplaceAll(m[1..], s, MARK);
        NothingRecreated(x, m[1..], s);
        OccursIn(x, [m[0]], m[1..]);
      }
    }
  }

  /** One replacement removes its own secret. */
  lemma {:induction false} SecretGone(m: string, s: string)
    requires s != "" && Apart(s)
    ensures !Occurs(s, ReplaceAll(m, s, MARK))
    decreases |m|
  {
    hide ClearOfEnd, ClearOfStart;
    var out := ReplaceAll(m, s, MARK);
    if Occurs(s, out) {
      if StartsWith(m, s) {
        AcrossMark(s, ReplaceAll(m[|s|..], s, MARK));
        SecretGone(m[|s|..], s);
      } else {
        OccursSplit(s, out);
        if StartsWith(out, s) {
          PrefixUntouched(s, m, s);
        } else {
          assert out[1..] == ReplaceAll(m[1..], s, MARK);
          SecretGone(m[1..], s);
        }
      }
    }
  }

  /**
    A secret that cannot overlap a mark is gone at the end, whatever the other secrets are: later
    replacements never bring it back.
   */
  lemma {:induction false} ScrubbedClean(message: string, secrets: seq<string>, x: string)
    requires x in secrets && x != "" && Apart(x)
    ensures !Occurs(x, Scrubbed(message, secrets))
  {
    hide Apart, Occurs;
    var n := |secrets| - 1;
    var init, s := secrets[..n], secrets[n];
    assert secrets == init + [s];
    var before := Scrubbed(message, init);
    if x == s {
      SecretGone(before, s);
    } else {
      ScrubbedClean(message, init, x);
      if s != "" && Occurs(x, ReplaceAll(before, s, MARK)) {
        NothingRecreated(x, before, s);
      }
    }
  }

  // ---------- exactly when ----------

  /** Once anything was replaced a mark stays in the message. */
  lemma MarkStays(m: string, s: string)
    requires s != "" && (Occurs(MARK, m) || Occurs(s, m))
    ensures Occurs(MARK, ReplaceAll(m, s, MARK))
  {
    if Occurs(s, m) {
      ReplacePresent(m, s, MARK);
    } else {
      ReplaceAbsent(m, s, MARK);
    }
  }

  lemma {:induction false} OwnTextMarked(x: string, secrets: seq<string>)
    requires x != ""
    ensures Scrubbed(x, secrets) == x || Occurs(MARK, Scrubbed(x, secrets))
    ensures x in secrets ==> Occurs(MARK, Scrubbed(x, secrets))
  {
    if secrets != [] {
      var n := |secrets| - 1;
      var init, s := secrets[..n], secrets[n];
      OwnTextMarked(x, init);
      assert secrets == init + [s];
      var before := Scrubbed(x, init);
      if s != "" {
        if Occurs(s, before) || Occurs(MARK, before) {
          MarkStays(before, s);
        } else {
          ReplaceAbsent(before, s, MARK);
        }
        if x == s && before == x {
          assert At(x, x, 0);
        }
      }
    }
  }

  /** Whatever the other secrets, one that is part of the mark is still there after its own scrubbing. */
  lemma MarkedSecretSurvives(secrets: seq<string>, x: string)
    requires x in secrets && x != "" && Occurs(x, MARK)
    ensures Occurs(x, Scrubbed(x, secrets))
  {
    OwnTextMarked(x, secrets);
    OccursTransitive(x, MARK, Scrubbed(x, secrets));
  }

  // A secret that can overlap a mark is put together by another secret's replacement.

  /** A text with no character of the mark. */
  function Foreign(n: nat): string {
    "b" + Run(n)
  }

  function Run(n: nat): (r: string)
    ensures |r| == n && forall i :: 0 <= i < n ==> r[i] == 'f'
  {
    seq(n, i => 'f')
  }

  /** `x` is a part of the mark, with text before it only from its start and after it only from its end. */
  predicate Straddles(x: string, p: string, u: nat, v: nat, q: string) {
    u < v <= |MARK| && x == p + MARK[u..v] + q && (p != "" ==> u == 0) && (q != "" ==> v == |MARK|)
  }

  lemma MarkLetters(i: nat)
    requires i < |MARK|
    ensures MARK[i] != 'b' && MARK[i] != 'f'
  {
  }

  /** Around foreign text there is no such text. */
  lemma NotAroundForeign(x: string, p: string, u: nat, v: nat, q: string, n: nat)
    requires Straddles(x, p, u, v, q) && n >= |x|
    ensures !Occurs(x, p + Foreign(n) + q)
  {
    var t := Foreign(n);
    var m := p + t + q;
    forall i: nat ensures !At(x, m, i) {
      if At(x, m, i) {
        AtMatches(x, m, i);
        assert m[i + |p|] == x[|p|] == MARK[u];
        assert m[i + |p|] == t[i];
        MarkLetters(u);
        assert false;
      }
    }
  }

  lemma {:induction false} ReplaceBehind(p: string, t: string, q: string)
    requires t != "" && forall i :: 0 <= i < |p| ==> !At(t, p + t + q, i)
    ensures ReplaceAll(p + t + q, t, MARK) == p + (MARK + ReplaceAll(q, t, MARK))
  {
    var m := p + t + q;
    if p == "" {
      assert m[..|t|] == t && m[|t|..] == q;
    } else {
      assert !At(t, m, 0);
      assert m[1..] == p[1..] + t + q;
      forall i | 0 <= i < |p| - 1 ensures !At(t, m[1..], i) {
        assert !At(t, m, i + 1);
      }
      ReplaceBehind(p[1..], t, q);
      assert p == [p[0]] + p[1..];
    }
  }

  lemma NotEarlier(p: string, n: nat, q: string, i: nat)
    requires i < |p| <= n
    ensures !At(Foreign(n), p + Foreign(n) + q, i)
  {
    var t := Foreign(n);
    var m := p + t + q;
    assert m[|p|] == 'b' && t[|p| - i] == 'f';
    if At(t, m, i) {
      AtMatches(t, m, i);
      assert false;
    }
  }

  lemma NotInShorter(t: string, q: string)
    requires |t| > |q|
    ensures !Occurs(t, q)
  {
  }

  /** Replacing the foreign text leaves the mark in its place. */
  lemma ForeignReplaced(p: string, n: nat, q: string)
    requires n >= |p| && n >= |q|
    ensures Foreign(n) != "" && ReplaceAll(p + Foreign(n) + q, Foreign(n), MARK) == p + (MARK + q)
  {
    var t := Foreign(n);
    hide ReplaceAll, At, Occurs, Run;
    forall i | 0 <= i < |p| ensures !At(t, p + t + q, i) {
      NotEarlier(p, n, q, i);
    }
    ReplaceBehind(p, t, q);
    NotInShorter(t, q);
    ReplaceAbsent(q, t, MARK);
  }

  lemma InMarked(x: string, p: string, u: nat, v: nat, q: string)
    requires Straddles(x, p, u, v, q)
    ensures Occurs(x, p + (MARK + q))
  {
    var out := p + (MARK + q);
    if p == "" {
      assert out[u..u + |x|] == x;
      assert At(x, out, u);
    } else {
      assert out[..|x|] == x;
      assert At(x, out, 0);
    }
  }

  /** A second secret brings such a secret into a message that did not hold it. */
  lemma StraddlingSurvives(x: string, p: string, u: nat, v: nat, q: string) returns (other: string, message: string)
    requires Straddles(x, p, u, v, q)
    ensures !Occurs(x, message) && Occurs(x, Scrubbed(message, [x, other]))
  {
    hide ReplaceAll, Occurs, Foreign;
    var n := |x|;
    other := Foreign(n);
    message := p + other + q;
    NotAroundForeign(x, p, u, v, q, n);
    ReplaceAbsent(message, x, MARK);
    ForeignReplaced(p, n, q);
    assert [x, other][..1] == [x] && [x][..0] == [];
    assert Scrubbed(message, [x]) == message;
    InMarked(x, p, u, v, q);
  }

  lemma StartsInMark(x: string, i: nat)
    requires i < |MARK| && StartsWith(x, MARK[i..])
    ensures Straddles(x, "", i, |MARK|, x[|MARK| - i..])
  {
    assert x == x[..|MARK| - i] + x[|MARK| - i..];
    assert MARK[i..|MARK|] == MARK[i..];
  }

  lemma LiesInMark(x: string, i: nat)
    requires x != "" && i < |MARK| && StartsWith(MARK[i..], x)
    ensures Straddles(x, "", i, i + |x|, "")
  {
    assert MARK[i..][..|x|] == MARK[i..i + |x|];
  }

  lemma EndsInMark(x: string, k: nat)
    requires k < |x| && StartsWith(MARK, x[k..])
    ensures Straddles(x, x[..k], 0, |x| - k, "")
  {
    assert MARK[0..|x| - k] == MARK[..|x| - k] == x[k..];
    assert x == x[..k] + x[k..];
  }

  lemma HoldsMark(x: string, k: nat)
    requires k < |x| && StartsWith(x[k..], MARK)
    ensures Straddles(x, x[..k], 0, |MARK|, x[k + |MARK|..])
  {
    assert x[k..][|MARK|..] == x[k + |MARK|..];
    assert x[k..] == x[k..][..|MARK|] + x[k..][|MARK|..];
    assert x == x[..k] + x[k..];
    assert MARK[0..|MARK|] == MARK;
  }

  lemma OverlapStraddles(x: string) returns (p: string, u: nat, v: nat, q: string)
    requires x != "" && !Apart(x)
    ensures Straddles(x, p, u, v, q)
  {
    hide StartsWith, Straddles;
    if i :| 0 <= i < |MARK| && StartsWith(x, MARK[i..]) {
      StartsInMark(x, i);
      assert |x| >= |MARK| - i by { Longer(x, MARK[i..]); }
      p, u, v, q := "", i, |MARK|, x[|MARK| - i..];
    } else if i :| 0 <= i < |MARK| && StartsWith(MARK[i..], x) {
      LiesInMark(x, i);
      p, u, v, q := "", i, i + |x|, "";
    } else if k :| 0 <= k < |x| && StartsWith(MARK, x[k..]) {
      EndsInMark(x, k);
      p, u, v, q := x[..k], 0, |x| - k, "";
    } else {
      var k :| 0 <= k < |x| && StartsWith(x[k..], MARK);
      HoldsMark(x, k);
      assert |x| - k >= |MARK| by { Longer(x[k..], MARK); }
      p, u, v, q := x[..k], 0, |MARK|, x[k + |MARK|..];
    }
  }

  lemma Longer(s: string, p: string)
    requires StartsWith(s, p)
    ensures |p| <= |s|
  {
  }

  /**
    Scrubbing removes a secret from every message, whatever the other secrets are, exactly when
    the secret cannot overlap a mark.
   */
  lemma ScrubIsCompleteIff(x: string)
    requires x != ""
    ensures (forall secrets, message :: x in secrets ==> !Occurs(x, Scrubbed(message, secrets))) <==> Apart(x)
  {
    hide Apart, Occurs, Scrubbed;
    if Apart(x) {
      forall secrets, message | x in secrets ensures !Occurs(x, Scrubbed(message, secrets)) {
        ScrubbedClean(message, secrets, x);
      }
    } else {
      var p, u, v, q := OverlapStraddles(x);
      var other, message := StraddlingSurvives(x, p, u, v, q);
      var secrets := [x, other];
      assert secrets[0] == x;
      assert x in secrets && Occurs(x, Scrubbed(message, secrets));
    }
  }

  predicate NoBracket(x: string) {
    '[' !in x && ']' !in x
  }

  predicate AllBracketFree(secrets: seq<string>) {
    forall i :: 0 <= i < |secrets| ==> NoBracket(secrets[i])
  }

  /** No secret could be found inside the replacement word itself. */
  predicate NoneInWord(secrets: seq<string>) {
    forall i :: 0 <= i < |secrets| && secrets[i] != "" ==> !Occurs(secrets[i], WORD)
  }

  lemma WordInMark(x: string)
    requires Occurs(x, WORD)
    ensures Occurs(x, MARK)
  {
    assert At(WORD, MARK, 1);
    OccursTransitive(x, WORD, MARK);
  }

  /** A bracket-free text overlaps the mark only inside its word. */
  lemma BracketFreeApart(x: string)
    requires x != "" && NoBracket(x) && !Occurs(x, WORD)
    ensures Apart(x)
  {
    forall i | 0 <= i < |MARK| ensures !StartsWith(x, MARK[i..]) && !StartsWith(MARK[i..], x) {
      assert MARK[i..][|MARK| - 1 - i] == ']';
      if StartsWith(x, MARK[i..]) {
        assert false;
      }
      if StartsWith(MARK[i..], x) {
        InsideMark(x, i);
        assert false;
      }
    }
    forall k | 0 <= k < |x| ensures !StartsWith(MARK, x[k..]) && !StartsWith(x[k..], MARK) {
      assert x[k..][0] == x[k];
      if StartsWith(MARK, x[k..]) {
        assert false;
      }
    }
  }

  lemma EndsAreBrackets(x: string, i: nat)
    requires x != "" && i + |x| <= |MARK| && x == MARK[i..i + |x|]
    ensures i == 0 ==> '[' in x
    ensures i + |x| == |MARK| ==> ']' in x
  {
    assert x[0] == MARK[i] && x[|x| - 1] == MARK[i + |x| - 1];
    assert x[0] in x && x[|x| - 1] in x;
  }

  lemma InsideMark(x: string, i: nat)
    requires x != "" && NoBracket(x) && i < |MARK| && StartsWith(MARK[i..], x)
    ensures Occurs(x, WORD)
  {
    assert x == MARK[i..i + |x|];
    EndsAreBrackets(x, i);
    if 0 < i && i + |x| < |MARK| {
      assert MARK[i..i + |x|] == WORD[i - 1..i - 1 + |x|];
      assert At(x, WORD, i - 1);
    }
  }

  /**
    A fixed list of bracket-free secrets is removed from every message exactly when no non-empty
    secret is a part of the word `redacted`.
   */
  lemma BracketFreeListIff(secrets: seq<string>)
    requires AllBracketFree(secrets)
    ensures (forall message :: Clean(Scrubbed(message, secrets), secrets)) <==> NoneInWord(secrets)
  {
    hide Apart, Occurs;
    if NoneInWord(secrets) {
      forall message, i | 0 <= i < |secrets| && secrets[i] != ""
        ensures !Occurs(secrets[i], Scrubbed(message, secrets))
      {
        BracketFreeApart(secrets[i]);
        ScrubbedClean(message, secrets, secrets[i]);
      }
    } else {
      var i :| 0 <= i < |secrets| && secrets[i] != "" && Occurs(secrets[i], WORD);
      WordInMark(secrets[i]);
      MarkedSecretSurvives(secrets, secrets[i]);
      assert !Clean(Scrubbed(secrets[i], secrets), secrets);
    }
  }

  /** A secret with a bracket can be put back together by its own replacement. */
  lemma BracketedSecretSurvives()
    ensures Occurs("]x", Scrubbed("]xx", ["]x"]))
  {
    var m := "]xx";
    assert ["]x"][..0] == [];
    assert m[..2] == "]x" && m[2..] == "x";
    assert "x"[1..] == "";
    var out := MARK + "x";
    assert ReplaceAll("x", "]x", MARK) == ['x'] + ReplaceAll("", "]x", MARK);
    assert Scrubbed(m, ["]x"]) == ReplaceAll(m, "]x", MARK) == out;
    assert At("]x", out, 9);
  }
}
