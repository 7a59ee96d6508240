/** Python's `str.replace` and `in`, and newline normalisation. */
module Replace {
  import opened JsonText

  predicate At(x: string, m: string, i: int) {
    0 <= i <= |m| - |x| && m[i..i + |x|] == x
  }

  /** `x in m` */
  predicate Occurs(x: string, m: string) {
    exists i :: 0 <= i <= |m| && At(x, m, i)
  }

  /** `m.replace(s, r)`: leftmost occurrences first, none overlapping. */
  function ReplaceAll(m: string, s: string, r: string): string
    requires s != ""
    decreases |m|
  {
    if StartsWith(m, s) then r + ReplaceAll(m[|s|..], s, r)
    else if m == "" then ""
    else [m[0]] + ReplaceAll(m[1..], s, r)
  }

  // ---------- occurrences ----------

  lemma OccursAtStart(x: string, m: string)
    requires StartsWith(m, x)
    ensures Occurs(x, m)
  {
    assert At(x, m, 0);
  }

  lemma OccursIn(x: string, a: string, b: string)
    requires Occurs(x, b)
    ensures Occurs(x, a + b)
  {
    var i :| 0 <= i <= |b| && At(x, b, i);
    assert At(x, a + b, |a| + i);
  }

  lemma OccursTransitive(x: string, y: string, z: string)
    requires Occurs(x, y) && Occurs(y, z)
    ensures Occurs(x, z)
  {
    var i :| 0 <= i <= |y| && At(x, y, i);
    var j :| 0 <= j <= |z| && At(y, z, j);
    SliceOfSlice(z, j, j + |y|, i, i + |x|);
    assert At(x, z, j + i);
  }

  lemma SliceOfSlice(z: string, j: nat, k: nat, lo: nat, hi: nat)
    requires j <= k <= |z| && lo <= hi <= k - j
    ensures z[j..k][lo..hi] == z[j + lo..j + hi]
  {
    var a, b := z[j..k][lo..hi], z[j + lo..j + hi];
    assert forall i :: 0 <= i < |a| ==> a[i] == z[j..k][lo + i];
    assert forall i :: 0 <= i < |b| ==> b[i] == z[j + (lo + i)];
  }

  lemma AtMatches(x: string, t: string, i: nat)
    requires At(x, t, i)
    ensures forall b :: i <= b < i + |x| ==> t[b] == x[b - i]
  {
    assert forall k :: 0 <= k < |x| ==> x[k] == t[i + k];
  }

  /** An occurrence is at the front or in the rest. */
  lemma OccursSplit(x: string, m: string)
    requires m != "" && Occurs(x, m)
    ensures StartsWith(m, x) || Occurs(x, m[1..])
  {
    var i :| 0 <= i <= |m| && At(x, m, i);
    if i > 0 {
      assert At(x, m[1..], i - 1);
    }
  }

  lemma {:induction false} ReplaceAbsent(m: string, s: string, r: string)
    requires s != "" && !Occurs(s, m)
    ensures ReplaceAll(m, s, r) == m
    decreases |m|
  {
    if StartsWith(m, s) {
      OccursAtStart(s, m);
    } else if m != "" {
      assert m == [m[0]] + m[1..];
      if Occurs(s, m[1..]) {
        OccursIn(s, [m[0]], m[1..]);
      }
      ReplaceAbsent(m[1..], s, r);
    }
  }

  lemma {:induction false} ReplacePresent(m: string, s: string, r: string)
    requires s != "" && Occurs(s, m)
    ensures Occurs(r, ReplaceAll(m, s, r))
    decreases |m|
  {
    if StartsWith(m, s) {
      var t := ReplaceAll(m[|s|..], s, r);
      assert (r + t)[..|r|] == r;
      OccursAtStart(r, r + t);
    } else {
      assert m != "" by {
        var i :| 0 <= i <= |m| && At(s, m, i);
      }
      OccursSplit(s, m);
      ReplacePresent(m[1..], s, r);
      OccursIn(r, [m[0]], ReplaceAll(m[1..], s, r));
    }
  }

  // ---------- newline normalisation ----------

  const CR: string := [13 as char]
  const LF: string := [10 as char]

  /** `text.replace("\r\n", "\n").replace("\r", "\n")` */
  function Normalize(text: string): string {
    ReplaceAll(ReplaceAll(text, CR + LF, LF), CR, LF)
  }

  lemma {:induction false} NoCarriageReturn(m: string)
    ensures forall i :: 0 <= i < |ReplaceAll(m, CR, LF)| ==> ReplaceAll(m, CR, LF)[i] != 13 as char
    decreases |m|
  {
    if StartsWith(m, CR) {
      NoCarriageReturn(m[|CR|..]);
    } else if m != "" {
      assert m[0] == 13 as char ==> m[..1] == CR;
      NoCarriageReturn(m[1..]);
    }
  }

  /** An occurrence starts with its first character. */
  lemma StartsAt(x: string, m: string, i: nat)
    requires x != ""
    ensures At(x, m, i) ==> i < |m| && m[i] == x[0]
  {
    if At(x, m, i) {
      AtMatches(x, m, i);
    }
  }

  /** One pass over the text: each CR LF, each other CR and each other LF is one line feed. */
  function Unified(text: string): string {
    if text == "" then ""
    else if text[0] == '\r' then "\n" + Unified(if |text| > 1 && text[1] == '\n' then text[2..] else text[1..])
    else [text[0]] + Unified(text[1..])
  }

  lemma ReplaceStep(m: string, s: string, r: string)
    requires s != "" && m != "" && !StartsWith(m, s)
    ensures ReplaceAll(m, s, r) == [m[0]] + ReplaceAll(m[1..], s, r)
  {
  }

  lemma ReplaceHit(m: string, s: string, r: string)
    requires s != "" && StartsWith(m, s)
    ensures ReplaceAll(m, s, r) == r + ReplaceAll(m[|s|..], s, r)
  {
  }

  lemma OtherFirst(m: string, c: char)
    requires c != '\r'
    ensures ReplaceAll([c] + m, CR, LF) == [c] + ReplaceAll(m, CR, LF)
  {
    assert ([c] + m)[..1] == [c] && ([c] + m)[1..] == m;
    ReplaceStep([c] + m, CR, LF);
  }

  lemma ReturnFirst(m: string)
    ensures ReplaceAll(CR + m, CR, LF) == LF + ReplaceAll(m, CR, LF)
  {
    assert (CR + m)[..1] == CR && (CR + m)[1..] == m;
    ReplaceHit(CR + m, CR, LF);
  }

  lemma PairStarts(text: string)
    ensures StartsWith(text, CR + LF) <==> |text| > 1 && text[0] == '\r' && text[1] == '\n'
  {
    if |text| > 1 {
      assert text[..2] == [text[0], text[1]];
    }
  }

  /** The two replacements, one after the other, do exactly that. */
  lemma {:induction false} NormalizeIsUnified(text: string)
    ensures Normalize(text) == Unified(text)
    decreases |text|
  {
    hide ReplaceAll;
    PairStarts(text);
    if text == "" {
      NothingReplaced();
    } else if StartsWith(text, CR + LF) {
      ReplaceHit(text, CR + LF, LF);
      OtherFirst(ReplaceAll(text[2..], CR + LF, LF), '\n');
      NormalizeIsUnified(text[2..]);
    } else {
      ReplaceStep(text, CR + LF, LF);
      var rest := ReplaceAll(text[1..], CR + LF, LF);
      if text[0] == '\r' {
        ReturnFirst(rest);
      } else {
        OtherFirst(rest, text[0]);
      }
      NormalizeIsUnified(text[1..]);
    }
  }

  lemma NothingReplaced()
    ensures ReplaceAll("", CR + LF, LF) == "" && ReplaceAll("", CR, LF) == ""
  {
  }

  /** Normalising twice is normalising once: the text that was read hashes as it was sent. */
  lemma NormalizeIdempotent(text: string)
    ensures Normalize(Normalize(text)) == Normalize(text)
  {
    var n := Normalize(text);
    NoCarriageReturn(ReplaceAll(text, CR + LF, LF));
    forall i: nat ensures !At(CR + LF, n, i) && !At(CR, n, i) {
      StartsAt(CR + LF, n, i);
      StartsAt(CR, n, i);
    }
    ReplaceAbsent(n, CR + LF, LF);
    ReplaceAbsent(n, CR, LF);
  }
}
