/**
  The second canonicalizer, in the local playground: JavaScript's `canonical`, which sorts keys
  by UTF-16 code unit, and its stripping of hash and signature; and exactly when it agrees with
  the Python one.
 */
module Playground {
  import opened Wrappers
  import opened Text
  import opened JsonText
  import opened Json
  import Receipts

  /**
    How JavaScript prints a number it parsed: a JSON number, or `null` when the number overflowed
    (`None`).  Nothing is assumed of it beyond the integers a double holds exactly.
   */
  type NumberText = Json -> Option<NumberLexeme>

  const SAFE: int := 0x20_0000_0000_0000  // 2^53

  predicate SmallInt(v: Json) {
    v.Int? && -SAFE < v.n < SAFE
  }

  /** `JSON.stringify` of a number, as a tree. */
  function NumberTree(num: NumberText, v: Json): Tree
    requires v.Int? || v.Float?
  {
    if SmallInt(v) then IntTextIsInteger(v.n); TNum(IntText(v.n))
    else if num(v).Some? then TNum(num(v).value)
    else TNull
  }

  /** `canonical(obj)`: recursion over the value, keys from `Object.keys(obj).sort()`. */
  function Canonical(num: NumberText, v: Json): string
    decreases v, 1, 0
  {
    match v
    case Null => "null"
    case Bool(b) => if b then "true" else "false"
    case Int(_) => Print(Compact, 0, NumberTree(num, v))
    case Float(_) => Print(Compact, 0, NumberTree(num, v))
    case Str(s) => PrintString(Compact, s)
    case Arr(items) => if items == [] then "[]" else "[" + CanonicalItems(num, items) + "]"
    case Obj(m) =>
      if m == map[] then "{}" else "{" + CanonicalMembers(num, v, SortedKeys(ByCodeUnit, m.Keys)) + "}"
  }

  /** `obj.map(canonical).join(",")` */
  function CanonicalItems(num: NumberText, items: seq<Json>): string
    decreases items, 1, 0
  {
    if items == [] then ""
    else Canonical(num, items[0]) + if |items| == 1 then "" else "," + CanonicalItems(num, items[1..])
  }

  /** `keys.map(k => JSON.stringify(k) + ":" + canonical(obj[k])).join(",")` */
  function CanonicalMembers(num: NumberText, v: Json, keys: seq<string>): string
    requires v.Obj? && forall k :: k in keys ==> k in v.m
    decreases v, 0, |keys|
  {
    if keys == [] then ""
    else
      PrintString(Compact, keys[0]) + ":" + Canonical(num, v.m[keys[0]]) +
      if |keys| == 1 then "" else "," + CanonicalMembers(num, v, keys[1..])
  }

  /** The tree that JavaScript prints. */
  function JsTree(num: NumberText, v: Json): Tree
    decreases v, 1, 0
  {
    match v
    case Null => TNull
    case Bool(b) => TBool(b)
    case Int(_) => NumberTree(num, v)
    case Float(_) => NumberTree(num, v)
    case Str(s) => TStr(s)
    case Arr(items) => TArr(JsItems(num, items))
    case Obj(m) => TObj(JsMembers(num, v, SortedKeys(ByCodeUnit, m.Keys)))
  }

  function JsItems(num: NumberText, items: seq<Json>): (r: seq<Tree>)
    ensures |r| == |items|
    decreases items, 1, 0
  {
    if items == [] then [] else [JsTree(num, items[0])] + JsItems(num, items[1..])
  }

  function JsMembers(num: NumberText, v: Json, keys: seq<string>): (r: seq<Member>)
    requires v.Obj? && forall k :: k in keys ==> k in v.m
    ensures |r| == |keys| && forall i :: 0 <= i < |r| ==> r[i].name == keys[i]
    decreases v, 0, |keys|
  {
    if keys == [] then []
    else [Member(keys[0], JsTree(num, v.m[keys[0]]))] + JsMembers(num, v, keys[1..])
  }

  /** Every number in the value is printed alike by both languages. */
  predicate NumbersAlike(num: NumberText, v: Json)
    decreases v
  {
    match v
    case Int(n) => SmallInt(v) || (num(v).Some? && num(v).value == IntText(n))
    case Float(lexeme) => num(v).Some? && num(v).value == lexeme
    case Arr(items) => forall i :: 0 <= i < |items| ==> NumbersAlike(num, items[i])
    case Obj(m) => forall k :: k in m ==> NumbersAlike(num, m[k])
    case _ => true
  }

  // ---------- both canonicalizers print ordered trees ----------

  // Compact text has no line breaks, so levels do not matter.

  lemma CompactArray(level: nat, ts: seq<Tree>)
    requires ts != []
    ensures Print(Compact, level, TArr(ts)) == "[" + PrintItems(Compact, level + 1, ts) + "]"
  {
    hide PrintItems;
    assert Newline(Compact, level + 1) == "" && Newline(Compact, level) == "";
  }

  lemma CompactObject(level: nat, ts: seq<Member>)
    requires ts != []
    ensures Print(Compact, level, TObj(ts)) == "{" + PrintMembers(Compact, level + 1, ts) + "}"
  {
    hide PrintMembers;
    assert Newline(Compact, level + 1) == "" && Newline(Compact, level) == "";
  }

  lemma CompactItems(level: nat, ts: seq<Tree>)
    requires |ts| > 1
    ensures PrintItems(Compact, level, ts) == Print(Compact, level, ts[0]) + ("," + PrintItems(Compact, level, ts[1..]))
  {
    hide Print;
    assert Newline(Compact, level) == "";
  }

  lemma CompactMembers(level: nat, ts: seq<Member>)
    requires ts != []
    ensures PrintMembers(Compact, level, ts)
            == PrintString(Compact, ts[0].name) + ":" + Print(Compact, level, ts[0].value) +
               if |ts| == 1 then "" else "," + PrintMembers(Compact, level, ts[1..])
  {
    hide Print, PrintString;
    assert Newline(Compact, level) == "";
  }

  lemma JsMembersSplit(num: NumberText, v: Json, keys: seq<string>)
    requires v.Obj? && keys != [] && forall k :: k in keys ==> k in v.m
    ensures JsMembers(num, v, keys)[0] == Member(keys[0], JsTree(num, v.m[keys[0]]))
    ensures JsMembers(num, v, keys)[1..] == JsMembers(num, v, keys[1..])
  {
    hide JsTree;
  }

  lemma NumberPrints(num: NumberText, v: Json, level: nat)
    requires v.Int? || v.Float?
    ensures Print(Compact, 0, NumberTree(num, v)) == Print(Compact, level, NumberTree(num, v))
  {
    hide IntText, IsNumber;
  }

  lemma NothingListed(o: KeyOrder)
    ensures SortedKeys(o, {}) == []
  {
  }

  /** JavaScript's canonical text is the compact text of its tree. */
  lemma {:induction false} CanonicalPrints(num: NumberText, v: Json, level: nat)
    ensures Canonical(num, v) == Print(Compact, level, JsTree(num, v))
    decreases v, 1, 0
  {
    hide SortedKeys, JsMembers, JsItems, CanonicalItems, CanonicalMembers, PrintItems, PrintMembers, NumberTree;
    match v
    case Int(_) => NumberPrints(num, v, level);
    case Float(_) => NumberPrints(num, v, level);
    case Arr(items) =>
      if items != [] {
        CanonicalItemsPrint(num, items, level + 1);
        CompactArray(level, JsItems(num, items));
      }
    case Obj(m) =>
      var keys := SortedKeys(ByCodeUnit, m.Keys);
      if m != map[] {
        assert keys != [] by {
          var k :| k in m;
          assert k in keys;
        }
        CanonicalMembersPrint(num, v, keys, level + 1);
        CompactObject(level, JsMembers(num, v, keys));
      } else {
        assert m.Keys == {};
        NothingListed(ByCodeUnit);
      }
    case _ =>
  }

  lemma {:induction false} CanonicalItemsPrint(num: NumberText, items: seq<Json>, level: nat)
    requires items != []
    ensures CanonicalItems(num, items) == PrintItems(Compact, level, JsItems(num, items))
    decreases items, 1, 0
  {
    hide Canonical, Print, JsTree;
    var ts := JsItems(num, items);
    CanonicalPrints(num, items[0], level);
    assert ts[0] == JsTree(num, items[0]) && ts[1..] == JsItems(num, items[1..]);
    if |items| > 1 {
      CanonicalItemsPrint(num, items[1..], level);
      CompactItems(level, ts);
    }
  }

  lemma {:induction false} CanonicalMembersPrint(num: NumberText, v: Json, keys: seq<string>, level: nat)
    requires v.Obj? && keys != [] && forall k :: k in keys ==> k in v.m
    ensures CanonicalMembers(num, v, keys) == PrintMembers(Compact, level, JsMembers(num, v, keys))
    decreases v, 0, |keys|
  {
    hide JsTree, Canonical, SortedKeys, PrintString, Print, PrintMembers, JsMembers;
    CanonicalPrints(num, v.m[keys[0]], level);
    CompactMembers(level, JsMembers(num, v, keys));
    JsMembersSplit(num, v, keys);
    if |keys| > 1 {
      CanonicalMembersPrint(num, v, keys[1..], level);
    }
  }

  // ---------- where the key orders matter ----------

  predicate KeysCross(keys: set<string>) {
    exists a, b :: a in keys && b in keys && Crossing(a, b)
  }

  /** No object at any depth has two keys whose first difference crosses U+FFFF. */
  predicate NoCrossing(v: Json)
    decreases v
  {
    match v
    case Arr(items) => forall i :: 0 <= i < |items| ==> NoCrossing(items[i])
    case Obj(m) => !KeysCross(m.Keys) && forall k :: k in m ==> NoCrossing(m[k])
    case _ => true
  }

  lemma {:induction false} CrossingSymmetric(a: string, b: string)
    ensures Crossing(a, b) == Crossing(b, a)
  {
    if a != "" && b != "" && a[0] == b[0] {
      CrossingSymmetric(a[1..], b[1..]);
    }
  }

  /** The two sorted listings of a key set are the same exactly when no two keys cross. */
  lemma ListingsAgree(keys: set<string>)
    ensures SortedKeys(ByCodePoint, keys) == SortedKeys(ByCodeUnit, keys) <==> !KeysCross(keys)
  {
    var p, u := SortedKeys(ByCodePoint, keys), SortedKeys(ByCodeUnit, keys);
    if !KeysCross(keys) {
      forall i, j | 0 <= i < j < |u| ensures Before(ByCodePoint, u[i], u[j]) {
        assert u[i] in keys && u[j] in keys;
        assert !Crossing(u[i], u[j]);
        OrdersDisagreeIffCrossing(u[i], u[j]);
      }
      SortedListingUnique(ByCodePoint, p, u);
    } else {
      var a, b :| a in keys && b in keys && Crossing(a, b);
      assert a in p && b in p && a in u && b in u;
      OrdersDisagreeIffCrossing(a, b);
      CrossingSymmetric(a, b);
      OrdersDisagreeIffCrossing(b, a);
      NeverCrossesItself(a);
      BeforeTotal(ByCodePoint, a, b);
      if Before(ByCodePoint, a, b) {
        SortedApart(p, u, a, b);
      } else {
        SortedApart(p, u, b, a);
      }
    }
  }

  lemma {:induction false} NeverCrossesItself(a: string)
    ensures !Crossing(a, a)
  {
    if a != "" {
      NeverCrossesItself(a[1..]);
    }
  }

  /** A pair that only the code-point order puts this way round stands the other way in the other listing. */
  lemma SortedApart(p: seq<string>, u: seq<string>, a: string, b: string)
    requires Sorted(ByCodePoint, p) && Sorted(ByCodeUnit, u) && a in p && b in p && a in u && b in u && a != b
    requires Before(ByCodePoint, a, b) && !Before(ByCodeUnit, a, b)
    ensures p != u
  {
    hide Before;
    var k, l :| 0 <= k < |u| && 0 <= l < |u| && u[k] == a && u[l] == b;
    BeforeAsymmetric(ByCodePoint, a, b);
    assert l < k;
  }

  lemma NumbersAgree(num: NumberText, v: Json)
    requires v.Int? || v.Float?
    ensures Ordered(ByCodePoint, v) == NumberTree(num, v) <==> NumbersAlike(num, v)
  {
    hide IntText, IsNumber, IsInteger;
  }

  /** The two printed trees are the same exactly when no keys cross and every number is printed alike. */
  lemma {:induction false} TreesAgree(num: NumberText, v: Json)
    ensures Ordered(ByCodePoint, v) == JsTree(num, v) <==> NoCrossing(v) && NumbersAlike(num, v)
    decreases v, 1, 0
  {
    hide OrderedItems, JsItems, OrderedMembers, JsMembers, SortedKeys, NumberTree;
    match v
    case Int(_) => NumbersAgree(num, v);
    case Float(_) => NumbersAgree(num, v);
    case Arr(items) => ItemTreesAgree(num, items);
    case Obj(m) =>
      MemberTreesAgree(num, v, SortedKeys(ByCodePoint, m.Keys));
      ObjectTreesAgree(num, v);
    case _ =>
  }

  predicate ItemsFine(num: NumberText, items: seq<Json>) {
    forall i :: 0 <= i < |items| ==> NoCrossing(items[i]) && NumbersAlike(num, items[i])
  }

  lemma ItemsFineSplit(num: NumberText, items: seq<Json>)
    requires items != []
    ensures ItemsFine(num, items) <==>
            NoCrossing(items[0]) && NumbersAlike(num, items[0]) && ItemsFine(num, items[1..])
  {
    hide NoCrossing, NumbersAlike;
    var rest := items[1..];
    assert forall i :: 0 <= i < |rest| ==> rest[i] == items[i + 1];
    if NoCrossing(items[0]) && NumbersAlike(num, items[0]) && ItemsFine(num, rest) {
      forall i | 0 <= i < |items| ensures NoCrossing(items[i]) && NumbersAlike(num, items[i]) {
        assert i > 0 ==> items[i] == rest[i - 1];
      }
    }
  }

  lemma {:induction false} ItemTreesAgree(num: NumberText, items: seq<Json>)
    ensures OrderedItems(ByCodePoint, items) == JsItems(num, items) <==> ItemsFine(num, items)
    decreases items, 1, 0
  {
    hide Ordered, JsTree, NoCrossing, NumbersAlike;
    if items != [] {
      TreesAgree(num, items[0]);
      ItemTreesAgree(num, items[1..]);
      ItemsFineSplit(num, items);
      var a, b := OrderedItems(ByCodePoint, items), JsItems(num, items);
      assert a[0] == Ordered(ByCodePoint, items[0]) && a[1..] == OrderedItems(ByCodePoint, items[1..]);
      assert b[0] == JsTree(num, items[0]) && b[1..] == JsItems(num, items[1..]);
      assert a == [a[0]] + a[1..] && b == [b[0]] + b[1..];
    }
  }

  predicate MembersFine(num: NumberText, v: Json, keys: seq<string>)
    requires v.Obj? && forall k :: k in keys ==> k in v.m
  {
    forall k :: k in keys ==> NoCrossing(v.m[k]) && NumbersAlike(num, v.m[k])
  }

  lemma MembersFineSplit(num: NumberText, v: Json, keys: seq<string>)
    requires v.Obj? && keys != [] && forall k :: k in keys ==> k in v.m
    ensures MembersFine(num, v, keys) <==>
            NoCrossing(v.m[keys[0]]) && NumbersAlike(num, v.m[keys[0]]) && MembersFine(num, v, keys[1..])
  {
    hide NoCrossing, NumbersAlike;
    assert keys == [keys[0]] + keys[1..];
  }

  lemma MemberTreesSplit(num: NumberText, v: Json, keys: seq<string>)
    requires v.Obj? && keys != [] && forall k :: k in keys ==> k in v.m
    ensures OrderedMembers(ByCodePoint, v, keys) == JsMembers(num, v, keys) <==>
            Ordered(ByCodePoint, v.m[keys[0]]) == JsTree(num, v.m[keys[0]]) &&
            OrderedMembers(ByCodePoint, v, keys[1..]) == JsMembers(num, v, keys[1..])
  {
    hide Ordered, JsTree;
    var a, b := OrderedMembers(ByCodePoint, v, keys), JsMembers(num, v, keys);
    assert a[0].value == Ordered(ByCodePoint, v.m[keys[0]]) && a[1..] == OrderedMembers(ByCodePoint, v, keys[1..]);
    assert b[0].value == JsTree(num, v.m[keys[0]]) && b[1..] == JsMembers(num, v, keys[1..]);
    assert a == [a[0]] + a[1..] && b == [b[0]] + b[1..];
  }

  lemma {:induction false} MemberTreesAgree(num: NumberText, v: Json, keys: seq<string>)
    requires v.Obj? && forall k :: k in keys ==> k in v.m
    ensures OrderedMembers(ByCodePoint, v, keys) == JsMembers(num, v, keys) <==> MembersFine(num, v, keys)
    decreases v, 0, |keys|
  {
    if keys != [] {
      hide Ordered, JsTree, NoCrossing, NumbersAlike, SortedKeys, OrderedMembers, JsMembers, MembersFine;
      TreesAgree(num, v.m[keys[0]]);
      MemberTreesAgree(num, v, keys[1..]);
      MembersFineSplit(num, v, keys);
      MemberTreesSplit(num, v, keys);
    }
  }

  /** Equal member lists name the members in one order. */
  lemma SameNames(num: NumberText, v: Json, w: Json, p: seq<string>, u: seq<string>)
    requires v.Obj? && (forall k :: k in p ==> k in v.m) && w.Obj? && (forall k :: k in u ==> k in w.m)
    requires OrderedMembers(ByCodePoint, v, p) == JsMembers(num, w, u)
    ensures p == u
  {
    hide OrderedMembers, JsMembers;
    var a, b := OrderedMembers(ByCodePoint, v, p), JsMembers(num, w, u);
    forall i | 0 <= i < |p| ensures p[i] == u[i] {
      assert a[i].name == b[i].name;
    }
  }

  lemma ObjectTreesAgree(num: NumberText, v: Json)
    requires v.Obj?
    requires var p := SortedKeys(ByCodePoint, v.m.Keys);
             OrderedMembers(ByCodePoint, v, p) == JsMembers(num, v, p) <==> MembersFine(num, v, p)
    ensures OrderedMembers(ByCodePoint, v, SortedKeys(ByCodePoint, v.m.Keys))
            == JsMembers(num, v, SortedKeys(ByCodeUnit, v.m.Keys))
            <==> NoCrossing(v) && NumbersAlike(num, v)
  {
    hide OrderedMembers, JsMembers, SortedKeys, KeysCross;
    ListingsAgree(v.m.Keys);
    var p, u := SortedKeys(ByCodePoint, v.m.Keys), SortedKeys(ByCodeUnit, v.m.Keys);
    if OrderedMembers(ByCodePoint, v, p) == JsMembers(num, v, u) {
      SameNames(num, v, v, p, u);
    }
    assert forall k :: k in v.m <==> k in p;
  }

  /**
    For every value and whatever JavaScript prints for its numbers, the two canonical texts are
    equal exactly when no object at any depth has a crossing pair of keys and every number is
    printed alike.
   */
  lemma CanonicalizersAgreeIff(num: NumberText, v: Json)
    ensures Canonical(num, v) == Write(Compact, v) <==> NoCrossing(v) && NumbersAlike(num, v)
  {
    hide Canonical, Print, Ordered, JsTree, NoCrossing, NumbersAlike;
    CanonicalPrints(num, v, 0);
    TreesAgree(num, v);
    if Canonical(num, v) == Write(Compact, v) {
      PrintInjective(Compact, Ordered(ByCodePoint, v), JsTree(num, v));
    }
  }

  function WholeInPython(): (s: FloatLexeme)
    ensures s == "1.0"
  {
    assert "1.0"[1..] == ".0" && ".0"[1..] == "0" && "0"[1..] == "" && "1.0"[3..] == "";
    "1.0"
  }

  function WholeInJavaScript(): (s: NumberLexeme)
    ensures s == "1"
  {
    assert "1"[1..] == "";
    "1"
  }

  /**
    Where the languages part: Python writes the ratio of a seat that saw as much as the original
    as `1.0`, JavaScript as `1`.
   */
  lemma WholeRatioDiffers(num: NumberText)
    requires num(Float(WholeInPython())) == Some(WholeInJavaScript())
    ensures var v := Obj(map["exposure_ratio" := Float(WholeInPython())]); Canonical(num, v) != Write(Compact, v)
  {
    hide Canonical, Write;
    assert |"1"| != |"1.0"|;
    MemberDecides(num, map["exposure_ratio" := Float(WholeInPython())], "exposure_ratio");
  }

  lemma MemberDecides(num: NumberText, m: Dict, k: string)
    requires k in m && !NumbersAlike(num, m[k])
    ensures Canonical(num, Obj(m)) != Write(Compact, Obj(m))
  {
    hide Canonical, Write, NoCrossing;
    CanonicalizersAgreeIff(num, Obj(m));
  }

  // ---------- the hashed body ----------

  /**
    `for (const k of Object.keys(receipt)) if (...) body[k] = receipt[k]`: assigning to
    `__proto__` of a plain object sets its prototype and creates no member.
   */
  function StrippedBody(m: Dict): Dict {
    m - Receipts.UNHASHED - {"__proto__"}
  }

  /** The same as a loop over the members, in any order. */
  method StripBody(m: Dict) returns (body: Dict)
    ensures body == StrippedBody(m)
  {
    body := map[];
    var left := m.Keys;
    while left != {}
      invariant left <= m.Keys
      invariant body.Keys == (m.Keys - left) - Receipts.UNHASHED - {"__proto__"}
      invariant forall k :: k in body ==> body[k] == m[k]
    {
      var k :| k in left;
      left := left - {k};
      if k != "receipt_hash" && k != "signature" && k != "__proto__" {
        body := body[k := m[k]];
      }
    }
  }

  /**
    The playground hashes the same text as the verifier exactly when no keys cross in the body,
    every number in it is printed alike, and the receipt has no member named `__proto__`.
   */
  lemma PlaygroundHashesSameTextIff(num: NumberText, m: Dict)
    ensures Canonical(num, Obj(StrippedBody(m))) == Write(Compact, Obj(Receipts.BodyOf(m)))
            <==> NoCrossing(Obj(Receipts.BodyOf(m))) && NumbersAlike(num, Obj(Receipts.BodyOf(m))) &&
                 "__proto__" !in m
  {
    hide Canonical, Print, Ordered, JsTree, NoCrossing, NumbersAlike;
    var js, py := StrippedBody(m), Receipts.BodyOf(m);
    assert "__proto__" in m ==> "__proto__" in py && "__proto__" !in js;
    CanonicalPrints(num, Obj(js), 0);
    if "__proto__" !in m {
      assert js == py;
      CanonicalizersAgreeIff(num, Obj(py));
    } else if Canonical(num, Obj(js)) == Write(Compact, Obj(py)) {
      PrintInjective(Compact, Ordered(ByCodePoint, Obj(py)), JsTree(num, Obj(js)));
      SameKeys(num, py, js);
    }
  }

  lemma SameKeys(num: NumberText, py: Dict, js: Dict)
    requires Ordered(ByCodePoint, Obj(py)) == JsTree(num, Obj(js))
    ensures forall k :: k in py <==> k in js
  {
    var p, u := SortedKeys(ByCodePoint, py.Keys), SortedKeys(ByCodeUnit, js.Keys);
    SameNames(num, Obj(py), Obj(js), p, u);
    assert forall k :: k in py <==> k in p;
    assert forall k :: k in js <==> k in u;
  }
}
