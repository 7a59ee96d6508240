/**
  JSON values as Python holds them: an object is a dictionary, so member order is gone and
  names are unique.  Strict and last-wins loading, and the canonical form `apl-json-v1`.
 */
module Json {
  import opened Wrappers
  import opened Text
  import opened JsonText
  import Grammar
  import Utf8

  /** A number with a fraction or an exponent; it keeps the text it was written with. */
  type FloatLexeme = s: string | IsNumber(s) && !IsInteger(s) witness FloatWitness()

  function FloatWitness(): (s: string)
    ensures IsNumber(s) && !IsInteger(s)
  {
    assert "0.0"[1..] == ".0" && ".0"[1..] == "0" && "0"[1..] == "" && "0.0"[3..] == "";
    "0.0"
  }

  type Dict = map<string, Json>

  datatype Json =
    | Null
    | Bool(b: bool)
    | Int(n: int)
    | Float(lexeme: FloatLexeme)
    | Str(s: string)
    | Arr(items: seq<Json>)
    | Obj(m: map<string, Json>)

  predicate Has(d: Dict, k: string, v: Json) {
    k in d && d[k] == v
  }

  // ---------- from tree to value ----------

  /** `object_pairs_hook=_no_duplicate_keys`, or no hook at all. */
  datatype Mode = Strict | LastWins

  type Pairs = seq<(string, Json)>

  predicate Distinct(pairs: Pairs) {
    forall i, j :: 0 <= i < j < |pairs| ==> pairs[i].0 != pairs[j].0
  }

  /** `dict(pairs)`: a later pair replaces an earlier one of the same name. */
  function DictOf(pairs: Pairs): Dict {
    if pairs == [] then map[] else map[pairs[0].0 := pairs[0].1] + DictOf(pairs[1..])
  }

  lemma {:induction false} DictOfKeys(pairs: Pairs)
    ensures forall k :: k in DictOf(pairs) <==> exists i :: 0 <= i < |pairs| && pairs[i].0 == k
  {
    if pairs != [] {
      DictOfKeys(pairs[1..]);
      forall k ensures k in DictOf(pairs) <==> exists i :: 0 <= i < |pairs| && pairs[i].0 == k {
        if k in DictOf(pairs[1..]) {
          var i :| 0 <= i < |pairs[1..]| && pairs[1..][i].0 == k;
          assert pairs[i + 1].0 == k;
        }
        if i :| 0 <= i < |pairs| && pairs[i].0 == k {
          assert i > 0 ==> pairs[1..][i - 1].0 == k;
        }
      }
    }
  }

  /** With distinct names every pair is in the dictionary, so nothing was overwritten. */
  lemma {:induction false} DictOfDistinct(pairs: Pairs)
    requires Distinct(pairs)
    ensures forall i :: 0 <= i < |pairs| ==> pairs[i].0 in DictOf(pairs) && DictOf(pairs)[pairs[i].0] == pairs[i].1
  {
    if pairs != [] {
      DictOfDistinct(pairs[1..]);
      DictOfKeys(pairs[1..]);
      forall i | 0 <= i < |pairs|
        ensures pairs[i].0 in DictOf(pairs) && DictOf(pairs)[pairs[i].0] == pairs[i].1
      {
        if i > 0 {
          assert pairs[1..][i - 1] == pairs[i];
        } else {
          assert pairs[0].0 !in DictOf(pairs[1..]);
        }
      }
    }
  }

  /** A repeated name keeps the value of its last pair. */
  lemma {:induction false} LastPairWins(pairs: Pairs, i: nat)
    requires i < |pairs| && forall j :: i < j < |pairs| ==> pairs[j].0 != pairs[i].0
    ensures pairs[i].0 in DictOf(pairs) && DictOf(pairs)[pairs[i].0] == pairs[i].1
  {
    if i > 0 {
      assert forall j :: i < j < |pairs| ==> pairs[1..][j - 1] == pairs[j];
      LastPairWins(pairs[1..], i - 1);
    } else {
      DictOfKeys(pairs[1..]);
      assert forall j :: 0 <= j < |pairs[1..]| ==> pairs[1..][j] == pairs[j + 1];
    }
  }

  function Names(pairs: Pairs): set<string> {
    set i | 0 <= i < |pairs| :: pairs[i].0
  }

  /** The object hook: `Err(k)` names the first member that repeats an earlier one. */
  datatype HookResult = Ok(dict: Dict) | Duplicate(name: string)

  /** `_no_duplicate_keys`, with its growing `seen` set. */
  method NoDuplicateKeys(pairs: Pairs) returns (r: HookResult)
    ensures r.Ok? <==> Distinct(pairs)
    ensures r.Ok? ==> r.dict == DictOf(pairs)
    ensures r.Duplicate? ==>
              exists i, j :: 0 <= j < i < |pairs| && pairs[i].0 == pairs[j].0 == r.name && Distinct(pairs[..i])
  {
    var seen: set<string> := {};
    for i := 0 to |pairs|
      invariant seen == Names(pairs[..i])
      invariant Distinct(pairs[..i])
    {
      var key := pairs[i].0;
      if key in seen {
        var j :| 0 <= j < i && pairs[..i][j].0 == key;
        return Duplicate(key);
      }
      assert pairs[..i + 1] == pairs[..i] + [pairs[i]];
      forall j | 0 <= j < i ensures pairs[j].0 != key {
        assert pairs[..i][j].0 in Names(pairs[..i]);
      }
      seen := seen + {key};
      assert seen == Names(pairs[..i + 1]) by {
        assert forall j :: 0 <= j < i ==> pairs[..i + 1][j] == pairs[..i][j];
        assert pairs[..i + 1][i].0 == key;
      }
    }
    assert pairs[..|pairs|] == pairs;
    r := Ok(DictOf(pairs));
  }

  lemma IntegerDigits(s: string)
    requires IsInteger(s)
    ensures s[0] == '-' ==> Digits(s[1..]) && s[1..] != ""
    ensures s[0] != '-' ==> Digits(s)
  {
    SpanDigits(s);
    SpanDigits(s[1..]);
  }

  lemma {:induction false} SpanDigits(s: string)
    ensures forall i :: 0 <= i < DigitSpan(s) ==> '0' <= s[i] <= '9'
  {
    if s != "" && '0' <= s[0] <= '9' {
      SpanDigits(s[1..]);
      forall i | 0 <= i < DigitSpan(s) ensures '0' <= s[i] <= '9' {
        assert i > 0 ==> s[i] == s[1..][i - 1];
      }
    }
  }

  function IntValue(s: string): int
    requires IsInteger(s)
  {
    IntegerDigits(s);
    if s[0] == '-' then 0 - (NatValue(s[1..]) as int) else NatValue(s)
  }

  function Number(lexeme: NumberLexeme): Json {
    if IsInteger(lexeme) then Int(IntValue(lexeme)) else Float(lexeme)
  }

  /** A number without fraction and exponent is the integer its digits are; any other keeps its text. */
  lemma {:induction false} NumberIs(lexeme: NumberLexeme, n: Grammar.NumberParts)
    requires Grammar.NumberFits(n) && Grammar.NumberText(n) == lexeme
    ensures n.frac.None? && n.exp.None? ==>
              Number(lexeme) == Int(if n.minus then 0 - (NatValue(n.whole) as int) else NatValue(n.whole))
    ensures n.frac.Some? || n.exp.Some? ==> Number(lexeme).Float? && Number(lexeme).lexeme == lexeme
  {
    Grammar.IntSpans(n);
    assert '0' <= n.whole[0] <= '9';
    hide NatValue, IntSpan, NumberSpan, Grammar.ExpMark;
    if n.frac.None? && n.exp.None? {
      assert lexeme == (if n.minus then "-" else "") + n.whole;
      assert if n.minus then lexeme[1..] == n.whole else lexeme == n.whole;
    } else {
      assert |Grammar.NumberText(n)| == (if n.minus then 1 else 0) + |n.whole|
                                        + |Grammar.FracText(n)| + |Grammar.ExpText(n)|;
      assert |Grammar.FracText(n)| + |Grammar.ExpText(n)| > 0;
    }
  }

  /** Builds the value bottom up, applying the object hook to the pairs of every object. */
  function Load(mode: Mode, t: Tree): Option<Json>
    decreases t
  {
    match t
    case TNull => Some(Null)
    case TBool(b) => Some(Bool(b))
    case TNum(lexeme) => Some(Number(lexeme))
    case TStr(s) => Some(Str(s))
    case TArr(items) =>
      (match LoadItems(mode, items)
       case None => None
       case Some(vs) => Some(Arr(vs)))
    case TObj(members) =>
      (match LoadMembers(mode, members)
       case None => None
       case Some(pairs) => if mode == Strict && !Distinct(pairs) then None else Some(Obj(DictOf(pairs))))
  }

  function LoadItems(mode: Mode, items: seq<Tree>): (r: Option<seq<Json>>)
    decreases items
  {
    if items == [] then Some([])
    else
      match (Load(mode, items[0]), LoadItems(mode, items[1..]))
      case (Some(v), Some(vs)) => Some([v] + vs)
      case _ => None
  }

  function LoadMembers(mode: Mode, members: seq<Member>): (r: Option<Pairs>)
    ensures r.Some? ==> |r.value| == |members| && forall i :: 0 <= i < |members| ==> r.value[i].0 == members[i].name
    decreases members
  {
    if members == [] then Some([])
    else
      match (Load(mode, members[0].value), LoadMembers(mode, members[1..]))
      case (Some(v), Some(ps)) => Some([(members[0].name, v)] + ps)
      case _ => None
  }

  // ---------- strict loading refines last-wins loading ----------

  predicate DistinctNames(members: seq<Member>) {
    forall i, j :: 0 <= i < j < |members| ==> members[i].name != members[j].name
  }

  /** No object at any depth repeats a name. */
  predicate NoRepeats(t: Tree)
    decreases t
  {
    match t
    case TArr(items) => NoRepeatsItems(items)
    case TObj(members) => DistinctNames(members) && NoRepeatsMembers(members)
    case _ => true
  }

  predicate NoRepeatsItems(items: seq<Tree>)
    decreases items
  {
    items == [] || (NoRepeats(items[0]) && NoRepeatsItems(items[1..]))
  }

  predicate NoRepeatsMembers(members: seq<Member>)
    decreases members
  {
    members == [] || (NoRepeats(members[0].value) && NoRepeatsMembers(members[1..]))
  }

  lemma {:induction false} StrictRefines(t: Tree)
    ensures Load(LastWins, t).Some?
    ensures Load(Strict, t) == if NoRepeats(t) then Load(LastWins, t) else None
    decreases t
  {
    match t
    case TArr(items) => StrictRefinesItems(items);
    case TObj(members) => StrictRefinesMembers(members);
    case _ =>
  }

  lemma {:induction false} StrictRefinesItems(items: seq<Tree>)
    ensures LoadItems(LastWins, items).Some?
    ensures LoadItems(Strict, items) == if NoRepeatsItems(items) then LoadItems(LastWins, items) else None
    decreases items
  {
    if items != [] {
      StrictRefines(items[0]);
      StrictRefinesItems(items[1..]);
    }
  }

  lemma {:induction false} StrictRefinesMembers(members: seq<Member>)
    ensures LoadMembers(LastWins, members).Some?
    ensures LoadMembers(Strict, members) == if NoRepeatsMembers(members) then LoadMembers(LastWins, members) else None
    decreases members
  {
    if members != [] {
      StrictRefines(members[0].value);
      StrictRefinesMembers(members[1..]);
    }
  }

  /** `json.loads`, with or without the hook; `None` stands for a ValueError. */
  function LoadText(mode: Mode, s: string): Option<Json> {
    match ParseText(s)
    case None => None
    case Some(t) => Load(mode, t)
  }

  /**
    The strict reader accepts a text exactly when the last-wins reader does and no object in
    it, at any depth, repeats a name; and then both return the same value.
   */
  lemma StrictRefinesLastWins(s: string)
    ensures LoadText(Strict, s).Some? <==>
            LoadText(LastWins, s).Some? && NoRepeats(ParseText(s).value)
    ensures LoadText(Strict, s).Some? ==> LoadText(Strict, s) == LoadText(LastWins, s)
  {
    if ParseText(s).Some? {
      StrictRefines(ParseText(s).value);
    }
  }

  // ---------- canonical form ----------

  /** The value with the members of every object listed in key order (`sort_keys=True`). */
  function Ordered(o: KeyOrder, v: Json): Tree
    decreases v, 1, 0
  {
    match v
    case Null => TNull
    case Bool(b) => TBool(b)
    case Int(n) => IntTextIsInteger(n); TNum(IntText(n))
    case Float(lexeme) => TNum(lexeme)
    case Str(s) => TStr(s)
    case Arr(items) => TArr(OrderedItems(o, items))
    case Obj(m) => TObj(OrderedMembers(o, v, SortedKeys(o, m.Keys)))
  }

  function OrderedItems(o: KeyOrder, items: seq<Json>): (r: seq<Tree>)
    ensures |r| == |items|
    decreases items, 1, 0
  {
    if items == [] then [] else [Ordered(o, items[0])] + OrderedItems(o, items[1..])
  }

  function OrderedMembers(o: KeyOrder, v: Json, keys: seq<string>): (r: seq<Member>)
    requires v.Obj? && forall k :: k in keys ==> k in v.m
    ensures |r| == |keys| && forall i :: 0 <= i < |r| ==> r[i].name == keys[i]
    decreases v, 0, |keys|
  {
    if keys == [] then []
    else [Member(keys[0], Ordered(o, v.m[keys[0]]))] + OrderedMembers(o, v, keys[1..])
  }

  /** Members of a dictionary in the order of a listing of its keys. */
  function Listed(m: Dict, keys: seq<string>): (r: Pairs)
    requires forall k :: k in keys ==> k in m
    ensures |r| == |keys| && forall i :: 0 <= i < |r| ==> r[i] == (keys[i], m[keys[i]])
  {
    if keys == [] then [] else [(keys[0], m[keys[0]])] + Listed(m, keys[1..])
  }

  lemma ListedDistinct(o: KeyOrder, m: Dict)
    ensures Distinct(Listed(m, SortedKeys(o, m.Keys)))
  {
    var keys := SortedKeys(o, m.Keys);
    forall i, j | 0 <= i < j < |keys| ensures keys[i] != keys[j] {
      BeforeAsymmetric(o, keys[i], keys[j]);
    }
  }

  lemma ListedRestores(m: Dict, keys: seq<string>)
    requires forall k :: k in keys <==> k in m
    requires Distinct(Listed(m, keys))
    ensures DictOf(Listed(m, keys)) == m
  {
    hide DictOf, Listed, Distinct;
    var p := Listed(m, keys);
    var d := DictOf(p);
    DictOfKeys(p);
    DictOfDistinct(p);
    forall k ensures k in d <==> k in m {
      if k in m {
        var i :| 0 <= i < |keys| && keys[i] == k;
        assert p[i].0 == k;
      }
    }
    forall k | k in m ensures d[k] == m[k] {
      var i :| 0 <= i < |keys| && keys[i] == k;
      assert p[i] == (k, m[k]);
    }
  }

  lemma {:induction false} NumberOfIntText(n: int)
    ensures IsNumber(IntText(n)) && Number(IntText(n)) == Int(n)
  {
    IntTextIsInteger(n);
    var s := IntText(n);
    NatTextValue(if n < 0 then -n else n);
    if n < 0 {
      assert s[1..] == NatText(-n);
    }
  }

  /** Listing the members in some order and loading them again changes nothing. */
  lemma {:induction false} LoadOrdered(mode: Mode, o: KeyOrder, v: Json)
    ensures Load(mode, Ordered(o, v)) == Some(v)
    decreases v, 1, 0
  {
    hide SortedKeys, LoadItems, LoadMembers, OrderedItems, OrderedMembers, DictOf, Distinct, Listed;
    match v
    case Int(n) => NumberOfIntText(n);
    case Arr(items) => LoadOrderedItems(mode, o, items);
    case Obj(m) =>
      var keys := SortedKeys(o, m.Keys);
      LoadOrderedMembers(mode, o, v, keys);
      ListedDistinct(o, m);
      ListedRestores(m, keys);
      LoadsObject(mode, OrderedMembers(o, v, keys), Listed(m, keys), m);
    case _ =>
  }

  lemma LoadsObject(mode: Mode, members: seq<Member>, pairs: Pairs, m: Dict)
    requires LoadMembers(mode, members) == Some(pairs) && Distinct(pairs) && DictOf(pairs) == m
    ensures Load(mode, TObj(members)) == Some(Obj(m))
  {
  }

  lemma {:induction false} LoadOrderedItems(mode: Mode, o: KeyOrder, items: seq<Json>)
    ensures LoadItems(mode, OrderedItems(o, items)) == Some(items)
    decreases items, 1, 0
  {
    if items != [] {
      LoadOrdered(mode, o, items[0]);
      LoadOrderedItems(mode, o, items[1..]);
      var r := OrderedItems(o, items);
      assert r[0] == Ordered(o, items[0]) && r[1..] == OrderedItems(o, items[1..]);
      assert items == [items[0]] + items[1..];
    }
  }

  lemma {:induction false} LoadOrderedMembers(mode: Mode, o: KeyOrder, v: Json, keys: seq<string>)
    requires v.Obj? && forall k :: k in keys ==> k in v.m
    ensures LoadMembers(mode, OrderedMembers(o, v, keys)) == Some(Listed(v.m, keys))
    decreases v, 0, |keys|
  {
    if keys != [] {
      LoadOrdered(mode, o, v.m[keys[0]]);
      LoadOrderedMembers(mode, o, v, keys[1..]);
      var r := OrderedMembers(o, v, keys);
      assert r[0] == Member(keys[0], Ordered(o, v.m[keys[0]])) && r[1..] == OrderedMembers(o, v, keys[1..]);
    }
  }

  /** `json.dumps(v, sort_keys=True, ...)`: canonical text, or the two-space file layout. */
  function Write(st: Style, v: Json): string {
    Print(st, 0, Ordered(ByCodePoint, v))
  }

  function CanonicalBytes(v: Json): seq<Utf8.Byte> {
    Utf8.Encode(Write(Compact, v))
  }

  /** The text of a receipt file: indented, ASCII only, with a final newline. */
  function FileText(v: Json): string {
    Write(Indented, v) + [10 as char]
  }

  /** A receipt file is ASCII, whatever the receipt contains, and ends with a line feed. */
  lemma FileIsAscii(v: Json)
    ensures Grammar.Ascii(FileText(v)) && FileText(v)[|FileText(v)| - 1] == '\n'
  {
    Grammar.PrintIsAscii(0, Ordered(ByCodePoint, v));
    hide Print;
  }

  /** Parser and printer round trip, for every value, both layouts and both modes. */
  lemma WrittenReadsBack(mode: Mode, st: Style, v: Json)
    ensures LoadText(mode, Write(st, v)) == Some(v)
    ensures LoadText(mode, Write(st, v) + [10 as char]) == Some(v)
  {
    var t := Ordered(ByCodePoint, v);
    TextRoundTrip(st, t, "");
    assert Print(st, 0, t) + "" == Print(st, 0, t);
    TextRoundTrip(st, t, [10 as char]);
    LoadOrdered(mode, ByCodePoint, v);
  }

  /** Distinct values have distinct canonical bytes. */
  lemma CanonicalInjective(v: Json, w: Json)
    requires CanonicalBytes(v) == CanonicalBytes(w)
    ensures v == w
  {
    Utf8.EncodeInjective(Write(Compact, v), Write(Compact, w));
    WrittenReadsBack(Strict, Compact, v);
    WrittenReadsBack(Strict, Compact, w);
  }

  /** A dictionary is determined by the pairs it was made of. */
  lemma {:induction false} SamePairsSameDict(p: Pairs, q: Pairs)
    requires Distinct(p) && Distinct(q)
    requires forall x :: x in p <==> x in q
    ensures DictOf(p) == DictOf(q)
  {
    hide DictOf;
    DictOfKeys(p);
    DictOfKeys(q);
    DictOfDistinct(p);
    DictOfDistinct(q);
    forall k ensures k in DictOf(p) <==> k in DictOf(q) {
      if i :| 0 <= i < |p| && p[i].0 == k { assert p[i] in q; }
      if i :| 0 <= i < |q| && q[i].0 == k { assert q[i] in p; }
    }
    forall k | k in DictOf(p) ensures DictOf(p)[k] == DictOf(q)[k] {
      var i :| 0 <= i < |p| && p[i].0 == k;
      assert p[i] in q;
    }
  }

  /** The canonical form does not depend on the order in which members were inserted. */
  lemma {:induction false} InsertionOrderIrrelevant(p: Pairs, q: Pairs)
    requires Distinct(p) && Distinct(q)
    requires forall x :: x in p <==> x in q
    ensures CanonicalBytes(Obj(DictOf(p))) == CanonicalBytes(Obj(DictOf(q)))
  {
    hide DictOf, CanonicalBytes;
    SamePairsSameDict(p, q);
  }
}
