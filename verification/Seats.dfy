/** Seat resolution: `--seat <fragment_id>=<kind>` specs to adapters, failing closed. */
module Seats {
  import opened Wrappers
  import opened Receipts
  import opened Producer

  datatype SeatError =
    | MustNameSeats | MalformedSpec | UnknownFragment | DuplicateSpec | UnknownKind | MissingSpec | NotConfigured

  datatype Resolved = Seated(seats: seq<Seat>) | Failed(error: SeatError)

  /** What the environment configures for an adapter: endpoint host and model; `None` if it refuses. */
  type Configuration = (Kind, string) -> Option<(string, string)>

  // ---------- specs ----------

  /** Position of the first `=`, or the length when there is none. */
  function EqualsAt(s: string): (n: nat)
    ensures n <= |s|
    ensures n < |s| ==> s[n] == '='
    ensures forall i :: 0 <= i < n ==> s[i] != '='
  {
    if s == "" || s[0] == '=' then 0
    else
      var n := EqualsAt(s[1..]);
      assert forall i :: 1 <= i < 1 + n ==> s[i] == s[1..][i - 1];
      1 + n
  }

  /** `spec.partition("=")`: what is before and after the first `=`. */
  function Before(spec: string): string {
    spec[..EqualsAt(spec)]
  }

  function After(spec: string): string {
    if EqualsAt(spec) == |spec| then "" else spec[EqualsAt(spec) + 1..]
  }

  function ReadKind(s: string): Option<Kind> {
    if s == "anthropic" then Some(Anthropic) else if s == "openai" then Some(OpenAI) else None
  }

  function SpecOf(fid: string, kind: Kind): string {
    fid + "=" + KindText(kind)
  }

  lemma KindRoundTrip(kind: Kind)
    ensures ReadKind(KindText(kind)) == Some(kind) && KindText(kind) != ""
  {
  }

  lemma SpecSplits(fid: string, kind: Kind)
    requires '=' !in fid
    ensures var s := SpecOf(fid, kind); EqualsAt(s) == |fid| && Before(s) == fid && After(s) == KindText(kind)
  {
    var s := SpecOf(fid, kind);
    var n := EqualsAt(s);
    assert s[|fid|] == '=';
    assert forall i :: 0 <= i < |fid| ==> s[i] == fid[i] && s[i] in fid;
    assert n == |fid|;
    assert s[..|fid|] == fid && s[|fid| + 1..] == KindText(kind);
  }

  /** A spec is its two halves around the sign. */
  lemma SpecJoins(spec: string)
    requires EqualsAt(spec) < |spec| && ReadKind(After(spec)).Some?
    ensures spec == SpecOf(Before(spec), ReadKind(After(spec)).value)
  {
    KindIsRead(After(spec));
    CutAtSign(spec, EqualsAt(spec));
  }

  lemma CutAtSign(s: string, n: nat)
    requires n < |s| && s[n] == '='
    ensures s == s[..n] + "=" + s[n + 1..]
  {
  }

  lemma KindIsRead(s: string)
    requires ReadKind(s).Some?
    ensures KindText(ReadKind(s).value) == s
  {
  }

  /** One spec on its own: well formed, for a declared fragment, of a known kind. */
  function SpecFault(ids: seq<string>, taken: map<string, Kind>, spec: string): Option<SeatError> {
    if EqualsAt(spec) == |spec| || Before(spec) == "" || After(spec) == "" then Some(MalformedSpec)
    else if Before(spec) !in ids then Some(UnknownFragment)
    else if Before(spec) in taken then Some(DuplicateSpec)
    else if ReadKind(After(spec)).None? then Some(UnknownKind)
    else None
  }

  /** Without a sign, or with nothing on one side of it, a spec is malformed; then the first of these decides. */
  lemma FaultIs(ids: seq<string>, taken: map<string, Kind>, fid: string, kind: string)
    requires '=' !in fid
    ensures '=' !in kind ==> SpecFault(ids, taken, kind) == Some(MalformedSpec)
    ensures SpecFault(ids, taken, fid + "=" + kind) ==
            if fid == "" || kind == "" then Some(MalformedSpec)
            else if fid !in ids then Some(UnknownFragment)
            else if fid in taken then Some(DuplicateSpec)
            else if kind != "anthropic" && kind != "openai" then Some(UnknownKind)
            else None
  {
    var s := fid + "=" + kind;
    assert s[|fid|] == '=';
    assert forall i :: 0 <= i < |fid| ==> s[i] == fid[i] && s[i] in fid;
    assert EqualsAt(s) == |fid|;
    assert s[..|fid|] == fid && s[|fid| + 1..] == kind;
  }

  datatype Collected = Taken(kinds: map<string, Kind>) | Faulty(error: SeatError)

  /** The mapping after all specs; the first faulty spec decides. */
  function Collect(ids: seq<string>, specs: seq<string>): Collected {
    if specs == [] then Taken(map[])
    else
      var before := Collect(ids, specs[..|specs| - 1]);
      var spec := specs[|specs| - 1];
      if before.Faulty? then before
      else
        match SpecFault(ids, before.kinds, spec)
        case Some(e) => Faulty(e)
        case None => Taken(before.kinds[Before(spec) := ReadKind(After(spec)).value])
  }

  lemma {:induction false} FaultStays(ids: seq<string>, specs: seq<string>, n: nat)
    requires n <= |specs| && Collect(ids, specs[..n]).Faulty?
    ensures Collect(ids, specs) == Collect(ids, specs[..n])
  {
    if n == |specs| {
      assert specs[..n] == specs;
    } else {
      assert specs[..|specs| - 1][..n] == specs[..n];
      FaultStays(ids, specs[..|specs| - 1], n);
    }
  }

  /** Adapters for every fragment, in order, if the environment configures them all. */
  function Build(config: Configuration, ids: seq<string>, kinds: map<string, Kind>): (r: Resolved)
    requires forall i :: 0 <= i < |ids| ==> ids[i] in kinds
    ensures r.Seated? <==> forall i :: 0 <= i < |ids| ==> config(kinds[ids[i]], ids[i]).Some?
    ensures r.Failed? ==> r.error == NotConfigured
    ensures r.Seated? ==> |r.seats| == |ids| && forall i :: 0 <= i < |ids| ==>
                r.seats[i] == Seat(ids[i], kinds[ids[i]], config(kinds[ids[i]], ids[i]).value.0,
                                   config(kinds[ids[i]], ids[i]).value.1)
  {
    if forall i :: 0 <= i < |ids| ==> config(kinds[ids[i]], ids[i]).Some? then
      Seated(seq(|ids|, i requires 0 <= i < |ids| =>
        var c := config(kinds[ids[i]], ids[i]).value; Seat(ids[i], kinds[ids[i]], c.0, c.1)))
    else Failed(NotConfigured)
  }

  function Resolve(config: Configuration, ids: seq<string>, specs: seq<string>): Resolved
    requires Unique(ids)
  {
    if specs == [] then
      if |ids| == 2 then Build(config, ids, map[ids[0] := Anthropic, ids[1] := OpenAI])
      else Failed(MustNameSeats)
    else
      match Collect(ids, specs)
      case Faulty(e) => Failed(e)
      case Taken(kinds) =>
        if exists i :: 0 <= i < |ids| && ids[i] !in kinds then Failed(MissingSpec)
        else Build(config, ids, kinds)
  }

  lemma NothingCollected(ids: seq<string>)
    ensures Collect(ids, []) == Taken(map[])
  {
  }

  lemma FaultlessHasKind(ids: seq<string>, taken: map<string, Kind>, spec: string)
    requires SpecFault(ids, taken, spec).None?
    ensures ReadKind(After(spec)).Some?
  {
  }

  lemma CollectNext(ids: seq<string>, specs: seq<string>, i: nat, taken: map<string, Kind>)
    requires i < |specs| && Collect(ids, specs[..i]) == Taken(taken)
    ensures var fault := SpecFault(ids, taken, specs[i]);
            if fault.Some? then Collect(ids, specs[..i + 1]) == Faulty(fault.value)
            else
              ReadKind(After(specs[i])).Some? &&
              Collect(ids, specs[..i + 1]) == Taken(taken[Before(specs[i]) := ReadKind(After(specs[i])).value])
  {
    hide SpecFault, ReadKind;
    assert specs[..i + 1][..i] == specs[..i];
    if SpecFault(ids, taken, specs[i]).None? {
      FaultlessHasKind(ids, taken, specs[i]);
    }
  }

  /** `resolve_seats`: the mapping is filled spec by spec, then adapters are built in fragment order. */
  method ResolveSeats(config: Configuration, ids: seq<string>, specs: seq<string>) returns (r: Resolved)
    requires Unique(ids)
    ensures r == Resolve(config, ids, specs)
  {
    hide Collect, SpecFault, Build;
    if specs == [] {
      if |ids| == 2 {
        return Build(config, ids, map[ids[0] := Anthropic, ids[1] := OpenAI]);
      }
      return Failed(MustNameSeats);
    }
    var mapping: map<string, Kind> := map[];
    NothingCollected(ids);
    for i := 0 to |specs|
      invariant Collect(ids, specs[..i]) == Taken(mapping)
    {
      var spec := specs[i];
      assert specs[..i + 1][..i] == specs[..i];
      var fault := SpecFault(ids, mapping, spec);
      CollectNext(ids, specs, i, mapping);
      if fault.Some? {
        FaultStays(ids, specs, i + 1);
        return Failed(fault.value);
      }
      mapping := mapping[Before(spec) := ReadKind(After(spec)).value];
    }
    assert specs[..|specs|] == specs;
    for i := 0 to |ids|
      invariant forall j :: 0 <= j < i ==> ids[j] in mapping
    {
      if ids[i] !in mapping {
        return Failed(MissingSpec);
      }
    }
    r := Build(config, ids, mapping);
  }

  // ---------- exactly which spec lists are accepted ----------

  /** Fragment ids as `load_fragments` leaves them. */
  predicate GoodIds(ids: seq<string>) {
    Unique(ids) && forall i :: 0 <= i < |ids| ==> ids[i] != "" && '=' !in ids[i]
  }

  /** One spec per fragment, in fragment order. */
  function SpecsFor(ids: seq<string>, kinds: map<string, Kind>): (r: seq<string>)
    requires forall i :: 0 <= i < |ids| ==> ids[i] in kinds
    ensures |r| == |ids| && forall i :: 0 <= i < |r| ==> r[i] == SpecOf(ids[i], kinds[ids[i]])
  {
    seq(|ids|, i requires 0 <= i < |ids| => SpecOf(ids[i], kinds[ids[i]]))
  }

  predicate Covers(ids: seq<string>, kinds: map<string, Kind>) {
    forall i :: 0 <= i < |ids| ==> ids[i] in kinds
  }

  predicate KeysAmong(ids: seq<string>, kinds: map<string, Kind>) {
    forall k :: k in kinds ==> k in ids
  }

  /** The specs are, in some order, exactly one spec of the given kinds per fragment. */
  predicate Assigns(ids: seq<string>, specs: seq<string>, kinds: map<string, Kind>) {
    Covers(ids, kinds) && KeysAmong(ids, kinds) && multiset(specs) == multiset(SpecsFor(ids, kinds))
  }

  predicate SpecMatches(kinds: map<string, Kind>, spec: string) {
    Before(spec) in kinds && spec == SpecOf(Before(spec), kinds[Before(spec)])
  }

  /** Each spec agrees with the mapping, no two name one fragment, and all of the mapping is named. */
  predicate Explains(ids: seq<string>, specs: seq<string>, kinds: map<string, Kind>) {
    && KeysAmong(ids, kinds)
    && (forall i :: 0 <= i < |specs| ==> SpecMatches(kinds, specs[i]))
    && (forall i, j :: 0 <= i < j < |specs| ==> Before(specs[i]) != Before(specs[j]))
    && (forall k :: k in kinds ==> exists i :: 0 <= i < |specs| && Before(specs[i]) == k)
  }

  lemma ExplainsNext(ids: seq<string>, specs: seq<string>, kinds: map<string, Kind>, spec: string, kind: Kind)
    requires Explains(ids, specs, kinds) && Before(spec) in ids && Before(spec) !in kinds
    requires spec == SpecOf(Before(spec), kind)
    ensures Explains(ids, specs + [spec], kinds[Before(spec) := kind])
  {
    var all, more := specs + [spec], kinds[Before(spec) := kind];
    forall i | 0 <= i < |all| ensures SpecMatches(more, all[i]) {
      assert i < |specs| ==> SpecMatches(kinds, specs[i]);
    }
    forall i, j | 0 <= i < j < |all| ensures Before(all[i]) != Before(all[j]) {
      assert SpecMatches(kinds, specs[i]);
    }
    forall k | k in more ensures exists i :: 0 <= i < |all| && Before(all[i]) == k {
      if k in kinds {
        var i :| 0 <= i < |specs| && Before(specs[i]) == k;
        assert Before(all[i]) == k;
      } else {
        assert Before(all[|specs|]) == k;
      }
    }
  }

  lemma ExplainsNothing(ids: seq<string>)
    ensures Explains(ids, [], map[])
  {
  }

  lemma CollectStep(ids: seq<string>, specs: seq<string>)
    requires specs != []
    ensures var before := Collect(ids, specs[..|specs| - 1]);
            var spec := specs[|specs| - 1];
            Collect(ids, specs).Taken? <==> before.Taken? && SpecFault(ids, before.kinds, spec).None?
    ensures Collect(ids, specs).Taken? ==>
              var before := Collect(ids, specs[..|specs| - 1]);
              var spec := specs[|specs| - 1];
              EqualsAt(spec) < |spec| && Before(spec) in ids && Before(spec) !in before.kinds &&
              ReadKind(After(spec)).Some? &&
              Collect(ids, specs).kinds == before.kinds[Before(spec) := ReadKind(After(spec)).value]
  {
  }

  lemma FaultlessExplains(ids: seq<string>, init: seq<string>, taken: map<string, Kind>, spec: string,
                          specs: seq<string>, kinds: map<string, Kind>)
    requires Explains(ids, init, taken) && specs == init + [spec]
    requires EqualsAt(spec) < |spec| && Before(spec) in ids && Before(spec) !in taken && ReadKind(After(spec)).Some?
    requires kinds == taken[Before(spec) := ReadKind(After(spec)).value]
    ensures Explains(ids, specs, kinds)
  {
    SpecJoins(spec);
    ExplainsNext(ids, init, taken, spec, ReadKind(After(spec)).value);
  }

  /** What a successful collection knows. */
  lemma {:induction false} CollectedMeans(ids: seq<string>, specs: seq<string>)
    requires Collect(ids, specs).Taken?
    ensures Explains(ids, specs, Collect(ids, specs).kinds)
  {
    hide *;
    if specs == [] {
      NothingCollected(ids);
      ExplainsNothing(ids);
    } else {
      var n := |specs| - 1;
      CollectStep(ids, specs);
      CollectedMeans(ids, specs[..n]);
      FaultlessExplains(ids, specs[..n], Collect(ids, specs[..n]).kinds, specs[n], specs, Collect(ids, specs).kinds);
    }
  }

  lemma NextSpecFaultless(ids: seq<string>, taken: map<string, Kind>, fid: string, kind: Kind)
    requires fid in ids && fid != "" && '=' !in fid && fid !in taken
    ensures SpecFault(ids, taken, SpecOf(fid, kind)) == None
    ensures Before(SpecOf(fid, kind)) == fid && ReadKind(After(SpecOf(fid, kind))) == Some(kind)
  {
    SpecSplits(fid, kind);
    KindRoundTrip(kind);
  }

  /** Conversely, specs that agree with a mapping and name each fragment once are collected. */
  lemma {:induction false} CollectsAll(ids: seq<string>, specs: seq<string>, kinds: map<string, Kind>)
    requires GoodIds(ids) && KeysAmong(ids, kinds)
    requires forall i :: 0 <= i < |specs| ==> SpecMatches(kinds, specs[i])
    requires forall i, j :: 0 <= i < j < |specs| ==> Before(specs[i]) != Before(specs[j])
    ensures Collect(ids, specs).Taken?
    ensures forall k :: k in Collect(ids, specs).kinds ==> k in kinds && Collect(ids, specs).kinds[k] == kinds[k]
  {
    if specs != [] {
      var n := |specs| - 1;
      var init, spec := specs[..n], specs[n];
      assert forall i :: 0 <= i < n ==> init[i] == specs[i];
      CollectsAll(ids, init, kinds);
      var before := Collect(ids, init).kinds;
      assert SpecMatches(kinds, spec);
      var fid := Before(spec);
      IdFacts(ids, fid);
      CollectedMeans(ids, init);
      assert fid !in before;
      NextSpecFaultless(ids, before, fid, kinds[fid]);
      CollectStep(ids, specs);
    }
  }

  lemma IdFacts(ids: seq<string>, fid: string)
    requires GoodIds(ids) && fid in ids
    ensures fid != "" && '=' !in fid
  {
  }

  lemma {:induction false} UniqueCounts<T>(xs: seq<T>, x: T)
    requires Unique(xs)
    ensures multiset(xs)[x] == if x in xs then 1 else 0
  {
    if xs != [] {
      var n := |xs| - 1;
      assert xs == xs[..n] + [xs[n]];
      UniqueCounts(xs[..n], x);
      assert x in xs[..n] ==> x != xs[n];
    }
  }

  lemma SameMembersSameMultiset<T>(xs: seq<T>, ys: seq<T>)
    requires Unique(xs) && Unique(ys) && forall x :: x in xs <==> x in ys
    ensures multiset(xs) == multiset(ys)
  {
    forall x ensures multiset(xs)[x] == multiset(ys)[x] {
      UniqueCounts(xs, x);
      UniqueCounts(ys, x);
    }
  }

  lemma {:induction false} CountOneUnique<T>(xs: seq<T>)
    requires forall x :: multiset(xs)[x] <= 1
    ensures Unique(xs)
  {
    if xs != [] {
      var n := |xs| - 1;
      assert xs == xs[..n] + [xs[n]];
      forall x ensures multiset(xs[..n])[x] <= 1 {
        assert multiset(xs)[x] == multiset(xs[..n])[x] + multiset([xs[n]])[x];
      }
      CountOneUnique(xs[..n]);
      var init := xs[..n];
      forall i | 0 <= i < n ensures init[i] != xs[n] {
        assert multiset(init)[init[i]] >= 1;
        assert multiset(xs)[init[i]] == multiset(init)[init[i]] + multiset([xs[n]])[init[i]];
      }
      forall i, j | 0 <= i < j < |xs| ensures xs[i] != xs[j] {
        assert xs[i] == init[i] && (j < n ==> xs[j] == init[j]);
      }
    }
  }

  lemma SpecsForUnique(ids: seq<string>, kinds: map<string, Kind>)
    requires GoodIds(ids) && Covers(ids, kinds)
    ensures Unique(SpecsFor(ids, kinds))
    ensures forall i :: 0 <= i < |ids| ==> Before(SpecsFor(ids, kinds)[i]) == ids[i]
  {
    forall i | 0 <= i < |ids| ensures Before(SpecsFor(ids, kinds)[i]) == ids[i] {
      SpecSplits(ids[i], kinds[ids[i]]);
    }
  }

  /** A successful collection that covers the fragments is an assignment. */
  lemma CollectedAssigns(ids: seq<string>, specs: seq<string>)
    requires GoodIds(ids) && Collect(ids, specs).Taken? && Covers(ids, Collect(ids, specs).kinds)
    ensures Assigns(ids, specs, Collect(ids, specs).kinds)
  {
    var kinds := Collect(ids, specs).kinds;
    var wanted := SpecsFor(ids, kinds);
    CollectedMeans(ids, specs);
    SpecsForUnique(ids, kinds);
    forall x ensures x in specs <==> x in wanted {
      if x in specs {
        var i :| 0 <= i < |specs| && specs[i] == x;
        assert SpecMatches(kinds, specs[i]);
        var j :| 0 <= j < |ids| && ids[j] == Before(x);
        assert wanted[j] == x;
      }
      if x in wanted {
        var j :| 0 <= j < |wanted| && wanted[j] == x;
        var i :| 0 <= i < |specs| && Before(specs[i]) == ids[j];
        assert SpecMatches(kinds, specs[i]);
        assert specs[i] == x;
      }
    }
    SameMembersSameMultiset(specs, wanted);
  }

  lemma AssignedMatches(ids: seq<string>, specs: seq<string>, kinds: map<string, Kind>)
    requires GoodIds(ids) && Assigns(ids, specs, kinds)
    ensures forall i :: 0 <= i < |specs| ==> SpecMatches(kinds, specs[i])
  {
    var wanted := SpecsFor(ids, kinds);
    SpecsForUnique(ids, kinds);
    forall i | 0 <= i < |specs| ensures SpecMatches(kinds, specs[i]) {
      assert specs[i] in multiset(specs);
      assert specs[i] in multiset(wanted);
      var j :| 0 <= j < |wanted| && wanted[j] == specs[i];
      assert Before(specs[i]) == ids[j];
    }
  }

  lemma AssignedOnce(ids: seq<string>, specs: seq<string>, kinds: map<string, Kind>)
    requires GoodIds(ids) && Assigns(ids, specs, kinds)
    ensures forall i, j :: 0 <= i < j < |specs| ==> Before(specs[i]) != Before(specs[j])
  {
    var wanted := SpecsFor(ids, kinds);
    SpecsForUnique(ids, kinds);
    AssignedMatches(ids, specs, kinds);
    forall x ensures multiset(specs)[x] <= 1 {
      UniqueCounts(wanted, x);
    }
    CountOneUnique(specs);
    forall i, j | 0 <= i < j < |specs| ensures Before(specs[i]) != Before(specs[j]) {
      assert SpecMatches(kinds, specs[i]) && SpecMatches(kinds, specs[j]);
    }
  }

  /** Any assignment is collected, to exactly its kinds. */
  lemma AssignedCollects(ids: seq<string>, specs: seq<string>, kinds: map<string, Kind>)
    requires GoodIds(ids) && Assigns(ids, specs, kinds)
    ensures Collect(ids, specs) == Taken(kinds)
  {
    hide Collect, SpecOf, Before;
    var wanted := SpecsFor(ids, kinds);
    AssignedMatches(ids, specs, kinds);
    AssignedOnce(ids, specs, kinds);
    CollectsAll(ids, specs, kinds);
    CollectedMeans(ids, specs);
    SpecsForUnique(ids, kinds);
    var got := Collect(ids, specs).kinds;
    forall k | k in kinds ensures k in got {
      var j :| 0 <= j < |ids| && ids[j] == k;
      assert wanted[j] in multiset(wanted);
      assert wanted[j] in multiset(specs);
      var i :| 0 <= i < |specs| && specs[i] == wanted[j];
      assert SpecMatches(got, specs[i]);
    }
    assert got == kinds;
  }

  /**
    With adapters that can be built, an explicit list of specs is accepted exactly when it is, in
    some order, one valid spec per fragment; the seats are then in fragment order, of those kinds.
   */
  lemma ResolvesIff(config: Configuration, ids: seq<string>, specs: seq<string>)
    requires GoodIds(ids) && specs != [] && forall k, f :: config(k, f).Some?
    ensures Resolve(config, ids, specs).Seated? <==> exists kinds :: Assigns(ids, specs, kinds)
    ensures forall kinds :: Assigns(ids, specs, kinds) ==>
                Resolve(config, ids, specs).Seated? &&
                |Resolve(config, ids, specs).seats| == |ids| &&
                forall i :: 0 <= i < |ids| ==>
                    Resolve(config, ids, specs).seats[i].fid == ids[i] &&
                    Resolve(config, ids, specs).seats[i].kind == kinds[ids[i]]
  {
    forall kinds | Assigns(ids, specs, kinds) ensures Collect(ids, specs) == Taken(kinds) {
      AssignedCollects(ids, specs, kinds);
    }
    if Resolve(config, ids, specs).Seated? {
      CollectedAssigns(ids, specs);
    }
  }

  /** Without specs, two fragments go to Anthropic and OpenAI in this order; any other number is refused. */
  lemma DefaultSeats(config: Configuration, ids: seq<string>)
    requires Unique(ids)
    ensures |ids| != 2 ==> Resolve(config, ids, []) == Failed(MustNameSeats)
    ensures |ids| == 2 ==>
              var a, b := config(Anthropic, ids[0]), config(OpenAI, ids[1]);
              Resolve(config, ids, []) ==
              if a.Some? && b.Some?
              then Seated([Seat(ids[0], Anthropic, a.value.0, a.value.1), Seat(ids[1], OpenAI, b.value.0, b.value.1)])
              else Failed(NotConfigured)
  {
    if |ids| == 2 {
      var kinds := map[ids[0] := Anthropic, ids[1] := OpenAI];
      assert ids[0] != ids[1];
      assert kinds[ids[0]] == Anthropic && kinds[ids[1]] == OpenAI;
      var r := Build(config, ids, kinds);
      if r.Seated? {
        var a, b := config(Anthropic, ids[0]).value, config(OpenAI, ids[1]).value;
        assert r.seats == [Seat(ids[0], Anthropic, a.0, a.1), Seat(ids[1], OpenAI, b.0, b.1)];
      }
    }
  }

  /** The order of the specs does not matter. */
  lemma SpecOrderIrrelevant(config: Configuration, ids: seq<string>, specs: seq<string>, others: seq<string>)
    requires GoodIds(ids) && multiset(specs) == multiset(others) && Resolve(config, ids, specs).Seated?
    requires specs != []
    ensures Resolve(config, ids, others) == Resolve(config, ids, specs)
  {
    CollectedAssigns(ids, specs);
    var kinds := Collect(ids, specs).kinds;
    assert Assigns(ids, others, kinds);
    AssignedCollects(ids, others, kinds);
    assert |multiset(others)| == |others| && |multiset(specs)| == |specs|;
  }

  /** Whatever was resolved fits the duplicate checks: fragment ids and provider ids are distinct. */
  lemma ResolvedDistinct(config: Configuration, ids: seq<string>, specs: seq<string>)
    requires Unique(ids) && Resolve(config, ids, specs).Seated?
    ensures var seats := Resolve(config, ids, specs).seats;
            && |seats| == |ids|
            && (forall i :: 0 <= i < |ids| ==> seats[i].fid == ids[i])
            && (forall i, j :: 0 <= i < j < |seats| ==> seats[i].Provider() != seats[j].Provider())
  {
    ProvidersDistinct(Resolve(config, ids, specs).seats);
  }
}
