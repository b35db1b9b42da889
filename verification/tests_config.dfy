/** The `tests` section of the manifest: one test dependency
    (`TestsDependencyConfig`), a duplicate-free collection of them
    (`TestsDependenciesConfig`) and `TestsConfig`. `DEFAULT_USE_CASE` lives
    in a constants module that is not part of this model and is passed in as
    `defaultUseCase`. */
module TestsManifest {
  import opened Outcomes
  import opened Paths
  import opened Collections
  import opened JsonTypes

  /** One entry of a dependency list as decoded: `use_case` may be missing. */
  datatype RawDependency = RawDependency(url: string, ref: string, useCase: Option<string>)

  /** A constructed `TestsDependencyConfig`. */
  datatype Dependency = Dependency(url: string, ref: string, useCase: string)

  /** `DuplicateDependencyError(dependency)`. */
  datatype DuplicateDependencyError = DuplicateDependencyError(dependency: Dependency)

  /** `TestsDependencyConfig(url, ref, use_case)`: `use_case or
      DEFAULT_USE_CASE`, so a missing or empty use case takes the default. */
  function NewDependency(raw: RawDependency, defaultUseCase: string): (d: Dependency)
    ensures d.url == raw.url && d.ref == raw.ref
    ensures raw.useCase.Some? && raw.useCase.value != "" ==> d.useCase == raw.useCase.value
    ensures raw.useCase.None? || raw.useCase == Some("") ==> d.useCase == defaultUseCase
  {
    var useCase := if raw.useCase.Some? && raw.useCase.value != "" then raw.useCase.value else defaultUseCase;
    Dependency(raw.url, raw.ref, useCase)
  }

  /** The `dir` property: `url-ref-use_case`. */
  function Dir(d: Dependency): string
  {
    d.url + "-" + d.ref + "-" + d.useCase
  }

  /** The right operand of `==`: another dependency or any other object. */
  datatype Operand = Config(d: Dependency) | Foreign

  /** `__eq__` as written: false against any other kind of object, otherwise
      a comparison of the two `dir` strings. */
  function Equals(d: Dependency, other: Operand): bool
  {
    match other
    case Foreign => false
    case Config(e) => Dir(d) == Dir(e)
  }

  /** The tuple `__hash__` hashes: equal keys give equal hashes. */
  function HashKey(d: Dependency): (string, string, string)
  {
    (d.url, d.ref, d.useCase)
  }

  /** `__eq__` made consistent with `__hash__`: field-wise equality. */
  function EqualsCorrected(d: Dependency, other: Operand): bool
  {
    match other
    case Foreign => false
    case Config(e) => HashKey(d) == HashKey(e)
  }

  /** The `dir` string of the test data is "url-ref-use_case". */
  lemma DirExample()
    ensures Dir(Dependency("url", "ref", "use_case")) == "url-ref-use_case"
  {
  }

  /** Dependencies with the same three fields are equal, have the same hash,
      and that hash is the hash of the field triple. */
  lemma SameFieldsEqualSameHash(a: Dependency, b: Dependency)
    requires a.url == b.url && a.ref == b.ref && a.useCase == b.useCase
    ensures Equals(a, Config(b)) && HashKey(a) == HashKey(b) && HashKey(a) == (b.url, b.ref, b.useCase)
    ensures !Equals(a, Foreign)
  {
  }

  lemma CancelAround(p: string, x: string, y: string, s: string)
    requires p + x + s == p + y + s
    ensures x == y
  {
    assert |x| == |y|;
    forall i | 0 <= i < |x| ensures x[i] == y[i] {
      assert (p + x + s)[|p| + i] == x[i];
      assert (p + y + s)[|p| + i] == y[i];
    }
  }

  /** Changing exactly one of the three fields breaks equality. */
  lemma ChangingOneFieldBreaksEquality(a: Dependency, b: Dependency)
    requires (a.url != b.url && a.ref == b.ref && a.useCase == b.useCase)
          || (a.url == b.url && a.ref != b.ref && a.useCase == b.useCase)
          || (a.url == b.url && a.ref == b.ref && a.useCase != b.useCase)
    ensures !Equals(a, Config(b))
  {
    if Dir(a) == Dir(b) {
      assert Dir(a) == "" + a.url + ("-" + a.ref + "-" + a.useCase)
                    == (a.url + "-") + a.ref + ("-" + a.useCase);
      assert Dir(b) == "" + b.url + ("-" + b.ref + "-" + b.useCase)
                    == (b.url + "-") + b.ref + ("-" + b.useCase);
      if a.url != b.url {
        CancelAround("", a.url, b.url, "-" + a.ref + "-" + a.useCase);
      } else if a.ref != b.ref {
        CancelAround(a.url + "-", a.ref, b.ref, "-" + a.useCase);
      } else {
        CancelAround(a.url + "-" + a.ref + "-", a.useCase, b.useCase, "");
      }
    }
  }

  /** `__eq__` and `__hash__` disagree: two dependencies with the same `dir`
      are equal yet hash different triples. */
  lemma EqualButDifferentHashKey()
    ensures var a, b := Dependency("a-b", "c", "d"), Dependency("a", "b-c", "d");
      Equals(a, Config(b)) && HashKey(a) != HashKey(b)
  {
    assert Dir(Dependency("a-b", "c", "d")) == "a-b-c-d";
    assert Dir(Dependency("a", "b-c", "d")) == "a-b-c-d";
  }

  /** The corrected equality keeps equal objects' hashes equal, implies the
      written `__eq__`, and is what a Python set lookup (hash first, then
      `__eq__`) actually decides. */
  lemma CorrectedEqualsAgreesWithHash(a: Dependency, b: Dependency)
    ensures EqualsCorrected(a, Config(b)) ==> HashKey(a) == HashKey(b) && Equals(a, Config(b))
    ensures HashKey(a) == HashKey(b) && Equals(a, Config(b)) <==> EqualsCorrected(a, Config(b))
    ensures EqualsCorrected(a, Config(b)) <==> a == b
  {
  }

  /** A Python set lookup finds `d` exactly when some member has the same
      hash and compares equal: for these objects, when `d` is a member. */
  lemma SetMembershipIsFieldEquality(d: Dependency, members: seq<Dependency>)
    ensures (exists e :: e in members && HashKey(e) == HashKey(d) && Equals(e, Config(d))) <==> d in members
  {
    if d in members {
      assert HashKey(d) == HashKey(d) && Equals(d, Config(d));
    }
  }

  /** A constructed `TestsDependenciesConfig`: its `JsonSet`, the members in
      insertion order. */
  datatype DependenciesConfig = DependenciesConfig(dependencies: seq<Dependency>)

  /** One dependency per raw entry, in order. */
  function NewDependencies(raws: seq<RawDependency>, defaultUseCase: string): (made: seq<Dependency>)
    ensures |made| == |raws|
  {
    seq(|raws|, i requires 0 <= i < |raws| => NewDependency(raws[i], defaultUseCase))
  }

  /** What `TestsDependenciesConfig(dependencies)` yields or raises. */
  function BuildDependencies(raws: seq<RawDependency>, defaultUseCase: string)
    : Result<DependenciesConfig, DuplicateDependencyError>
  {
    var made := NewDependencies(raws, defaultUseCase);
    if Distinct(made) then Success(DependenciesConfig(made))
    else Failure(DuplicateDependencyError(made[FirstRepeat(made)]))
  }

  /** `TestsDependenciesConfig(dependencies)`: each raw entry becomes a
      dependency; one already in the set raises DuplicateDependencyError at
      once, and the entries after it are never looked at. */
  method NewDependenciesConfig(raws: seq<RawDependency>, defaultUseCase: string)
    returns (r: Result<DependenciesConfig, DuplicateDependencyError>)
    ensures r == BuildDependencies(raws, defaultUseCase)
  {
    ghost var made := NewDependencies(raws, defaultUseCase);
    var members: seq<Dependency> := [];
    var i := 0;
    while i < |raws|
      invariant i <= |raws|
      invariant members == made[..i]
      invariant Distinct(members)
    {
      var dependency := NewDependency(raws[i], defaultUseCase);
      if dependency in members {
        FirstRepeatUnique(made, i);
        return Failure(DuplicateDependencyError(dependency));
      }
      members := members + [dependency];
      i := i + 1;
    }
    assert members == made;
    return Success(DependenciesConfig(members));
  }

  /** Construction succeeds exactly when no two entries give the same
      dependency; then the set has one member per entry (its cardinality is
      the number of entries), and otherwise the error names the first entry
      that repeats an earlier one. */
  lemma BuildDependenciesSpec(raws: seq<RawDependency>, defaultUseCase: string)
    ensures var r := BuildDependencies(raws, defaultUseCase);
      var made := NewDependencies(raws, defaultUseCase);
      && (r.Success? <==> forall i, j :: 0 <= i < j < |raws| ==>
                            NewDependency(raws[i], defaultUseCase) != NewDependency(raws[j], defaultUseCase))
      && (r.Success? ==> r.value.dependencies == made && |set d | d in r.value.dependencies| == |raws|)
      && (r.Failure? ==> exists k :: 0 <= k < |raws| && r.error == DuplicateDependencyError(made[k])
                                    && made[k] in made[..k] && Distinct(made[..k]))
  {
    var made := NewDependencies(raws, defaultUseCase);
    assert forall i :: 0 <= i < |raws| ==> made[i] == NewDependency(raws[i], defaultUseCase);
    if Distinct(made) {
      DistinctCardinality(made);
    } else {
      var k := FirstRepeat(made);
      assert 0 <= k < |raws| && made[k] in made[..k] && Distinct(made[..k]);
    }
  }

  /** The test data's list of one entry given twice raises on the second. */
  lemma RepeatedEntryRaises(raw: RawDependency, defaultUseCase: string)
    ensures BuildDependencies([raw, raw], defaultUseCase)
         == Failure(DuplicateDependencyError(NewDependency(raw, defaultUseCase)))
  {
    var made := NewDependencies([raw, raw], defaultUseCase);
    assert made[0] == made[1] && made[..1] == [made[0]];
    FirstRepeatUnique(made, 1);
  }

  /** A `TestsDependencyConfig` as the serialisation layer sees it. */
  function DependencyValue(d: Dependency): PyValue
  {
    Instance(map["url" := PyStr(d.url), "ref" := PyStr(d.ref), "use_case" := PyStr(d.useCase)])
  }

  /** A `TestsDependenciesConfig`: its `json` is that of its `JsonSet`. */
  function DependenciesValue(c: DependenciesConfig): PyValue
  {
    JsonSet(seq(|c.dependencies|, i requires 0 <= i < |c.dependencies| => DependencyValue(c.dependencies[i])))
  }

  /** The JSON object of a raw entry once its use case is defaulted. */
  function RawJson(raw: RawDependency, defaultUseCase: string): Json
  {
    var useCase := if raw.useCase.Some? && raw.useCase.value != "" then raw.useCase.value else defaultUseCase;
    JObject(map["url" := JString(raw.url), "ref" := JString(raw.ref), "use_case" := JString(useCase)])
  }

  /** `TestsDependenciesConfig.json` is a list holding, as a multiset, the
      input entries as `{url, ref, use_case}` objects (each use case
      defaulted, so an entry that gave a use case comes back unchanged). */
  lemma DependenciesJsonMatchesInput(raws: seq<RawDependency>, defaultUseCase: string)
    requires BuildDependencies(raws, defaultUseCase).Success?
    ensures var j := Render(DependenciesValue(BuildDependencies(raws, defaultUseCase).value));
      && j.JArray? && |j.items| == |raws|
      && multiset(j.items) == multiset(seq(|raws|, i requires 0 <= i < |raws| => RawJson(raws[i], defaultUseCase)))
  {
    var c := BuildDependencies(raws, defaultUseCase).value;
    var j := Render(DependenciesValue(c));
    var expected := seq(|raws|, i requires 0 <= i < |raws| => RawJson(raws[i], defaultUseCase));
    forall i | 0 <= i < |raws| ensures j.items[i] == expected[i] {
      var d := NewDependency(raws[i], defaultUseCase);
      assert c.dependencies[i] == d;
      assert Render(DependencyValue(d)).fields == map["url" := JString(d.url), "ref" := JString(d.ref), "use_case" := JString(d.useCase)];
    }
    assert j.items == expected;
  }

  /** A constructed `TestsConfig`. */
  datatype TestsConfig = TestsConfig(
    unitDirectory: Option<Path>,
    pytestDirectory: Option<Path>,
    dependencies: Option<map<string, DependenciesConfig>>)

  /** `None if arg is None else Path(arg)`. */
  function OptionalPath(arg: Option<string>): (p: Option<Path>)
    ensures p.None? <==> arg.None?
    ensures arg.Some? ==> p == Some(ToPath(arg.value))
  {
    match arg
    case None => None
    case Some(s) => Some(ToPath(s))
  }

  /** Filling a dict key by key with what `build` yields for each entry's
      value: the first entry whose value fails decides the error. */
  function FillMap<R, V, E>(entries: seq<(string, R)>, build: R -> Result<V, E>): Result<map<string, V>, E>
  {
    if entries == [] then Success(map[])
    else
      var earlier := FillMap(entries[..|entries| - 1], build);
      var (key, value) := entries[|entries| - 1];
      if earlier.Failure? then earlier
      else match build(value)
        case Failure(e) => Failure(e)
        case Success(c) => Success(earlier.value[key := c])
  }

  /** Validating one test kind's list of dependencies. */
  function Builder(defaultUseCase: string): seq<RawDependency> -> Result<DependenciesConfig, DuplicateDependencyError>
  {
    raws => BuildDependencies(raws, defaultUseCase)
  }

  /** What filling the dependencies `JsonDict` yields or raises. */
  function BuildDependencyMap(entries: seq<(string, seq<RawDependency>)>, defaultUseCase: string)
    : Result<map<string, DependenciesConfig>, DuplicateDependencyError>
  {
    FillMap(entries, Builder(defaultUseCase))
  }

  /** `TestsConfig(unit_directory, pytest_directory, dependencies)`. */
  method NewTestsConfig(
    unitDirectory: Option<string>,
    pytestDirectory: Option<string>,
    dependencies: Option<seq<(string, seq<RawDependency>)>>,
    defaultUseCase: string)
    returns (r: Result<TestsConfig, DuplicateDependencyError>)
    ensures dependencies.None? ==> r.Success? && r.value.dependencies.None?
    ensures dependencies.Some? ==>
      match BuildDependencyMap(dependencies.value, defaultUseCase)
      case Failure(e) => r == Failure(e)
      case Success(m) => r.Success? && r.value.dependencies == Some(m)
    ensures r.Success? ==> (r.value.unitDirectory == OptionalPath(unitDirectory)
                            && r.value.pytestDirectory == OptionalPath(pytestDirectory))
  {
    var unit := OptionalPath(unitDirectory);
    var pytest := OptionalPath(pytestDirectory);
    if dependencies.None? {
      return Success(TestsConfig(unit, pytest, None));
    }
    var entries := dependencies.value;
    var built: map<string, DependenciesConfig> := map[];
    var i := 0;
    while i < |entries|
      invariant i <= |entries|
      invariant BuildDependencyMap(entries[..i], defaultUseCase) == Success(built)
    {
      var (key, value) := entries[i];
      var parsed := NewDependenciesConfig(value, defaultUseCase);
      assert entries[..i + 1][..i] == entries[..i];
      if parsed.Failure? {
        FailureSticks(entries, i + 1, Builder(defaultUseCase));
        return Failure(parsed.error);
      }
      built := built[key := parsed.value];
      i := i + 1;
    }
    assert entries[..i] == entries;
    return Success(TestsConfig(unit, pytest, Some(built)));
  }

  /** Once a prefix fails, every longer prefix fails with the same error. */
  lemma {:induction false} FailureSticks<R, V, E>(entries: seq<(string, R)>, n: nat, build: R -> Result<V, E>)
    requires n <= |entries| && FillMap(entries[..n], build).Failure?
    ensures FillMap(entries, build) == FillMap(entries[..n], build)
    decreases |entries| - n
  {
    if n < |entries| {
      assert entries[..n + 1][..n] == entries[..n];
      FailureSticks(entries, n + 1, build);
    } else {
      assert entries[..n] == entries;
    }
  }

  function KeysOf<R>(entries: seq<(string, R)>): set<string>
  {
    set i | 0 <= i < |entries| :: entries[i].0
  }

  lemma KeysOfSnoc<R>(entries: seq<(string, R)>)
    requires entries != []
    ensures KeysOf(entries) == KeysOf(entries[..|entries| - 1]) + {entries[|entries| - 1].0}
  {
    var n := |entries| - 1;
    forall k | k in KeysOf(entries) ensures k in KeysOf(entries[..n]) + {entries[n].0} {
      var i :| 0 <= i < |entries| && entries[i].0 == k;
      if i < n { assert entries[..n][i].0 == k; }
    }
    forall k | k in KeysOf(entries[..n]) ensures k in KeysOf(entries) {
      var i :| 0 <= i < n && entries[..n][i].0 == k;
      assert entries[i].0 == k;
    }
  }

  lemma {:induction false} FillMapFails<R, V, E>(entries: seq<(string, R)>, build: R -> Result<V, E>)
    ensures FillMap(entries, build).Success? <==> forall i :: 0 <= i < |entries| ==> build(entries[i].1).Success?
  {
    if entries != [] {
      var n := |entries| - 1;
      var earlier := entries[..n];
      FillMapFails(earlier, build);
      assert forall i :: 0 <= i < n ==> earlier[i] == entries[i];
    }
  }

  lemma {:induction false} FillMapKeys<R, V, E>(entries: seq<(string, R)>, build: R -> Result<V, E>)
    requires FillMap(entries, build).Success?
    ensures FillMap(entries, build).value.Keys == KeysOf(entries)
  {
    if entries != [] {
      var n := |entries| - 1;
      FillMapKeys(entries[..n], build);
      KeysOfSnoc(entries);
    }
  }

  lemma {:induction false} FillMapAt<R, V, E>(entries: seq<(string, R)>, build: R -> Result<V, E>, i: nat)
    requires DistinctKeys(entries) && i < |entries|
    requires FillMap(entries, build).Success?
    ensures entries[i].0 in FillMap(entries, build).value
    ensures build(entries[i].1) == Success(FillMap(entries, build).value[entries[i].0])
  {
    var n := |entries| - 1;
    var earlier := entries[..n];
    assert FillMap(earlier, build).Success?;
    if i < n {
      assert earlier[i] == entries[i];
      assert entries[i].0 != entries[n].0;
      assert DistinctKeys(earlier) by {
        forall p, q | 0 <= p < q < |earlier| ensures earlier[p].0 != earlier[q].0 {
          assert earlier[p] == entries[p] && earlier[q] == entries[q];
        }
      }
      FillMapAt(earlier, build, i);
    }
  }

  /** Filling the dependency map fails exactly when the list of some test
      kind holds a duplicate. */
  lemma BuildDependencyMapFails(entries: seq<(string, seq<RawDependency>)>, defaultUseCase: string)
    ensures BuildDependencyMap(entries, defaultUseCase).Success?
        <==> forall i :: 0 <= i < |entries| ==> BuildDependencies(entries[i].1, defaultUseCase).Success?
  {
    FillMapFails(entries, Builder(defaultUseCase));
  }

  /** On success the dependency map has exactly the input's keys, each
      mapped to the collection built from that key's list. */
  lemma BuildDependencyMapContents(entries: seq<(string, seq<RawDependency>)>, defaultUseCase: string)
    requires DistinctKeys(entries)
    requires BuildDependencyMap(entries, defaultUseCase).Success?
    ensures var m := BuildDependencyMap(entries, defaultUseCase).value;
      && m.Keys == KeysOf(entries)
      && forall i :: 0 <= i < |entries| ==> BuildDependencies(entries[i].1, defaultUseCase) == Success(m[entries[i].0])
  {
    FillMapKeys(entries, Builder(defaultUseCase));
    forall i | 0 <= i < |entries|
      ensures BuildDependencies(entries[i].1, defaultUseCase)
           == Success(BuildDependencyMap(entries, defaultUseCase).value[entries[i].0])
    {
      FillMapAt(entries, Builder(defaultUseCase), i);
    }
  }

  /** A `TestsConfig` as the serialisation layer sees it. */
  function TestsConfigValue(t: TestsConfig): PyValue
  {
    Instance(map[
      "unit_directory" := OptionalPathValue(t.unitDirectory),
      "pytest_directory" := OptionalPathValue(t.pytestDirectory),
      "dependencies" := match t.dependencies
                        case None => PyNone
                        case Some(m) => JsonDict(map k | k in m :: DependenciesValue(m[k]))])
  }

  function OptionalPathValue(p: Option<Path>): PyValue
  {
    match p
    case None => PyNone
    case Some(path) => PyPath(path)
  }

  /** `TestsConfig.json`: the three attribute names as keys; a directory
      gives its path text or "None"; the dependencies give "None" or an
      object with the same test kinds, each the list of its collection. */
  lemma TestsConfigJson(t: TestsConfig)
    ensures var j := Render(TestsConfigValue(t));
      && j.JObject? && j.fields.Keys == {"unit_directory", "pytest_directory", "dependencies"}
      && j.fields["unit_directory"] == JString(if t.unitDirectory.None? then "None" else PathStr(t.unitDirectory.value))
      && j.fields["pytest_directory"] == JString(if t.pytestDirectory.None? then "None" else PathStr(t.pytestDirectory.value))
      && (t.dependencies.None? ==> j.fields["dependencies"] == JString("None"))
      && (t.dependencies.Some? ==>
            j.fields["dependencies"].JObject? && j.fields["dependencies"].fields.Keys == t.dependencies.value.Keys
            && forall k :: k in t.dependencies.value ==>
                 j.fields["dependencies"].fields[k] == Render(DependenciesValue(t.dependencies.value[k])))
  {
  }
}
