/** `UseCasesConfig`: named use cases, each with a free-form description,
    where one name is reserved for the default use case. */
module UseCases {
  import opened Outcomes
  import opened Collections

  /** The name no manifest may define, `get` answers it with "". */
  const RESERVED: string := "default"

  /** A value of the decoded `use_cases` table. */
  datatype RawValue =
    | Text(s: string)
      /** any value that is not a string, known by its `str()` and the
          `str()` of its `type()` */
    | NonText(text: string, typeText: string)

  /** The exceptions the constructor and `get` raise. */
  datatype UseCaseError =
    | NotAString(key: string, value: RawValue)   // ValueError
    | ReservedName(key: string)                  // ValueError
    | KeyError(name: string)

  /** A constructed `UseCasesConfig`. */
  datatype UseCasesConfig = UseCasesConfig(cases: map<string, string>)

  /** A pair the constructor accepts. */
  predicate Acceptable(pair: (string, RawValue))
  {
    pair.1.Text? && pair.0 != RESERVED
  }

  /** The error the constructor's loop raises on the pairs, if any: the
      value's type is checked before the reserved name, pair by pair. */
  function FirstOffence(pairs: seq<(string, RawValue)>): (e: Option<UseCaseError>)
    ensures e.None? <==> forall i :: 0 <= i < |pairs| ==> Acceptable(pairs[i])
  {
    if pairs == [] then None
    else
      var (key, value) := pairs[0];
      if !value.Text? then Some(NotAString(key, value))
      else if key == RESERVED then Some(ReservedName(key))
      else
        var rest := FirstOffence(pairs[1..]);
        assert forall i :: 1 <= i < |pairs| ==> pairs[i] == pairs[1..][i - 1];
        rest
  }

  /** The descriptions of a checked table, under their names. */
  function Descriptions(pairs: seq<(string, RawValue)>): (cases: map<string, string>)
    requires DistinctKeys(pairs)
    requires forall i :: 0 <= i < |pairs| ==> pairs[i].1.Text?
  {
    map i | 0 <= i < |pairs| :: pairs[i].0 := pairs[i].1.s
  }

  /** `UseCasesConfig(**cases)`. */
  function NewUseCasesConfig(pairs: seq<(string, RawValue)>): (r: Result<UseCasesConfig, UseCaseError>)
    requires DistinctKeys(pairs)
    ensures r.Success? <==> forall i :: 0 <= i < |pairs| ==> pairs[i].1.Text? && pairs[i].0 != RESERVED
    ensures r.Success? ==> r.value.cases.Keys == set i | 0 <= i < |pairs| :: pairs[i].0
    ensures r.Success? ==> forall i :: 0 <= i < |pairs| ==> r.value.cases[pairs[i].0] == pairs[i].1.s
    ensures r.Success? ==> RESERVED !in r.value.cases
  {
    match FirstOffence(pairs)
    case Some(e) => Failure(e)
    case None => Success(UseCasesConfig(Descriptions(pairs)))
  }

  /** Pairs are checked in order and the first offending pair decides the
      error; for that pair a non-string value is reported even when its
      name is also the reserved one. */
  lemma {:induction false} FirstOffendingPairDecides(pairs: seq<(string, RawValue)>, k: nat)
    requires DistinctKeys(pairs)
    requires k < |pairs| && !Acceptable(pairs[k])
    requires forall i :: 0 <= i < k ==> Acceptable(pairs[i])
    ensures NewUseCasesConfig(pairs)
         == Failure(if !pairs[k].1.Text? then NotAString(pairs[k].0, pairs[k].1) else ReservedName(pairs[k].0))
  {
    OffenceAt(pairs, k);
  }

  lemma {:induction false} OffenceAt(pairs: seq<(string, RawValue)>, k: nat)
    requires k < |pairs| && !Acceptable(pairs[k])
    requires forall i :: 0 <= i < k ==> Acceptable(pairs[i])
    ensures FirstOffence(pairs)
         == Some(if !pairs[k].1.Text? then NotAString(pairs[k].0, pairs[k].1) else ReservedName(pairs[k].0))
  {
    if k > 0 {
      assert Acceptable(pairs[0]);
      OffenceAt(pairs[1..], k - 1);
    }
  }

  /** `get(name)` as written: the lookup's value is never returned, so a
      known name gives None. */
  function Get(c: UseCasesConfig, name: string): Result<Option<string>, UseCaseError>
  {
    if name == RESERVED then Success(Some(""))
    else if name in c.cases then Success(None)
    else Failure(KeyError(name))
  }

  /** `get(name)` as evidently intended: the description of a known name. */
  function GetIntended(c: UseCasesConfig, name: string): Result<string, UseCaseError>
  {
    if name == RESERVED then Success("")
    else if name in c.cases then Success(c.cases[name])
    else Failure(KeyError(name))
  }

  /** On a constructed config, `get` answers the reserved name with "" (the
      name can never be defined), raises KeyError for every other unknown
      name, and for a known name returns None where the intended lookup
      returns its description; on the other names the two agree. */
  lemma GetOutcomes(pairs: seq<(string, RawValue)>, name: string)
    requires DistinctKeys(pairs) && NewUseCasesConfig(pairs).Success?
    ensures var c := NewUseCasesConfig(pairs).value;
      && Get(c, RESERVED) == Success(Some("")) && GetIntended(c, RESERVED) == Success("")
      && (name != RESERVED && name !in c.cases ==>
            Get(c, name) == Failure(KeyError(name)) && GetIntended(c, name) == Failure(KeyError(name)))
      && (name in c.cases ==>
            name != RESERVED && Get(c, name) == Success(None) && GetIntended(c, name) == Success(c.cases[name]))
  {
  }

  /** A table naming the use case "x" shows the missing return: `get("x")`
      gives None instead of the description "y". */
  lemma GetReturnsNothingForPresentName()
    ensures var r := NewUseCasesConfig([("x", Text("y"))]);
      && r.Success? && Get(r.value, "x") == Success(None) && GetIntended(r.value, "x") == Success("y")
  {
    var r := NewUseCasesConfig([("x", Text("y"))]);
    assert [("x", Text("y"))][0].0 == "x";
  }
}
