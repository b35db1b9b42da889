/** Facts about sequences used where the source keeps Python sets and
    dictionaries whose iteration order the model fixes as a sequence. */
module Collections {

  /** No element occurs twice: what a Python set guarantees of its members. */
  predicate Distinct<T(==)>(s: seq<T>)
  {
    forall i, j :: 0 <= i < j < |s| ==> s[i] != s[j]
  }

  /** The pairs of a Python dict in iteration order: no key occurs twice. */
  predicate DistinctKeys<K(==), V>(entries: seq<(K, V)>)
  {
    forall i, j :: 0 <= i < j < |entries| ==> entries[i].0 != entries[j].0
  }

  /** A sequence without repetitions has as many members as elements. */
  lemma {:induction false} DistinctCardinality<T>(s: seq<T>)
    requires Distinct(s)
    ensures |set x | x in s| == |s|
  {
    if s != [] {
      var prefix := s[..|s| - 1];
      assert Distinct(prefix);
      DistinctCardinality(prefix);
      assert s == prefix + [s[|s| - 1]];
      assert (set x | x in s) == (set x | x in prefix) + {s[|s| - 1]};
      assert s[|s| - 1] !in prefix;
    }
  }

  /** The index of the first element that repeats an earlier one. */
  function FirstRepeat<T(==)>(s: seq<T>): (k: nat)
    requires !Distinct(s)
    ensures k < |s| && s[k] in s[..k] && Distinct(s[..k])
    decreases |s|
  {
    var prefix := s[..|s| - 1];
    if Distinct(prefix) then
      var i, j :| 0 <= i < j < |s| && s[i] == s[j];
      assert j == |s| - 1 && s[i] in prefix;
      |s| - 1
    else
      var k := FirstRepeat(prefix);
      assert s[..k] == prefix[..k];
      k
  }

  /** The first repeat is the only index whose element repeats an earlier
      one while everything before it is distinct. */
  lemma FirstRepeatUnique<T>(s: seq<T>, k: nat)
    requires k < |s| && s[k] in s[..k] && Distinct(s[..k])
    ensures !Distinct(s) && FirstRepeat(s) == k
  {
    var i :| 0 <= i < k && s[i] == s[k];
    assert !Distinct(s);
    var f := FirstRepeat(s);
    var j :| 0 <= j < f && s[j] == s[f];
  }
}
