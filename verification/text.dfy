/** The few string operations of Python that the manifest layer relies on:
    `str.lower`, `str.upper`, `str.join` and the `in` test on strings. */
module Text {

  /** `str.lower` on one character, for the ASCII letters. */
  function LowerChar(c: char): char
  {
    if 'A' <= c <= 'Z' then (c as int + 32) as char else c
  }

  /** `str.upper` on one character, for the ASCII letters. */
  function UpperChar(c: char): char
  {
    if 'a' <= c <= 'z' then (c as int - 32) as char else c
  }

  /** `s.lower()`: every character mapped by `LowerChar`, length kept. */
  function Lower(s: string): string
  {
    seq(|s|, i requires 0 <= i < |s| => LowerChar(s[i]))
  }

  /** `s.upper()`: every character mapped by `UpperChar`, length kept. */
  function Upper(s: string): string
  {
    seq(|s|, i requires 0 <= i < |s| => UpperChar(s[i]))
  }

  /** A lowered string is left alone by a second `lower()`. */
  lemma LowerIdempotent(s: string)
    ensures Lower(Lower(s)) == Lower(s)
  {
    var l := Lower(s);
    assert forall i :: 0 <= i < |l| ==> Lower(l)[i] == l[i];
  }

  /** `sep.join(xs)`. */
  function Join(xs: seq<string>, sep: string): string
  {
    if xs == [] then ""
    else if |xs| == 1 then xs[0]
    else xs[0] + sep + Join(xs[1..], sep)
  }

  /** Python's `needle in hay` on strings. */
  ghost predicate Contains(hay: string, needle: string)
  {
    exists pre, post :: hay == pre + needle + post
  }

  /** Every joined piece occurs in the joined string. */
  lemma {:induction false} JoinContainsEach(xs: seq<string>, sep: string, i: nat)
    requires i < |xs|
    ensures Contains(Join(xs, sep), xs[i])
  {
    if |xs| == 1 {
      assert Join(xs, sep) == [] + xs[0] + [];
    } else if i == 0 {
      assert Join(xs, sep) == [] + xs[0] + (sep + Join(xs[1..], sep));
    } else {
      JoinContainsEach(xs[1..], sep, i - 1);
      var pre, post :| Join(xs[1..], sep) == pre + xs[1..][i - 1] + post;
      assert Join(xs, sep) == (xs[0] + sep + pre) + xs[i] + post;
    }
  }
}
