/** `String.trim()`: drops leading and trailing characters up to and including the space. */
module JavaStrings {

  /** The characters `trim` removes: code points up to U+0020. */
  predicate IsTrimmed(c: char)
  {
    c <= ' '
  }

  /** The first index at or after `i` that holds a character `trim` keeps, or `|s|`. */
  function SkipLeading(s: string, i: nat): (j: nat)
    requires i <= |s|
    ensures i <= j <= |s|
    ensures forall k :: i <= k < j ==> IsTrimmed(s[k])
    ensures j < |s| ==> !IsTrimmed(s[j])
    decreases |s| - i
  {
    if i == |s| || !IsTrimmed(s[i]) then i else SkipLeading(s, i + 1)
  }

  /** The end of the kept part: the largest `e <= j` with `e == lo` or `s[e - 1]` kept. */
  function SkipTrailing(s: string, lo: nat, j: nat): (e: nat)
    requires lo <= j <= |s|
    ensures lo <= e <= j
    ensures forall k :: e <= k < j ==> IsTrimmed(s[k])
    ensures e > lo ==> !IsTrimmed(s[e - 1])
    decreases j
  {
    if j == lo || !IsTrimmed(s[j - 1]) then j else SkipTrailing(s, lo, j - 1)
  }

  function Trim(s: string): (t: string)
  {
    var start := SkipLeading(s, 0);
    s[start..SkipTrailing(s, start, |s|)]
  }

  /** `trim` removes a run of trimmed characters at each end and nothing else, and what
      it keeps neither starts nor ends with a trimmed character. */
  lemma TrimShape(s: string)
    ensures exists i, j ::
              && 0 <= i <= j <= |s|
              && Trim(s) == s[i..j]
              && (forall k :: 0 <= k < i ==> IsTrimmed(s[k]))
              && (forall k :: j <= k < |s| ==> IsTrimmed(s[k]))
    ensures Trim(s) == [] || (!IsTrimmed(Trim(s)[0]) && !IsTrimmed(Trim(s)[|Trim(s)| - 1]))
  {
    var i := SkipLeading(s, 0);
    var j := SkipTrailing(s, i, |s|);
    assert Trim(s) == s[i..j];
  }

  /** A string is left as it is by `trim` exactly when it has no trimmed character at
      either end. */
  lemma {:induction false} TrimFixedPoint(s: string)
    ensures Trim(s) == s <==> (s == [] || (!IsTrimmed(s[0]) && !IsTrimmed(s[|s| - 1])))
  {
    TrimShape(s);
    if s != [] && !IsTrimmed(s[0]) && !IsTrimmed(s[|s| - 1]) {
      assert SkipLeading(s, 0) == 0;
      assert SkipTrailing(s, 0, |s|) == |s|;
    }
  }

  /** Trimming twice is trimming once. */
  lemma {:induction false} TrimIdempotent(s: string)
    ensures Trim(Trim(s)) == Trim(s)
  {
    TrimShape(s);
    TrimFixedPoint(Trim(s));
  }
}
