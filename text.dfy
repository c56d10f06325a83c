/** The text matching behind `search_tasks`: lower-casing and the
    case-insensitive substring test of `ILIKE '%keyword%'`. */
module Text {

  /** Lower-cases one character; only ASCII letters have a lower case here. */
  function LowerChar(c: char): (l: char)
    ensures 'A' <= c <= 'Z' ==> l as int == c as int + 32
    ensures !('A' <= c <= 'Z') ==> l == c
  {
    if 'A' <= c <= 'Z' then (c as int + 32) as char else c
  }

  /** `str.lower()` on the ASCII subset. */
  function Lower(s: string): (r: string)
    ensures |r| == |s|
    ensures forall i :: 0 <= i < |s| ==> r[i] == LowerChar(s[i])
  {
    seq(|s|, i requires 0 <= i < |s| => LowerChar(s[i]))
  }

  /** Lower-casing twice is lower-casing once, so the router's `q.lower()`
      before a case-insensitive `ILIKE` changes nothing. */
  lemma LowerIdempotent(s: string)
    ensures Lower(Lower(s)) == Lower(s)
  {
    var once := Lower(s);
    assert forall i :: 0 <= i < |s| ==> LowerChar(once[i]) == once[i];
  }

  /** `p` occurs in `s` starting at index `i`. */
  ghost predicate OccursAt(p: string, s: string, i: int) {
    0 <= i <= |s| - |p| && s[i..i + |p|] == p
  }

  /** The reference meaning of "`p` occurs in `s`". */
  ghost predicate Occurs(p: string, s: string) {
    exists i :: OccursAt(p, s, i)
  }

  /** A substring test by walking `s` from the left. */
  function IsSubstring(p: string, s: string): (b: bool)
    decreases |s|
  {
    if |p| > |s| then false
    else if s[..|p|] == p then true
    else IsSubstring(p, s[1..])
  }

  /** The walking test decides exactly `Occurs`. */
  lemma {:induction false} IsSubstringIff(p: string, s: string)
    ensures IsSubstring(p, s) <==> Occurs(p, s)
    decreases |s|
  {
    if |p| > |s| {
    } else if s[..|p|] == p {
      assert OccursAt(p, s, 0);
    } else {
      IsSubstringIff(p, s[1..]);
      if Occurs(p, s) {
        var i :| OccursAt(p, s, i);
        assert i != 0;
        assert s[1..][i - 1..i - 1 + |p|] == s[i..i + |p|];
        assert OccursAt(p, s[1..], i - 1);
      }
      if Occurs(p, s[1..]) {
        var i :| OccursAt(p, s[1..], i);
        assert s[i + 1..i + 1 + |p|] == s[1..][i..i + |p|];
        assert OccursAt(p, s, i + 1);
      }
    }
  }

  /** `text ILIKE '%keyword%'`: the keyword occurs in the text, ignoring case.
      The `%` and `_` wildcards inside the keyword are not modelled. */
  function ILikeContains(text: string, keyword: string): (b: bool)
    ensures b <==> Occurs(Lower(keyword), Lower(text))
  {
    IsSubstringIff(Lower(keyword), Lower(text));
    IsSubstring(Lower(keyword), Lower(text))
  }

  /** The case-insensitive test holds exactly when the lower-cased keyword
      occurs in the lower-cased text, whatever the keyword's case. */
  lemma ILikeContainsIff(text: string, q: string)
    ensures ILikeContains(text, Lower(q)) <==> Occurs(Lower(q), Lower(text))
  {
    LowerIdempotent(q);
    IsSubstringIff(Lower(q), Lower(text));
  }
}
