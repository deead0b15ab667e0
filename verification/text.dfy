/** String operations the club directory relies on, over an abstraction of
    JavaScript strings as sequences of characters (Unicode scalar values),
    with ASCII-only lower-casing:
    - `ToLower` stands for `String.prototype.toLowerCase`,
    - `Contains` stands for `String.prototype.includes`,
    - `Compare` stands for `String.prototype.localeCompare`. */
module Text {

  /** The upper-case ASCII letters, the only characters lowering changes. */
  predicate IsUpper(ch: char) {
    'A' <= ch <= 'Z'
  }

  /** No character of `s` is an upper-case ASCII letter. */
  predicate IsLowerCase(s: string) {
    forall i :: 0 <= i < |s| ==> !IsUpper(s[i])
  }

  function LowerChar(ch: char): (r: char)
    ensures !IsUpper(r)
    ensures !IsUpper(ch) ==> r == ch
    ensures IsUpper(ch) ==> r as int - ch as int == 'a' as int - 'A' as int
  {
    if IsUpper(ch) then (ch as int - 'A' as int + 'a' as int) as char else ch
  }

  /** Lowers every character: the result has the same length, holds no
      upper-case letter, agrees with `s` wherever `s` was not upper case,
      and leaves an already lower-case string alone. */
  function ToLower(s: string): (r: string)
    ensures |r| == |s|
    ensures forall i :: 0 <= i < |s| ==> r[i] == LowerChar(s[i])
    ensures IsLowerCase(r)
    ensures IsLowerCase(s) ==> r == s
  {
    if |s| == 0 then [] else [LowerChar(s[0])] + ToLower(s[1..])
  }

  /** `s` begins with `p`. */
  predicate StartsWith(s: string, p: string) {
    |p| <= |s| && s[..|p|] == p
  }

  /** `t` occurs in `s` starting at offset `i`. */
  predicate OccursAt(s: string, t: string, i: int) {
    0 <= i && i + |t| <= |s| && s[i..i + |t|] == t
  }

  /** `String.prototype.includes`: scan `s` left to right for a suffix that
      begins with `t`. The empty string occurs in every string. */
  function Contains(s: string, t: string): (b: bool)
    ensures |t| == 0 ==> b
    ensures b ==> |t| <= |s|
    decreases |s|
  {
    StartsWith(s, t) || (|s| > 0 && Contains(s[1..], t))
  }

  /** The scan agrees with the positional definition of an occurrence. */
  lemma {:induction false} ContainsIffOccurs(s: string, t: string)
    ensures Contains(s, t) <==> exists i :: OccursAt(s, t, i)
    decreases |s|
  {
    if StartsWith(s, t) {
      assert OccursAt(s, t, 0);
    } else if |s| == 0 {
      assert forall i :: !OccursAt(s, t, i);
    } else {
      ContainsIffOccurs(s[1..], t);
      if Contains(s[1..], t) {
        var i :| OccursAt(s[1..], t, i);
        assert s[1..][i..i + |t|] == s[i + 1..i + 1 + |t|];
        assert OccursAt(s, t, i + 1);
      }
      if exists i :: OccursAt(s, t, i) {
        var i :| OccursAt(s, t, i);
        assert i != 0;
        assert s[1..][i - 1..i - 1 + |t|] == s[i..i + |t|];
        assert OccursAt(s[1..], t, i - 1);
      }
    }
  }

  /** A lower-cased text never contains a term with an upper-case letter in
      it: this is why every caller lowers the search term first. */
  lemma LowerTextMissesUpperTerm(s: string, t: string, k: int)
    requires 0 <= k < |t| && IsUpper(t[k])
    ensures !Contains(ToLower(s), t)
  {
    ContainsIffOccurs(ToLower(s), t);
  }

  /** Lexicographic comparison by character (Unicode scalar value) standing for `localeCompare`:
      negative, zero or positive as `a` sorts before, with or after `b`;
      zero exactly when the strings are equal. */
  function Compare(a: string, b: string): (r: int)
    ensures -1 <= r <= 1
    ensures r == 0 <==> a == b
    decreases |a|
  {
    if |a| == 0 then (if |b| == 0 then 0 else -1)
    else if |b| == 0 then 1
    else if a[0] < b[0] then -1
    else if b[0] < a[0] then 1
    else
      assert a == [a[0]] + a[1..] && b == [b[0]] + b[1..];
      Compare(a[1..], b[1..])
  }

  /** Swapping the operands negates the comparison. */
  lemma {:induction false} CompareAntisymmetric(a: string, b: string)
    ensures Compare(b, a) == -Compare(a, b)
    decreases |a|
  {
    if |a| > 0 && |b| > 0 && a[0] == b[0] {
      CompareAntisymmetric(a[1..], b[1..]);
    }
  }

  /** "Sorts no later than" is transitive. */
  lemma {:induction false} CompareTransitive(a: string, b: string, c: string)
    requires Compare(a, b) <= 0 && Compare(b, c) <= 0
    ensures Compare(a, c) <= 0
    decreases |a|
  {
    if |a| > 0 && |b| > 0 && |c| > 0 && a[0] == b[0] && b[0] == c[0] {
      CompareTransitive(a[1..], b[1..], c[1..]);
    }
  }
}
