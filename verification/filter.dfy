/** The filter engine behind the search box and the category selector:
    keep, in their original order, the clubs whose lower-cased name or
    description contains the (already lower-cased) search term and whose
    category is the selected one, or any category when "all" is selected. */
module ClubFilter {
  import opened Text
  import opened Clubs

  /** The selector value that switches the category test off. */
  const AllCategories: string := "all"

  predicate MatchesSearch(c: Club, term: string) {
    Contains(ToLower(c.name), term) || Contains(ToLower(c.description), term)
  }

  predicate MatchesCategory(c: Club, category: string) {
    category == AllCategories || c.category == category
  }

  /** The predicate `filterClubs` hands to `Array.prototype.filter`. */
  predicate Matches(c: Club, term: string, category: string) {
    MatchesSearch(c, term) && MatchesCategory(c, category)
  }

  /** The clubs that pass `Matches`, in their original order: never longer
      than `clubs`, and every club in it passes. */
  function FilterClubs(clubs: seq<Club>, term: string, category: string): (r: seq<Club>)
    ensures |r| <= |clubs|
    ensures forall k :: 0 <= k < |r| ==> Matches(r[k], term, category)
  {
    if |clubs| == 0 then []
    else if Matches(clubs[0], term, category) then [clubs[0]] + FilterClubs(clubs[1..], term, category)
    else FilterClubs(clubs[1..], term, category)
  }

  /** Soundness and completeness: a club is in the filtered list exactly
      when it is in `clubs` and passes both the search and the category
      test. */
  lemma {:induction false} FilterMembership(clubs: seq<Club>, term: string, category: string, c: Club)
    ensures c in FilterClubs(clubs, term, category) <==> c in clubs && Matches(c, term, category)
  {
    if |clubs| > 0 {
      FilterMembership(clubs[1..], term, category, c);
      HeadTail(clubs);
    }
  }

  /** Every position of `idx` shifted one place to the right. */
  function Shift(idx: seq<int>): seq<int> {
    seq(|idx|, k requires 0 <= k < |idx| => idx[k] + 1)
  }

  /** The positions in `clubs` whose club passes the filter, strictly
      ascending and in range. */
  function MatchingPositions(clubs: seq<Club>, term: string, category: string): (idx: seq<int>)
    ensures forall k :: 0 <= k < |idx| ==> 0 <= idx[k] < |clubs|
    ensures forall k, l :: 0 <= k < l < |idx| ==> idx[k] < idx[l]
  {
    if |clubs| == 0 then []
    else
      var shifted := Shift(MatchingPositions(clubs[1..], term, category));
      if Matches(clubs[0], term, category) then [0] + shifted else shifted
  }

  /** A position is listed exactly when the club there passes. */
  lemma {:induction false} MatchingPositionsExact(clubs: seq<Club>, term: string, category: string, i: int)
    requires 0 <= i < |clubs|
    ensures i in MatchingPositions(clubs, term, category) <==> Matches(clubs[i], term, category)
  {
    if i > 0 {
      var rest := MatchingPositions(clubs[1..], term, category);
      MatchingPositionsExact(clubs[1..], term, category, i - 1);
      assert i in Shift(rest) <==> i - 1 in rest by {
        if i in Shift(rest) {
          var k :| 0 <= k < |rest| && Shift(rest)[k] == i;
          assert rest[k] == i - 1;
        }
        if i - 1 in rest {
          var k :| 0 <= k < |rest| && rest[k] == i - 1;
          assert Shift(rest)[k] == i;
        }
      }
    }
  }

  /** The filtered list is `clubs` read at the matching positions, in
      ascending order: an order-preserving subsequence in which nothing is
      added or repeated. */
  lemma {:induction false} FilterIsSubsequence(clubs: seq<Club>, term: string, category: string)
    ensures |FilterClubs(clubs, term, category)| == |MatchingPositions(clubs, term, category)|
    ensures forall k :: 0 <= k < |FilterClubs(clubs, term, category)| ==>
              FilterClubs(clubs, term, category)[k] == clubs[MatchingPositions(clubs, term, category)[k]]
  {
    if |clubs| > 0 {
      var tail := clubs[1..];
      var rest := MatchingPositions(tail, term, category);
      var kept := FilterClubs(tail, term, category);
      FilterIsSubsequence(tail, term, category);
      forall k | 0 <= k < |rest|
        ensures kept[k] == clubs[Shift(rest)[k]]
      {
        assert Shift(rest)[k] == rest[k] + 1;
      }
    }
  }

  /** A passing club occurs in the result as often as in `clubs`; a failing
      club does not occur at all. */
  lemma {:induction false} FilterMultiplicity(clubs: seq<Club>, term: string, category: string, c: Club)
    ensures multiset(FilterClubs(clubs, term, category))[c]
            == if Matches(c, term, category) then multiset(clubs)[c] else 0
  {
    if |clubs| > 0 {
      FilterMultiplicity(clubs[1..], term, category, c);
      HeadTail(clubs);
    }
  }

  /** An empty term with the "all" selector keeps the whole list. */
  lemma {:induction false} EmptySearchKeepsAll(clubs: seq<Club>)
    ensures FilterClubs(clubs, "", AllCategories) == clubs
  {
    if |clubs| > 0 {
      EmptySearchKeepsAll(clubs[1..]);
      assert StartsWith(ToLower(clubs[0].name), "");
      HeadTail(clubs);
    }
  }

  /** Filtering an already filtered list with the same inputs changes
      nothing. */
  lemma {:induction false} FilterIdempotent(clubs: seq<Club>, term: string, category: string)
    ensures FilterClubs(FilterClubs(clubs, term, category), term, category)
            == FilterClubs(clubs, term, category)
  {
    if |clubs| > 0 {
      FilterIdempotent(clubs[1..], term, category);
      if Matches(clubs[0], term, category) {
        var r := FilterClubs(clubs, term, category);
        assert r[0] == clubs[0] && r[1..] == FilterClubs(clubs[1..], term, category);
      }
    }
  }

  /** Filtering distributes over concatenation: the filter is a
      left-to-right scan that judges each club on its own. */
  lemma {:induction false} FilterAppend(a: seq<Club>, b: seq<Club>, term: string, category: string)
    ensures FilterClubs(a + b, term, category)
            == FilterClubs(a, term, category) + FilterClubs(b, term, category)
  {
    if |a| > 0 {
      FilterAppend(a[1..], b, term, category);
      ConsAppend(a, b);
    } else {
      assert a + b == b;
    }
  }

  /** A non-empty list is its first club followed by the rest. */
  lemma HeadTail(s: seq<Club>)
    requires |s| > 0
    ensures s == [s[0]] + s[1..]
  {
  }

  /** The first club of `a + b` is `a`'s first, and the rest is `a`'s rest
      followed by `b`. */
  lemma ConsAppend(a: seq<Club>, b: seq<Club>)
    requires |a| > 0
    ensures (a + b)[0] == a[0] && (a + b)[1..] == a[1..] + b
  {
  }

  /** `Array.prototype.filter` as written: one pass that pushes each
      passing club onto the result. */
  method FilterInOrder(clubs: seq<Club>, term: string, category: string) returns (r: seq<Club>)
    ensures r == FilterClubs(clubs, term, category)
  {
    r := [];
    var i := 0;
    while i < |clubs|
      invariant 0 <= i <= |clubs|
      invariant r == FilterClubs(clubs[..i], term, category)
    {
      FilterAppend(clubs[..i], [clubs[i]], term, category);
      assert clubs[..i + 1] == clubs[..i] + [clubs[i]];
      if Matches(clubs[i], term, category) {
        r := r + [clubs[i]];
      }
      i := i + 1;
    }
    assert clubs[..i] == clubs;
  }
}
