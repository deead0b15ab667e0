/** The event aggregator behind the events view: one feed entry per
    (club, upcoming event) pair, each carrying the owning club's name, id,
    category and glyph, sorted by event title with a stable sort. Also the
    two-event preview shown on each club card. */
module EventFeed {
  import opened Text
  import opened Clubs

  /** One row of the events view. */
  datatype Entry = Entry(event: string, club: string, clubId: int, category: string, image: string)

  /** The entry the gathering loop pushes for event `title` of club `c`. */
  function EntryFor(c: Club, title: string): Entry {
    Entry(title, c.name, c.id, c.category, c.image)
  }

  /** The sum of the lengths of all upcoming-event lists. */
  function TotalEvents(clubs: seq<Club>): nat {
    if |clubs| == 0 then 0 else |clubs[0].upcomingEvents| + TotalEvents(clubs[1..])
  }

  /** The entries one club contributes, in its own event order. */
  function ClubEntries(c: Club): seq<Entry> {
    seq(|c.upcomingEvents|, j requires 0 <= j < |c.upcomingEvents| => EntryFor(c, c.upcomingEvents[j]))
  }

  /** Every club's entries, club after club: as long as all event lists
      together. */
  function Gather(clubs: seq<Club>): (r: seq<Entry>)
    ensures |r| == TotalEvents(clubs)
  {
    if |clubs| == 0 then [] else ClubEntries(clubs[0]) + Gather(clubs[1..])
  }

  lemma {:induction false} GatherAppend(a: seq<Club>, b: seq<Club>)
    ensures Gather(a + b) == Gather(a) + Gather(b)
  {
    if |a| > 0 {
      GatherAppend(a[1..], b);
      assert (a + b)[0] == a[0] && (a + b)[1..] == a[1..] + b;
    } else {
      assert a + b == b;
    }
  }

  /** Where club `i`'s entries start in the gathered list. */
  function Offset(clubs: seq<Club>, i: int): nat
    requires 0 <= i <= |clubs|
  {
    TotalEvents(clubs[..i])
  }

  /** Club `i`'s block of entries ends where club `i + 1`'s begins. */
  lemma OffsetStep(clubs: seq<Club>, i: int)
    requires 0 <= i < |clubs|
    ensures Offset(clubs, i + 1) == Offset(clubs, i) + |clubs[i].upcomingEvents|
  {
    assert clubs[..i + 1] == clubs[..i] + [clubs[i]];
    GatherAppend(clubs[..i], [clubs[i]]);
  }

  /** The last club's block ends at the end of the gathered list. */
  lemma OffsetEnd(clubs: seq<Club>)
    ensures Offset(clubs, |clubs|) == |Gather(clubs)|
  {
    assert clubs[..|clubs|] == clubs;
  }

  /** Position `Offset(clubs, i) + j` of the gathered list holds exactly the
      entry for event `j` of club `i`. With `OffsetStep` and `OffsetEnd` the positions and
      the (club, event) pairs are in one-to-one correspondence, so repeated
      titles each keep their own entry. */
  lemma GatherAt(clubs: seq<Club>, i: int, j: int)
    requires 0 <= i < |clubs| && 0 <= j < |clubs[i].upcomingEvents|
    ensures Offset(clubs, i) + j < |Gather(clubs)|
    ensures Gather(clubs)[Offset(clubs, i) + j] == EntryFor(clubs[i], clubs[i].upcomingEvents[j])
  {
    assert clubs == clubs[..i] + clubs[i..];
    GatherAppend(clubs[..i], clubs[i..]);
    assert clubs[i..][0] == clubs[i] && clubs[i..][1..] == clubs[i + 1..];
  }

  /** Every gathered entry is the entry of one of its club's own events. */
  lemma {:induction false} GatherProvenance(clubs: seq<Club>, e: Entry)
    requires e in Gather(clubs)
    ensures exists c :: c in clubs && e.event in c.upcomingEvents && e == EntryFor(c, e.event)
  {
    if e in ClubEntries(clubs[0]) {
      assert clubs[0] in clubs;
    } else {
      GatherProvenance(clubs[1..], e);
      var c :| c in clubs[1..] && e.event in c.upcomingEvents && e == EntryFor(c, e.event);
      assert c in clubs;
    }
  }

  /** Every event of every club is gathered. */
  lemma {:induction false} GatherComplete(clubs: seq<Club>, c: Club, title: string)
    requires c in clubs && title in c.upcomingEvents
    ensures EntryFor(c, title) in Gather(clubs)
  {
    if c == clubs[0] {
      var j :| 0 <= j < |c.upcomingEvents| && c.upcomingEvents[j] == title;
      assert ClubEntries(c)[j] == EntryFor(c, title);
    } else {
      GatherComplete(clubs[1..], c, title);
    }
  }

  /** The two nested `forEach` loops as written: push one entry per event,
      club by club. */
  method GatherEvents(clubs: seq<Club>) returns (all: seq<Entry>)
    ensures all == Gather(clubs)
    ensures |all| == TotalEvents(clubs)
  {
    all := [];
    var i := 0;
    while i < |clubs|
      invariant 0 <= i <= |clubs|
      invariant all == Gather(clubs[..i])
    {
      var c := clubs[i];
      var j := 0;
      while j < |c.upcomingEvents|
        invariant 0 <= j <= |c.upcomingEvents|
        invariant all == Gather(clubs[..i]) + ClubEntries(c)[..j]
      {
        assert ClubEntries(c)[..j + 1] == ClubEntries(c)[..j] + [EntryFor(c, c.upcomingEvents[j])];
        all := all + [EntryFor(c, c.upcomingEvents[j])];
        j := j + 1;
      }
      assert ClubEntries(c)[..j] == ClubEntries(c);
      assert clubs[..i + 1] == clubs[..i] + [c];
      GatherAppend(clubs[..i], [c]);
      i := i + 1;
    }
    assert clubs[..i] == clubs;
  }

  /** The comparator handed to `Array.prototype.sort`, as a test "may come
      first". */
  predicate TitleLe(x: Entry, y: Entry) {
    Compare(x.event, y.event) <= 0
  }

  /** Non-decreasing by event title. */
  predicate SortedByTitle(s: seq<Entry>) {
    forall i, j :: 0 <= i < j < |s| ==> TitleLe(s[i], s[j])
  }

  /** Puts `x` in front of the first entry whose title it does not sort
      after; the result holds the entries of `s` plus `x`. */
  function Insert(x: Entry, s: seq<Entry>): (r: seq<Entry>)
    ensures multiset(r) == multiset(s) + multiset{x}
  {
    if |s| == 0 || TitleLe(x, s[0]) then [x] + s
    else
      assert s == [s[0]] + s[1..];
      [s[0]] + Insert(x, s[1..])
  }

  lemma {:induction false} InsertSorted(x: Entry, s: seq<Entry>)
    requires SortedByTitle(s)
    ensures SortedByTitle(Insert(x, s))
  {
    if |s| == 0 || TitleLe(x, s[0]) {
      forall j | 0 <= j < |s|
        ensures TitleLe(x, s[j])
      {
        if j > 0 {
          CompareTransitive(x.event, s[0].event, s[j].event);
        }
      }
    } else {
      CompareAntisymmetric(x.event, s[0].event);
      InsertSorted(x, s[1..]);
      var t := Insert(x, s[1..]);
      forall k | 0 <= k < |t|
        ensures TitleLe(s[0], t[k])
      {
        assert t[k] in multiset(t);
        if t[k] != x {
          assert t[k] in multiset(s[1..]);
          var m :| 0 <= m < |s[1..]| && s[1..][m] == t[k];
          assert s[m + 1] == t[k];
        }
      }
    }
  }

  /** Stable insertion sort by event title: the result is non-decreasing by
      title and holds exactly the entries of `s`. */
  function SortByTitle(s: seq<Entry>): (r: seq<Entry>)
    ensures multiset(r) == multiset(s)
    ensures |r| == |s|
    ensures SortedByTitle(r)
  {
    if |s| == 0 then []
    else
      var t := SortByTitle(s[1..]);
      InsertSorted(s[0], t);
      assert s == [s[0]] + s[1..];
      Insert(s[0], t)
  }

  /** The entries of `s` titled `title`, in order. */
  function WithTitle(s: seq<Entry>, title: string): seq<Entry> {
    if |s| == 0 then []
    else (if s[0].event == title then [s[0]] else []) + WithTitle(s[1..], title)
  }

  lemma WithTitleCons(x: Entry, s: seq<Entry>, title: string)
    ensures WithTitle([x] + s, title) == (if x.event == title then [x] else []) + WithTitle(s, title)
  {
    assert ([x] + s)[0] == x && ([x] + s)[1..] == s;
  }

  /** Putting `y` in front of `x` changes nothing among the entries titled
      `title` when the two titles differ. */
  lemma SwapDistinctTitles(x: Entry, y: Entry, rest: seq<Entry>, t: seq<Entry>, title: string)
    requires x.event != y.event
    requires WithTitle(rest, title) == (if x.event == title then [x] else []) + WithTitle(t, title)
    ensures WithTitle([y] + rest, title) == (if x.event == title then [x] else []) + WithTitle([y] + t, title)
  {
    WithTitleCons(y, rest, title);
    WithTitleCons(y, t, title);
  }

  /** Inserting `x` lands it ahead of every entry with the same title. */
  lemma {:induction false} InsertWithTitle(x: Entry, s: seq<Entry>, title: string)
    ensures WithTitle(Insert(x, s), title)
            == (if x.event == title then [x] else []) + WithTitle(s, title)
  {
    if |s| == 0 || TitleLe(x, s[0]) {
      WithTitleCons(x, s, title);
    } else {
      InsertWithTitle(x, s[1..], title);
      SwapDistinctTitles(x, s[0], Insert(x, s[1..]), s[1..], title);
      assert s == [s[0]] + s[1..];
    }
  }

  /** The sort is stable: entries sharing a title keep their relative
      order. */
  lemma {:induction false} SortStable(s: seq<Entry>, title: string)
    ensures WithTitle(SortByTitle(s), title) == WithTitle(s, title)
  {
    if |s| > 0 {
      SortStable(s[1..], title);
      InsertWithTitle(s[0], SortByTitle(s[1..]), title);
    }
  }

  /** The events view: every club's events, sorted by title. */
  function EventsFeed(clubs: seq<Club>): (r: seq<Entry>)
    ensures |r| == TotalEvents(clubs)
    ensures SortedByTitle(r)
    ensures multiset(r) == multiset(Gather(clubs))
  {
    SortByTitle(Gather(clubs))
  }

  /** A feed entry is exactly an event of one of the clubs, labelled with
      that club's name, id, category and glyph. */
  lemma FeedProvenance(clubs: seq<Club>, e: Entry)
    ensures e in EventsFeed(clubs) <==>
            exists c :: c in clubs && e.event in c.upcomingEvents && e == EntryFor(c, e.event)
  {
    var g := Gather(clubs);
    assert e in EventsFeed(clubs) <==> e in multiset(g);
    if e in g {
      GatherProvenance(clubs, e);
    }
    if exists c :: c in clubs && e.event in c.upcomingEvents && e == EntryFor(c, e.event) {
      var c :| c in clubs && e.event in c.upcomingEvents && e == EntryFor(c, e.event);
      GatherComplete(clubs, c, e.event);
    }
  }

  /** Up to `PreviewLimit` events appear on a club card. */
  const PreviewLimit: nat := 2

  /** `upcomingEvents.slice(0, 2)`: the first two events, or all of them
      when there are fewer. */
  function Preview(c: Club): (r: seq<string>)
    ensures |r| == if |c.upcomingEvents| < PreviewLimit then |c.upcomingEvents| else PreviewLimit
    ensures r == c.upcomingEvents[..|r|]
  {
    if |c.upcomingEvents| <= PreviewLimit then c.upcomingEvents else c.upcomingEvents[..PreviewLimit]
  }

  /** Every event previewed on a club card also appears in the events
      view, labelled with that club. */
  lemma PreviewInFeed(clubs: seq<Club>, c: Club, title: string)
    requires c in clubs && title in Preview(c)
    ensures EntryFor(c, title) in EventsFeed(clubs)
  {
    FeedProvenance(clubs, EntryFor(c, title));
  }
}
