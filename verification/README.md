# School club directory: filter engine, event feed and local registration

This project is a Dafny model of the pure computations inside the browser
club directory (`SchoolClubApp` in `js/script.js`). The model is built from
immutable records and sequences:

- **Filter engine** (`ClubFilter`, `App`). The search box and the category
  selector keep the clubs whose lower-cased name or description contains the
  lower-cased search term. The club's category must also equal the selected
  one, unless the selector is `"all"`. The result keeps the original order.
  Every filter starts from the full club list. The full list itself is never
  changed.
- **Event aggregator** (`EventFeed`). The events view flattens every club's
  `upcomingEvents` into one entry per (club, event) pair. Each entry carries
  the club's name, id, category and glyph. The entries are then sorted by
  event title with a stable sort. The club card previews at most the first
  two events.
- **Local registration** (`LocalRegistration`). A registration record is
  built as `{ id, ...studentData, clubId, timestamp }`. It is appended to
  the list kept under the storage key `clubRegistrations`.
- **Strings** (`Text`). Strings are sequences of characters (Unicode
  scalar values). Lower-casing changes ASCII letters only. Substring search
  is a left-to-right scan. Titles are compared lexicographically by
  character.

Files: `text.dfy`, `clubs.dfy`, `filter.dfy`, `events.dfy`,
`registration.dfy`, `app.dfy`.

## Model

| member | source | states |
|---|---|---|
| Text.LowerChar | js/script.js:83 | a lowered character is never an upper-case letter, and only upper-case letters change |
| Text.ToLower | js/script.js:96-97 | lowering keeps the length, changes each character independently, leaves no upper-case letter, and leaves an already lower-case string as it is (so lowering twice is lowering once) |
| Text.Contains | js/script.js:96-97 | `includes` always finds the empty term, and never finds a term longer than the text |
| Text.ContainsIffOccurs | js/script.js:96-97 | the left-to-right `includes` scan succeeds exactly when the term occurs at some offset of the text |
| Text.LowerTextMissesUpperTerm | js/script.js:96-97 | a term holding an upper-case letter is never found in a lowered name or description, which is why both handlers lower the term first |
| Text.Compare | js/script.js:153 | the title comparison returns -1, 0 or 1, and returns 0 exactly for equal titles |
| Text.CompareAntisymmetric | js/script.js:153 | swapping the two titles negates the comparison |
| Text.CompareTransitive | js/script.js:153 | "sorts no later than" is transitive, so the comparator is a total order |
| ClubFilter.FilterClubs | js/script.js:94-100 | the filtered list is never longer than the club list, and every club in it passes both the search and the category test |
| ClubFilter.FilterMembership | js/script.js:96-99 | a club is in the filtered list if and only if it is in the club list, its lower-cased name or description contains the term, and the selector is "all" or equals its category |
| ClubFilter.MatchingPositions | js/script.js:95-100 | the positions of the passing clubs are in range and strictly ascending |
| ClubFilter.MatchingPositionsExact | js/script.js:95-99 | a position is listed if and only if the club there passes the filter |
| ClubFilter.FilterIsSubsequence | js/script.js:95-100 | the filtered list is the club list read at the ascending matching positions: an order-preserving subsequence with nothing added or repeated |
| ClubFilter.FilterMultiplicity | js/script.js:95-100 | a passing club occurs in the result exactly as often as in the club list; a failing club never occurs |
| ClubFilter.EmptySearchKeepsAll | js/script.js:96-98 | an empty term with the "all" selector keeps every club in its original order |
| ClubFilter.FilterIdempotent | js/script.js:95-100 | filtering the filtered list again with the same term and category changes nothing |
| ClubFilter.FilterAppend | js/script.js:95-100 | filtering a concatenation is the concatenation of the filtered parts, because each club is judged on its own |
| ClubFilter.FilterInOrder | js/script.js:95-100 | the one-pass push loop of `Array.prototype.filter` yields the same list as the filter definition |
| EventFeed.Gather | js/script.js:140-150 | the gathered list has exactly as many entries as all the clubs' event lists together, so duplicate titles are kept |
| EventFeed.GatherAppend | js/script.js:140-150 | gathering a concatenation of club lists gathers each part and concatenates the results |
| EventFeed.OffsetStep | js/script.js:140-150 | each club's block of entries is as long as its event list and directly follows the previous club's block |
| EventFeed.OffsetEnd | js/script.js:140-150 | the last club's block ends exactly at the end of the gathered list |
| EventFeed.GatherAt | js/script.js:140-150 | the entry at a club's offset plus j is the entry for that club's event j, so gathered positions and (club, event) pairs correspond one to one |
| EventFeed.GatherProvenance | js/script.js:142-148 | every gathered entry is an event of some club, with that club's name, id, category and image |
| EventFeed.GatherComplete | js/script.js:140-148 | every event of every club appears in the gathered list, labelled with its club |
| EventFeed.GatherEvents | js/script.js:137-150 | the nested `forEach`/`push` loops produce exactly the gathered list, with the summed length |
| EventFeed.Insert | js/script.js:153 | inserting an entry yields the old entries plus that entry |
| EventFeed.InsertSorted | js/script.js:153 | inserting into a title-sorted list keeps it sorted |
| EventFeed.SortByTitle | js/script.js:153 | the sorted list is a permutation of its input, has the same length, and is non-decreasing by event title |
| EventFeed.InsertWithTitle | js/script.js:153 | an inserted entry lands ahead of every existing entry with the same title |
| EventFeed.SortStable | js/script.js:153 | entries that share a title keep their relative order through the sort |
| EventFeed.EventsFeed | js/script.js:137-153 | the events view has one entry per (club, event) pair, is sorted by title, and is a permutation of the gathered list |
| EventFeed.FeedProvenance | js/script.js:140-153 | an entry is in the events view if and only if it is an event of some club, labelled with that club's name, id, category and image |
| EventFeed.Preview | js/script.js:126 | a card shows the first min(2, n) events of the club, in order |
| EventFeed.PreviewInFeed | js/script.js:126 | every event previewed on a card also appears in the events view, labelled with that club |
| LocalRegistration.NewRegistration | js/script.js:221-226 | the record has the student's fields plus id, clubId and timestamp; clubId and timestamp are the arguments; a student-supplied id overrides the generated one; every other student field is kept |
| LocalRegistration.ReadBack | js/script.js:228-230 | the list written under the storage key is the list read back from it, and writing any other key leaves the stored registrations unchanged |
| LocalRegistration.RegisterWithLocalStorage | js/script.js:219-232 | the resolved record is the `{ id, ...studentData, clubId, timestamp }` record; the stored list (empty when the key is unset) gains exactly that record at its end; no other storage key changes |
| LocalRegistration.RegisterAllAppends | js/script.js:228-230 | registrations made one after another are all kept, after the earlier records, in submission order |
| App.FetchClubs | js/script.js:21-30 | a received collection becomes the full list and is shown exactly as an empty search under "all" would show it; a transport error leaves the state unchanged |
| App.ApplyFilter | js/script.js:94-100 | filtering leaves the full club list unchanged and shows at most that many clubs |
| App.FailedLoadShowsNothing | js/script.js:3-4 | the start state has both lists empty; a failed load keeps it, so no club is shown under any search and the events view is empty |
| App.HandleSearch | js/script.js:82-85 | a search leaves the full club list unchanged |
| App.HandleCategoryFilter | js/script.js:88-91 | a category change leaves the full club list unchanged |
| App.EventsView | js/script.js:135-153 | the events view has the summed number of entries and is sorted by title |
| App.SearchMembership | js/script.js:83-99 | after a search a club is shown if and only if it is loaded, its lowered name or description contains the lowered input, and the selector is "all" or its category |
| App.SearchIgnoresCase | js/script.js:82-91 | the input's letter case does not change the result, and the search handler and the category handler compute the same state from the same search text and category |
| App.LatestFilterWins | js/script.js:95 | each filter starts from the full list, so only the latest term and category matter |
| App.ClearedSearchShowsAll | js/script.js:24-25 | after a load, an empty search with "all" selected shows exactly the freshly loaded state |
| App.EventsIgnoreFilter | js/script.js:140 | the events view is built from the full club list, so no search or category changes it |
| App.ChessClubExample | js/script.js:94-100 | a loaded "Chess Club" in category "academic" is found by "chess" under "all" and by nothing under "sports" |

## Left out

- Text.ToLower: lowers ASCII letters only. JavaScript `toLowerCase` also maps non-ASCII letters with Unicode rules.
- Text.Compare: compares lexicographically by character (Unicode scalar value), not by UTF-16 code unit. `localeCompare` uses a locale-dependent collation, so the proved order is that abstraction's order, not the browser's.
- EventFeed.SortByTitle: modelled as a stable insertion sort. `Array.prototype.sort` is required to be stable, but its algorithm is not modelled.
- Clubs always carry every field. `filterClubs` calls `toLowerCase` on `club.name` and `club.description` directly (js/script.js:96-97). It throws on a club without a name, or on a club without a description whose name misses the term. That path is not modelled.
- App.FetchClubs: a response body that is not a club array (json-server's `{}` on a 404, or `null`) is not modelled. The source assigns such a body to `clubs` (js/script.js:24), throws at the copy `[...this.clubs]` (js/script.js:25), and the catch block (js/script.js:26-29) leaves `clubs` replaced while `filteredClubs` keeps its old value. Later `filter`/`forEach` calls on `clubs` then throw.
- Club ids are modelled as integers. The source interpolates them unquoted into click handlers. Loose string/number id equality is not modelled.
- The DOM rendering is left out as presentation: the club cards, the event cards' markup, the detail modal (`showClubDetail`), `handleNavigation`, `toggleTheme`, `showNotification` and its timer.
- `fetch` I/O is left out. The fetched result is a parameter of `App.FetchClubs`. The hostname-based choice of base URL and backend (`registerStudent`) and `displayRegistrations` are environment and network concerns.
- `handleRegistration`, `registerWithJSONServer`, `populateClubSelect`, `prepareRegistration` and `closeModal` are called but not defined in `js/script.js`. Member-count increments and form validation are not part of this model.
- `Math.random` ids and ISO timestamps are opaque string inputs. Storage holds already-parsed lists. JSON text, `JSON.parse`/`JSON.stringify` and an unset or empty stored string are reduced to "no list yet".
- Form fields are modelled as string values.
- The Promise wrapper of `registerWithLocalStorage` is not modelled.
- Concurrent writes from several tabs are not modelled. Every submission is handled to completion before the next.
- `server.js` configures json-server's router over `db.json`, its default middlewares (which serve the site's static files from the project root), CORS headers and the listening port. It has no logic of its own.
