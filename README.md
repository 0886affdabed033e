# Led Zeppelin site: the data logic, modelled in Dafny

This project models the data logic of a small web site about Led Zeppelin
and proves properties of it. The site has a browser front end and an
Express back end. Three pieces are modelled:

- **The songs view** (`renderSongs` in `src/js/ui.js`). The albums are sorted
  by year with a stable sort on a copy of the list. Their tracks are visited
  in that order. A track is kept under its album's year only the first time
  its normalised name appears. A name is normalised by lower-casing it,
  dropping everything outside `a-z`, `0-9` and whitespace, and trimming it.
  Years are then shown in ascending order, and the tracks of each year in
  the default string order.
- **The page controller** (`src/js/script.js`). `renderContent` splits the
  data into studio albums and compilations. A compilation is an item whose
  title includes one of five markers. The filter value chooses what the card
  container shows. `handleSearch`, `initialize` and the change listener keep
  four pieces of state:
  - the select value;
  - the button's disabled flag;
  - the cached data and its loaded flag.

  The cached data is what `fetchLocalData` (`src/js/api.js`) resolved to:
  the band's album list, or the whole parsed object when the band's record
  has no `albuns`.
- **The history server** (`server.js`). The route `GET /api/historia/:artista`
  turns the artist name into a key: lower-case, with every space replaced by
  `_`. It answers 200 with the stored history when that history is
  non-empty, and 404 otherwise. `updateHistory` runs at start-up. It writes
  the trimmed generated text into the `led_zeppelin` record, creating the
  record if needed. Any failure leaves `data.json` as it was.

## Modules

| file | module | contents |
|---|---|---|
| `wrappers.dfy` | `Wrappers` | `Option` |
| `text.dfy` | `Text` | ASCII `toLowerCase`, `trim`, `includes`, and the order used by `Array.prototype.sort` with no comparator |
| `seqs.dfy` | `Seqs` | `filter` on sequences; merges (interleavings) and subsequences |
| `records.dfy` | `Records` | album records, artist records, the parsed `data.json` and the band's key |
| `api.dfy` | `Api` | `fetchLocalData` as a function of the served `data.json` |
| `songs.dfy` | `Songs` | `renderSongs` |
| `content.dfy` | `Content` | `renderContent` as a function of the filter value and the data |
| `page.dfy` | `Page` | the class `SearchPage`, holding the state of `script.js` |
| `server.dfy` | `Server` | the artist key, the history route, and the class `DataFile` with `updateHistory` |

### How the grouping is proved

The nested `forEach` loops of `renderSongs` become the method
`Songs.GroupByYear`:

- The method keeps a `set<string>` of names already seen, like the source's
  `processedSongs`.
- It keeps a `map<int, set<string>>` of kept tracks, like `songsByYear`.
- It is proved equal to a specification: `Group` applied to the sequence of
  visits (`Entries`).
- A visit records a track, its normalised name and its album's year.
- The declarative properties are lemmas about `Group`:
  - first occurrence wins;
  - names are distinct;
  - no name is lost;
  - which years appear.

### When a data search shows the error message

A failed data-file fetch shows no error. `fetchLocalData` catches its own
errors and resolves to `[]`, so `handleSearch` caches an empty list and
renders empty views (`src/js/api.js:32-34`).

A data search can still end in the error message. When the band's record
has no `albuns`, `fetchLocalData` resolves to the whole parsed object
(`src/js/api.js:27-31`). The start-up refresh writes exactly such a record
when the record was missing (`server.js:38-42`). `handleSearch` caches that
object and sets `dataLoaded` (`src/js/script.js:61-64`). `renderContent`
then calls `filter` on a value that is not a list. The call throws, and the
`catch` shows the error message (`src/js/script.js:67-72`, 84). The cached
value is never replaced, so every later data search fails the same way.
The model states this outcome:

- `Api.LocalData` distinguishes an album list from any other value.
- `Server.LocalDataAfterMerge` shows that a refresh that creates the record
  leads to the non-list value.
- `Page.SearchPage.HandleSearch` and `Page.TwoSearches` show the error
  message for every data search after that value is cached.

## Model

| member | source | states |
|---|---|---|
| `Songs.NormalizeTrackName` | src/js/ui.js:83-87 | a normalised name holds only `a-z`, `0-9` and whitespace, and has no leading or trailing whitespace |
| `Songs.NormalizeIdempotent` | src/js/ui.js:83-87 | normalising a normalised name returns it unchanged |
| `Text.ToLower` | src/js/ui.js:85 | every character is lowered: an ASCII capital becomes its small letter, and every other character is kept |
| `Text.Trim` | src/js/ui.js:87 | the result has no whitespace at either end; with `Text.TrimStrips` it is the input with exactly its leading and trailing whitespace removed |
| `Text.TrimStrips` | src/js/ui.js:87 | `trim` returns a contiguous part of its input, and everything cut off on either side is whitespace |
| `Text.TrimIdempotent` | src/js/ui.js:87 | trimming twice is trimming once |
| `Songs.SortByYear` | src/js/ui.js:90 | the sorted copy is ordered by year and is a permutation of the input |
| `Songs.SortByYearIsStable` | src/js/ui.js:90 | albums of the same year keep their input order |
| `Songs.StableSortIsUnique` | src/js/ui.js:90 | two lists that are both sorted by year and agree on the order within each year are equal, so the sorted copy does not depend on the sorting algorithm |
| `Songs.CreateThenAdd` | src/js/ui.js:99-103 | creating a year's set when it is missing and then adding the track amounts to a single insertion under that year |
| `Songs.GroupStep` | src/js/ui.js:95-106 | one more visit of the specification `Group`: a track whose normalised name was already seen changes nothing; any other track is added under its year, and its name becomes seen |
| `Songs.GroupTracks` | src/js/ui.js:95-106 | the inner loop over one album's tracks takes `processedSongs` and `songsByYear` from the state after some visits to the state after those visits and the album's visits |
| `Songs.GroupByYear` | src/js/ui.js:91-107 | the nested loops leave `songsByYear` equal to the grouping specification applied to the visits in year-sorted order; `processedSongs` always holds the names seen so far |
| `Songs.KeptAreFirstVisits` | src/js/ui.js:94-107 | a track is kept under a year if and only if some visit of it, in an album of that year, is the first visit with its normalised name |
| `Songs.FirstNamesCoverNames` | src/js/ui.js:97-105 | every normalised name that is visited has a first visit |
| `Songs.GroupYearsNonEmpty` | src/js/ui.js:99-103 | no year in the output has an empty set |
| `Songs.YearsAreThoseWithNewTracks` | src/js/ui.js:99-101 | a year is in the output if and only if an album of that year holds the first visit of some normalised name |
| `Songs.EntriesComeFromAlbums` | src/js/ui.js:94-96 | every visit comes from an album of the list, carries that album's year, and carries the normalised name of its track |
| `Songs.AlbumsGiveEntries` | src/js/ui.js:94-96 | every track of every album is visited |
| `Songs.KeptIsFirstInYearOrder` | src/js/ui.js:90-107 | for the whole input: a track is kept under a year if and only if it is the first visit of its name in the stable year order, and it sits under that visit's year |
| `Songs.FirstVisitIsKept` | src/js/ui.js:90-107 | the first visit of each name in year order is kept under its album's year |
| `Songs.KeptTracksAreInputTracks` | src/js/ui.js:103 | output track strings are the input's original strings, listed under the year of an album that contains them |
| `Songs.KeptNamesAreDistinct` | src/js/ui.js:96-105 | no two kept tracks share a normalised name |
| `Songs.EveryInputTrackIsRepresented` | src/js/ui.js:94-107 | every input track is represented by a kept track with the same normalised name |
| `Songs.KeptNamesAreInputNames` | src/js/ui.js:94-107 | the normalised names of the kept tracks are exactly the normalised names of all the input tracks |
| `Songs.SortedYears` | src/js/ui.js:109 | the years come out strictly ascending, each year of the object exactly once |
| `Songs.SortedTracks` | src/js/ui.js:122-123 | a year's tracks come out in ascending default string order, exactly the tracks of its set |
| `Songs.CardYears` | src/js/ui.js:109-112 | the cards specified by `Cards`: there is one card per year of the object, in ascending year order |
| `Songs.CardTracks` | src/js/ui.js:121-126 | in `Cards`, each card lists exactly its year's tracks, sorted |
| `Songs.BuildCards` | src/js/ui.js:112-131 | the `forEach` over the sorted years produces the cards specified by `Cards` |
| `Songs.RenderSongs` | src/js/ui.js:80-133 | `renderSongs` produces the songs view of its input |
| `Content.ConditionsAreComplementary` | src/js/script.js:84-99 | the albums condition is the negation of the compilations condition; an item is a compilation exactly when its title includes one of the five markers |
| `Content.AlbumsAndCompilationsPartition` | src/js/script.js:84-99 | the two `filter` calls, `Albums` and `Compilations`, whose conditions use `Text.Contains` for `includes`: the data is a merge of the two lists: no item is lost or duplicated, and each list keeps the data's order |
| `Content.AlbumsAndCompilationsMembers` | src/js/script.js:84-99 | albums are the items with no marker in their title; compilations are the items with one |
| `Content.ContentView` | src/js/script.js:101-114 | "albums" and "compilations" show the matching items in data order; "songs" shows the songs view of all the data, unpartitioned; any other value clears the container |
| `Page.SearchPage.constructor` | src/js/script.js:122-130 | the page starts with the button disabled, the select empty and nothing loaded |
| `Page.SearchPage.OnLocalData` | src/js/script.js:133-136 | the background load caches the data and marks it loaded, changing nothing else |
| `Page.SearchPage.Change` | src/js/script.js:128-130 | after a change the button is disabled exactly when the value is empty |
| `Page.SearchPage.RenderContent` | src/js/script.js:83-115 | when the cached data is a list, the container shows its content view for the filter; otherwise the first `filter` call throws, whatever the filter value, and the container is unchanged |
| `Page.SearchPage.HandleSearch` | src/js/script.js:45-77 | see the list below the table |
| `Page.TwoSearches` | src/js/script.js:61-64 | two data searches in a row request `data.json` once; the second renders from what the first cached, or shows the error message again when that was not a list |
| `Api.FetchLocalData` | src/js/api.js:20-36 | a failed fetch gives the empty list; a file whose band record has `albuns` gives that list; any other file gives a value that is not a list |
| `Server.LocalDataAfterMerge` | server.js:37-42 | after a refresh the page loads the same data as before when the band's record existed, and a non-list when the refresh created the record |
| `Server.ArtistKey` | server.js:65 | the key has the name's length; each space becomes `_` and every other character becomes its lower-case form; so the key has no space and no upper-case letter, and has `_` exactly where the name has a space or `_` |
| `Server.ArtistKeyIdempotent` | server.js:65 | a key is its own key |
| `Server.ArtistKeyIgnoresCase` | server.js:65 | names that differ only in letter case, or in spaces against underscores, give the same key |
| `Server.BandNameGivesBandKey` | server.js:65 | "Led Zeppelin" and "led_zeppelin" both give the key `led_zeppelin` |
| `Server.HistoriaResponse` | server.js:57-76 | see the list below the table |
| `Server.MergeHistory` | server.js:37-42 | see the list below the table |
| `Server.MergeHistoryIdempotent` | server.js:37-42 | refreshing twice with the same text is the same as refreshing once |
| `Server.RouteAfterMerge` | server.js:65-71 | after a refresh, the band's key is answered with the trimmed text, or 404 when that text is blank |
| `Server.RouteAfterMergeOthers` | server.js:65-71 | a refresh changes nothing the route answers for other artists |
| `Server.DataFile.UpdateHistory` | server.js:17-53 | see the list below the table |
| `Server.StartServer` | server.js:80-85 | the refresh runs before the server listens, whatever its outcome; after a successful refresh the file becomes `MergeHistory` of the old contents, and with non-blank text the route answers the band's name and key with the trimmed text; after any failure the server starts on the old file |

`Page.SearchPage.HandleSearch` keeps the page's invariant. Its cases are:

- **Empty value:** the container is cleared and nothing is fetched.
- **"history":** the container shows the fetched text, or the error message if the fetch failed. The cached data is untouched.
- **Any other value:**
  - `data.json` is requested only if no data is cached yet;
  - the cached data is reused otherwise;
  - the content view of the cached data is shown when it is a list;
  - the error message is shown when it is not.
- **After any non-empty search:** the select is reset to "" and the button is disabled.

`Server.HistoriaResponse` answers as follows:

- A file that cannot be read or parsed gives 500.
- Otherwise the answer is 200 with the stored history exactly when the key is present and its history is non-empty.
- Otherwise the answer is 404.

`Server.MergeHistory` returns a store in which:

- the keys are the old keys plus `led_zeppelin`;
- `led_zeppelin`'s history is the trimmed text;
- `led_zeppelin`'s albums are kept, or absent when the record was created;
- every other artist is unchanged.

`Server.DataFile.UpdateHistory` behaves as follows:

- With an API key, a generated text, a readable file and a successful write, the file becomes `MergeHistory` of its old contents.
- A missing key, a failed generation, an unreadable file or a failed write leaves the file unchanged.

## Left out

- HTML construction, `innerHTML`, document fragments and `smoothScrollToContent`. These are presentation and browser geometry. The container is modelled by the `View` value it shows.
- The `fetch` calls of `src/js/api.js`. The text `fetchHistory` resolves to is a parameter of `HandleSearch`. What `fetchLocalData` resolves to is a parameter of `HandleSearch` and `OnLocalData`, and `Api.FetchLocalData` computes it from the served file.
- `Api.FetchLocalData`: the served file is a JSON object. A top-level array, which the fallback would pass through as an album list, is not modelled.
- The interleaving of the background load in `initialize` with a concurrent `handleSearch`. Each handler is modelled as one atomic step, so the intermediate "Carregando..." state is overwritten before anything can observe it.
- The Google generative-text call, Express, CORS, `app.listen` and the file system. These are foreign libraries and I/O. The API key, the generated text, the readability of the file and the success of the write are parameters.
- JSON parsing and serialisation. `data.json` is modelled as an already-parsed map from keys to records. A file that cannot be read or parsed is `None`.
- Unicode. `toLowerCase`, `\s` and `trim` are modelled on ASCII: the whitespace is tab to carriage return, plus space. Non-ASCII letters keep their case, and non-ASCII whitespace such as U+00A0 is not trimmed.
- `Songs.SortedTracks`: orders by whole characters. JavaScript compares UTF-16 code units, which gives the same order only outside the surrogate range.
- `Songs.SortByYear`: years are integers. Missing or non-numeric years, for which the comparator returns `NaN`, are not modelled.
- `Server.HistoriaResponse`: a `historia` field is either absent or a string. Other JSON values, such as a number or an object, are not modelled. Neither are artist names that reach inherited properties such as `constructor`.
- `Server.DataFile.UpdateHistory`: a failed write leaves the file as it was. A partial write that corrupts the file is not modelled.
- `Server.DataFile.UpdateHistory`: `data.json` is assumed to be a JSON object. If the top-level value were an array, the `led_zeppelin` property would be dropped by serialisation.
- Side effects of the whole-list copy `[...data]`, and the fact that the route never modifies the store, need no statement. Sequences and maps are values in this model, so no operation can change its input.
