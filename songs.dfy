/** The "songs" view of src/js/ui.js: albums are sorted by year, their tracks
    are visited in that order, a track is kept under its album's year only the
    first time its normalised name is seen, and the years and the tracks within
    a year are then put in order for display. */
module Songs {
  import opened Text
  import opened Records
  import Seqs

  // ---------------------------------------------------------------------------
  // Track-name normalisation
  // ---------------------------------------------------------------------------

  /** A character that the pattern /[^a-z0-9\s]/g leaves in place. */
  predicate IsKept(c: char) {
    ('a' <= c <= 'z') || ('0' <= c <= '9') || IsSpace(c)
  }

  /** normalizeTrackName: lower-case, drop every character outside a-z, 0-9
      and whitespace, then trim. */
  function NormalizeTrackName(name: string): (r: string)
    ensures forall c :: c in r ==> IsKept(c)
    ensures Trimmed(r)
  {
    var kept := Seqs.Filter(IsKept, ToLower(name));
    Seqs.FilterMembers(IsKept, ToLower(name));
    assert forall c :: c in Trim(kept) ==> IsKept(c) by {
      forall c | c in Trim(kept) ensures IsKept(c) {
        TrimKeepsCharacters(kept, c);
      }
    }
    Trim(kept)
  }

  /** A normalised name normalises to itself. */
  lemma NormalizeIdempotent(name: string)
    ensures NormalizeTrackName(NormalizeTrackName(name)) == NormalizeTrackName(name)
  {
    var r := NormalizeTrackName(name);
    ToLowerKeepsLower(r);
    Seqs.FilterKeepsAll(IsKept, r);
    TrimLeavesTrimmed(r);
  }

  // ---------------------------------------------------------------------------
  // Stable sort of the albums by year
  // ---------------------------------------------------------------------------

  predicate SortedByYear(s: seq<Album>) {
    forall i, j :: 0 <= i < j < |s| ==> s[i].year <= s[j].year
  }

  /** The albums of s from year y, in their order in s. */
  function YearSlice(s: seq<Album>, y: int): seq<Album> {
    if s == [] then [] else (if s[0].year == y then [s[0]] else []) + YearSlice(s[1..], y)
  }

  lemma YearSliceCons(a: Album, s: seq<Album>, y: int)
    ensures YearSlice([a] + s, y) == (if a.year == y then [a] else []) + YearSlice(s, y)
  {
    assert ([a] + s)[1..] == s;
  }

  /** x placed in front of the first album of s that is not older than it. */
  function InsertByYear(x: Album, s: seq<Album>): (r: seq<Album>)
    requires SortedByYear(s)
    ensures SortedByYear(r)
    ensures multiset(r) == multiset(s) + multiset{x}
  {
    if s == [] || x.year <= s[0].year then [x] + s
    else
      var rest := InsertByYear(x, s[1..]);
      InsertBehindHead(x, s, rest);
      [s[0]] + rest
  }

  lemma InsertBehindHead(x: Album, s: seq<Album>, rest: seq<Album>)
    requires SortedByYear(s) && s != [] && s[0].year < x.year
    requires SortedByYear(rest) && multiset(rest) == multiset(s[1..]) + multiset{x}
    ensures SortedByYear([s[0]] + rest)
    ensures multiset([s[0]] + rest) == multiset(s) + multiset{x}
  {
    assert s == [s[0]] + s[1..];
    forall i | 0 <= i < |rest| ensures s[0].year <= rest[i].year {
      assert rest[i] in multiset(rest);
      if rest[i] != x {
        assert rest[i] in s[1..];
      }
    }
  }

  /** Inserting x adds it in front of the albums of its own year and leaves the
      order of every year as it was. */
  lemma {:induction false} InsertKeepsYearOrder(x: Album, s: seq<Album>, y: int)
    requires SortedByYear(s)
    ensures YearSlice(InsertByYear(x, s), y) == (if x.year == y then [x] else []) + YearSlice(s, y)
    decreases |s|
  {
    if s == [] || x.year <= s[0].year {
      YearSliceCons(x, s, y);
    } else {
      var rest := InsertByYear(x, s[1..]);
      InsertKeepsYearOrder(x, s[1..], y);
      YearSliceCons(s[0], rest, y);
      YearSliceCons(s[0], s[1..], y);
      assert s == [s[0]] + s[1..];
    }
  }

  /** [...data].sort((a, b) => a.year - b.year) with a stable sort: a copy of
      data, ordered by year, in which the albums of each year keep their
      relative order. */
  function SortByYear(data: seq<Album>): (r: seq<Album>)
    ensures SortedByYear(r)
    ensures multiset(r) == multiset(data)
  {
    if data == [] then []
    else
      assert data == [data[0]] + data[1..];
      InsertByYear(data[0], SortByYear(data[1..]))
  }

  /** The sort is stable: the albums of each year come out in their input
      order. */
  lemma {:induction false} SortByYearIsStable(data: seq<Album>, y: int)
    ensures YearSlice(SortByYear(data), y) == YearSlice(data, y)
    decreases |data|
  {
    if data != [] {
      SortByYearIsStable(data[1..], y);
      InsertKeepsYearOrder(data[0], SortByYear(data[1..]), y);
      YearSliceCons(data[0], data[1..], y);
      assert data == [data[0]] + data[1..];
    }
  }

  /** Sortedness and the per-year order determine the result: SortByYear is
      the one stable ordering of its input by year. */
  lemma {:induction false} StableSortIsUnique(a: seq<Album>, b: seq<Album>)
    requires SortedByYear(a) && SortedByYear(b)
    requires forall y :: YearSlice(a, y) == YearSlice(b, y)
    ensures a == b
    decreases |a| + |b|
  {
    if a == [] && b == [] {
    } else if a == [] {
      YearSliceHead(b);
      assert false;
    } else if b == [] {
      YearSliceHead(a);
      assert false;
    } else {
      assert a == [a[0]] + a[1..];
      assert b == [b[0]] + b[1..];
      var m := a[0].year;
      YearSliceCons(a[0], a[1..], m);
      YearSliceCons(b[0], b[1..], b[0].year);
      if b[0].year < m {
        YearSliceMissing(a, b[0].year);
        assert false;
      } else if m < b[0].year {
        YearSliceMissing(b, m);
        assert false;
      } else {
        assert YearSlice(a, m) == YearSlice(b, m);
        assert YearSlice(a, m)[0] == a[0];
        assert a[0] == b[0];
        forall y ensures YearSlice(a[1..], y) == YearSlice(b[1..], y) {
          YearSliceCons(a[0], a[1..], y);
          YearSliceCons(b[0], b[1..], y);
          var sa, sb := YearSlice(a[1..], y), YearSlice(b[1..], y);
          var head := if a[0].year == y then [a[0]] else [];
          assert YearSlice(a, y) == head + sa;
          assert YearSlice(b, y) == head + sb;
          assert (head + sa)[|head|..] == sa;
          assert (head + sb)[|head|..] == sb;
        }
        StableSortIsUnique(a[1..], b[1..]);
      }
    }
  }

  /** The year of the first album has albums. */
  lemma YearSliceHead(s: seq<Album>)
    requires s != []
    ensures YearSlice(s, s[0].year) != []
  {
  }

  /** No album of a sorted list is older than its first one. */
  lemma {:induction false} YearSliceMissing(s: seq<Album>, y: int)
    requires SortedByYear(s) && s != [] && y < s[0].year
    ensures YearSlice(s, y) == []
    decreases |s|
  {
    if |s| > 1 {
      YearSliceMissing(s[1..], y);
    }
  }

  // ---------------------------------------------------------------------------
  // One pass over the tracks: the first occurrence of each name wins
  // ---------------------------------------------------------------------------

  /** One visit of the inner loop: a track, its normalised name and the year
      of its album. */
  datatype Entry = Entry(year: int, track: string, name: string)

  function Visit(year: int, track: string): Entry {
    Entry(year, track, NormalizeTrackName(track))
  }

  /** The visits of the inner loop over the tracks of an album of year y. */
  function Visits(y: int, tracks: seq<string>): (r: seq<Entry>)
    ensures |r| == |tracks|
    ensures forall k :: 0 <= k < |r| ==> r[k] == Visit(y, tracks[k])
  {
    if tracks == [] then [] else Visits(y, tracks[..|tracks| - 1]) + [Visit(y, tracks[|tracks| - 1])]
  }

  function TrackEntries(a: Album): seq<Entry> {
    Visits(a.year, a.tracks)
  }

  /** The visits of the nested loops over albums, in visiting order. */
  function Entries(albums: seq<Album>): seq<Entry> {
    if albums == [] then [] else Entries(albums[..|albums| - 1]) + TrackEntries(albums[|albums| - 1])
  }

  lemma EntriesStep(albums: seq<Album>, i: int)
    requires 0 <= i < |albums|
    ensures Entries(albums[..i + 1]) == Entries(albums[..i]) + TrackEntries(albums[i])
  {
    assert albums[..i + 1][..i] == albums[..i];
  }

  /** One more visit of the inner loop. */
  lemma VisitStep(before: seq<Entry>, y: int, tracks: seq<string>, j: int)
    requires 0 <= j < |tracks|
    ensures before + Visits(y, tracks[..j + 1]) == (before + Visits(y, tracks[..j])) + [Visit(y, tracks[j])]
  {
    assert tracks[..j + 1][..j] == tracks[..j];
  }

  /** The normalised names visited in es. */
  function Norms(es: seq<Entry>): set<string> {
    set e | e in es :: e.name
  }

  /** Track t added to the set of year y, the set being created if needed. */
  function AddSong(m: map<int, set<string>>, y: int, t: string): map<int, set<string>> {
    m[y := (if y in m then m[y] else {}) + {t}]
  }

  /** The source's two steps, creating the set of a new year and then adding
      to it, amount to AddSong. */
  lemma CreateThenAdd(m: map<int, set<string>>, y: int, t: string)
    ensures var c := if y in m then m else m[y := {}];
            c[y := c[y] + {t}] == AddSong(m, y, t)
  {
  }

  /** The songsByYear object after the visits es. */
  function Group(es: seq<Entry>): map<int, set<string>> {
    if es == [] then map[]
    else
      var e := es[|es| - 1];
      var before := es[..|es| - 1];
      if e.name in Norms(before) then Group(before)
      else AddSong(Group(before), e.year, e.track)
  }

  /** One more visit: a track whose name was seen is skipped, any other is
      added under its year and its name becomes seen. */
  lemma GroupStep(done: seq<Entry>, e: Entry)
    ensures Group(done + [e]) == if e.name in Norms(done) then Group(done)
                                 else AddSong(Group(done), e.year, e.track)
    ensures Norms(done + [e]) == Norms(done) + {e.name}
  {
    var es := done + [e];
    assert es[..|es| - 1] == done;
    assert forall x :: x in es <==> x in done || x == e;
  }

  /** The inner forEach of renderSongs over the tracks of one album, starting
      from the state left by the visits prefix: processedSongs holds the
      normalised names seen so far, songsByYear the kept tracks per year. */
  method GroupTracks(album: Album, ghost prefix: seq<Entry>,
                     processed0: set<string>, byYear0: map<int, set<string>>)
    returns (processedSongs: set<string>, songsByYear: map<int, set<string>>)
    requires processed0 == Norms(prefix) && byYear0 == Group(prefix)
    ensures processedSongs == Norms(prefix + TrackEntries(album))
    ensures songsByYear == Group(prefix + TrackEntries(album))
  {
    processedSongs, songsByYear := processed0, byYear0;
    ghost var done := prefix;
    for j := 0 to |album.tracks|
      invariant done == prefix + Visits(album.year, album.tracks[..j])
      invariant processedSongs == Norms(done)
      invariant songsByYear == Group(done)
    {
      var track := album.tracks[j];
      var normalizedTrack := NormalizeTrackName(track);
      ghost var e := Entry(album.year, track, normalizedTrack);
      GroupStep(done, e);
      VisitStep(prefix, album.year, album.tracks, j);
      if normalizedTrack !in processedSongs {
        ghost var before := songsByYear;
        if album.year !in songsByYear {
          songsByYear := songsByYear[album.year := {}];
        }
        songsByYear := songsByYear[album.year := songsByYear[album.year] + {track}];
        processedSongs := processedSongs + {normalizedTrack};
        CreateThenAdd(before, album.year, track);
      }
      done := done + [e];
    }
    assert album.tracks[..|album.tracks|] == album.tracks;
  }

  /** The outer forEach of renderSongs over the year-sorted albums. */
  method GroupByYear(sortedData: seq<Album>) returns (songsByYear: map<int, set<string>>)
    ensures songsByYear == Group(Entries(sortedData))
  {
    var processedSongs: set<string> := {};
    songsByYear := map[];
    for i := 0 to |sortedData|
      invariant processedSongs == Norms(Entries(sortedData[..i]))
      invariant songsByYear == Group(Entries(sortedData[..i]))
    {
      processedSongs, songsByYear := GroupTracks(sortedData[i], Entries(sortedData[..i]), processedSongs, songsByYear);
      EntriesStep(sortedData, i);
    }
    assert sortedData[..|sortedData|] == sortedData;
  }

  /** Whether track t is kept under year y. */
  predicate Kept(m: map<int, set<string>>, y: int, t: string) {
    y in m && t in m[y]
  }

  /** No visit before position k of es has the name of es[k]. */
  predicate IsFirst(es: seq<Entry>, k: int)
    requires 0 <= k < |es|
  {
    forall i :: 0 <= i < k ==> es[i].name != es[k].name
  }

  /** Visit k of es is of track t in an album of year y, and is the first
      visit with that name. */
  predicate FirstVisit(es: seq<Entry>, k: int, y: int, t: string) {
    0 <= k < |es| && es[k].year == y && es[k].track == t && IsFirst(es, k)
  }

  /** Before the last visit, being the first of its name means the same. */
  lemma FirstVisitInPrefix(done: seq<Entry>, e: Entry, k: int, y: int, t: string)
    requires 0 <= k < |done|
    ensures FirstVisit(done + [e], k, y, t) <==> FirstVisit(done, k, y, t)
  {
    var es := done + [e];
    assert forall i :: 0 <= i <= k ==> es[i] == done[i];
  }

  /** A track is kept under a year exactly when some visit is the first one with
      its normalised name and is of that track in an album of that year. */
  lemma {:induction false} KeptAreFirstVisits(es: seq<Entry>, y: int, t: string)
    ensures Kept(Group(es), y, t) <==> exists k :: FirstVisit(es, k, y, t)
    decreases |es|
  {
    if es != [] {
      var n := |es| - 1;
      var e := es[n];
      var done := es[..n];
      assert es == done + [e];
      KeptAreFirstVisits(done, y, t);
      GroupStep(done, e);
      if Kept(Group(es), y, t) {
        if Kept(Group(done), y, t) {
          var k :| FirstVisit(done, k, y, t);
          FirstVisitInPrefix(done, e, k, y, t);
        } else {
          forall i | 0 <= i < n ensures es[i].name != e.name {
            assert es[i] in done;
          }
          assert FirstVisit(es, n, y, t);
        }
      } else if exists k :: FirstVisit(es, k, y, t) {
        var k :| FirstVisit(es, k, y, t);
        if k < n {
          FirstVisitInPrefix(done, e, k, y, t);
        }
        assert false;
      }
    }
  }

  /** A name has at most one first visit. */
  lemma FirstVisitsOfANameAgree(es: seq<Entry>, k1: int, k2: int)
    requires 0 <= k1 < |es| && 0 <= k2 < |es| && IsFirst(es, k1) && IsFirst(es, k2)
    requires es[k1].name == es[k2].name
    ensures k1 == k2
  {
  }

  /** The names of the first visits. */
  function FirstNames(es: seq<Entry>): set<string> {
    set k | 0 <= k < |es| && IsFirst(es, k) :: es[k].name
  }

  /** Every name visited is the name of a first visit. */
  lemma {:induction false} FirstNamesCoverNames(es: seq<Entry>)
    ensures FirstNames(es) == Norms(es)
    decreases |es|
  {
    if es != [] {
      var n := |es| - 1;
      var e := es[n];
      var done := es[..n];
      assert es == done + [e];
      FirstNamesCoverNames(done);
      GroupStep(done, e);
      forall x | x in Norms(es) ensures x in FirstNames(es) {
        if x in Norms(done) {
          var k :| 0 <= k < n && IsFirst(done, k) && done[k].name == x;
          FirstVisitInPrefix(done, e, k, done[k].year, done[k].track);
        } else {
          forall i | 0 <= i < n ensures es[i].name != e.name {
            assert es[i] in done;
          }
          assert IsFirst(es, n);
        }
      }
    }
  }

  /** Every year of the output holds at least one track. */
  lemma {:induction false} GroupYearsNonEmpty(es: seq<Entry>)
    ensures forall y :: y in Group(es) ==> Group(es)[y] != {}
    decreases |es|
  {
    if es != [] {
      GroupYearsNonEmpty(es[..|es| - 1]);
    }
  }

  /** The years of the output are exactly the years of the albums that
      contributed a track seen for the first time. */
  lemma YearsAreThoseWithNewTracks(es: seq<Entry>, y: int)
    ensures y in Group(es) <==> exists k, t :: FirstVisit(es, k, y, t)
  {
    GroupYearsNonEmpty(es);
    if y in Group(es) {
      var t :| t in Group(es)[y];
      KeptAreFirstVisits(es, y, t);
    } else if exists k, t :: FirstVisit(es, k, y, t) {
      var k, t :| FirstVisit(es, k, y, t);
      KeptAreFirstVisits(es, y, t);
    }
  }

  /** Every visit comes from an album of the list, with that album's year, and
      carries the normalised name of its track. */
  lemma {:induction false} EntriesComeFromAlbums(albums: seq<Album>, e: Entry)
    requires e in Entries(albums)
    ensures e.name == NormalizeTrackName(e.track)
    ensures exists a :: a in albums && a.year == e.year && e.track in a.tracks
    decreases |albums|
  {
    var last := albums[|albums| - 1];
    var init := albums[..|albums| - 1];
    if e in Entries(init) {
      EntriesComeFromAlbums(init, e);
      var a :| a in init && a.year == e.year && e.track in a.tracks;
      assert a in albums;
    } else {
      var k :| 0 <= k < |TrackEntries(last)| && TrackEntries(last)[k] == e;
      assert last in albums && last.tracks[k] == e.track;
    }
  }

  /** Every track of every album is visited. */
  lemma {:induction false} AlbumsGiveEntries(albums: seq<Album>, a: Album, t: string)
    requires a in albums && t in a.tracks
    ensures Visit(a.year, t) in Entries(albums)
    decreases |albums|
  {
    var last := albums[|albums| - 1];
    var init := albums[..|albums| - 1];
    if a in init {
      AlbumsGiveEntries(init, a, t);
    } else {
      assert a == last;
      var k :| 0 <= k < |a.tracks| && a.tracks[k] == t;
      assert TrackEntries(last)[k] == Visit(a.year, t);
    }
  }

  // ---------------------------------------------------------------------------
  // renderSongs as a whole
  // ---------------------------------------------------------------------------

  /** The songsByYear object that renderSongs builds from data. */
  function SongsByYear(data: seq<Album>): map<int, set<string>> {
    Group(Entries(SortByYear(data)))
  }

  /** Output track strings are the input's own strings, listed under the year
      of an album that holds them. */
  lemma KeptTracksAreInputTracks(data: seq<Album>, y: int, t: string)
    requires Kept(SongsByYear(data), y, t)
    ensures exists a :: a in data && a.year == y && t in a.tracks
  {
    var sorted := SortByYear(data);
    var es := Entries(sorted);
    KeptIsFirstInYearOrder(data, y, t);
    var k :| FirstVisit(es, k, y, t);
    EntriesComeFromAlbums(sorted, es[k]);
    var a :| a in sorted && a.year == y && t in a.tracks;
    assert a in multiset(sorted);
  }

  /** No two kept tracks share a normalised name. */
  lemma KeptNamesAreDistinct(data: seq<Album>, y1: int, t1: string, y2: int, t2: string)
    requires Kept(SongsByYear(data), y1, t1) && Kept(SongsByYear(data), y2, t2)
    requires NormalizeTrackName(t1) == NormalizeTrackName(t2)
    ensures y1 == y2 && t1 == t2
  {
    var sorted := SortByYear(data);
    var es := Entries(sorted);
    KeptIsFirstInYearOrder(data, y1, t1);
    KeptIsFirstInYearOrder(data, y2, t2);
    var k1 :| FirstVisit(es, k1, y1, t1);
    var k2 :| FirstVisit(es, k2, y2, t2);
    EntriesComeFromAlbums(sorted, es[k1]);
    EntriesComeFromAlbums(sorted, es[k2]);
    FirstVisitsOfANameAgree(es, k1, k2);
  }

  /** Nothing is lost: every track name of the input is represented, after
      normalisation, by a kept track. */
  lemma EveryInputTrackIsRepresented(data: seq<Album>, a: Album, t: string)
    requires a in data && t in a.tracks
    ensures exists y, u :: Kept(SongsByYear(data), y, u) && NormalizeTrackName(u) == NormalizeTrackName(t)
  {
    var sorted := SortByYear(data);
    var es := Entries(sorted);
    assert a in multiset(data);
    AlbumsGiveEntries(sorted, a, t);
    assert NormalizeTrackName(t) in Norms(es);
    FirstNamesCoverNames(es);
    var k :| 0 <= k < |es| && IsFirst(es, k) && es[k].name == NormalizeTrackName(t);
    var y, u := es[k].year, es[k].track;
    assert FirstVisit(es, k, y, u);
    FirstVisitIsKept(data, k, y, u);
    EntriesComeFromAlbums(sorted, es[k]);
    assert NormalizeTrackName(u) == NormalizeTrackName(t);
  }

  /** The normalised names of the kept tracks. */
  function KeptNames(m: map<int, set<string>>): set<string> {
    set y, t | y in m && t in m[y] :: NormalizeTrackName(t)
  }

  /** The normalised names of all the input's tracks. */
  function InputNames(data: seq<Album>): set<string> {
    set a, t | a in data && t in a.tracks :: NormalizeTrackName(t)
  }

  /** De-duplication loses no song: the kept tracks have exactly the
      normalised names of the input. */
  lemma KeptNamesAreInputNames(data: seq<Album>)
    ensures KeptNames(SongsByYear(data)) == InputNames(data)
  {
    var m := SongsByYear(data);
    forall n | n in KeptNames(m) ensures n in InputNames(data) {
      var y, t :| y in m && t in m[y] && n == NormalizeTrackName(t);
      assert Kept(m, y, t);
      KeptTracksAreInputTracks(data, y, t);
      var a :| a in data && a.year == y && t in a.tracks;
    }
    forall n | n in InputNames(data) ensures n in KeptNames(m) {
      var a, t :| a in data && t in a.tracks && n == NormalizeTrackName(t);
      EveryInputTrackIsRepresented(data, a, t);
      var y, u :| Kept(m, y, u) && NormalizeTrackName(u) == n;
    }
  }

  /** Which track of a name is kept: the one of the first visit in the
      year-sorted order, under that visit's year. */
  lemma KeptIsFirstInYearOrder(data: seq<Album>, y: int, t: string)
    ensures Kept(SongsByYear(data), y, t) ==> exists k :: FirstVisit(Entries(SortByYear(data)), k, y, t)
    ensures (exists k :: FirstVisit(Entries(SortByYear(data)), k, y, t)) ==> Kept(SongsByYear(data), y, t)
  {
    KeptAreFirstVisits(Entries(SortByYear(data)), y, t);
  }

  lemma FirstVisitIsKept(data: seq<Album>, k: int, y: int, t: string)
    requires FirstVisit(Entries(SortByYear(data)), k, y, t)
    ensures Kept(SongsByYear(data), y, t)
  {
    var es := Entries(SortByYear(data));
    KeptAreFirstVisits(es, y, t);
    assert Kept(Group(es), y, t);
    assert Kept(SongsByYear(data), y, t) == Kept(Group(es), y, t);
  }

  // ---------------------------------------------------------------------------
  // Display order
  // ---------------------------------------------------------------------------

  predicate IsLeastYear(m: int, years: set<int>) {
    m in years && forall y :: y in years ==> m <= y
  }

  lemma SomeYear(years: set<int>)
    requires years != {}
    ensures exists y :: y in years
  {
    if forall y :: y !in years {
      assert false;
    }
  }

  lemma {:induction false} LeastYearExists(years: set<int>)
    requires years != {}
    ensures exists m :: IsLeastYear(m, years)
    decreases |years|
  {
    SomeYear(years);
    var x :| x in years;
    if years != {x} {
      LeastYearExists(years - {x});
      var m :| IsLeastYear(m, years - {x});
      var least := if x < m then x else m;
      forall y | y in years ensures least <= y {
        if y != x {
          assert y in years - {x};
        }
      }
      assert IsLeastYear(least, years);
    } else {
      assert IsLeastYear(x, years);
    }
  }

  /** Object.keys(songsByYear).sort((a, b) => a - b): the years in ascending
      order. */
  function SortedYears(years: set<int>): (r: seq<int>)
    ensures forall i, j :: 0 <= i < j < |r| ==> r[i] < r[j]
    ensures forall y :: y in r <==> y in years
    decreases |years|
  {
    if years == {} then []
    else
      LeastYearExists(years);
      var m :| IsLeastYear(m, years);
      var rest := SortedYears(years - {m});
      var r := [m] + rest;
      assert forall i :: 0 < i < |r| ==> r[i] == rest[i - 1];
      assert forall i :: 0 < i < |r| ==> m < r[i] by {
        forall i | 0 < i < |r| ensures m < r[i] {
          assert rest[i - 1] in years - {m};
        }
      }
      r
  }

  predicate IsLeastTrack(m: string, tracks: set<string>) {
    m in tracks && forall t :: t in tracks && t != m ==> LexLess(m, t)
  }

  lemma {:induction false} LeastTrackExists(tracks: set<string>)
    requires tracks != {}
    ensures exists m :: IsLeastTrack(m, tracks)
    decreases |tracks|
  {
    var x :| x in tracks;
    if tracks != {x} {
      LeastTrackExists(tracks - {x});
      var m :| IsLeastTrack(m, tracks - {x});
      LexLessTotal(x, m);
      if LexLess(x, m) {
        forall t | t in tracks && t != x ensures LexLess(x, t) {
          if t != m {
            assert t in tracks - {x};
            LexLessTransitive(x, m, t);
          }
        }
        assert IsLeastTrack(x, tracks);
      } else {
        forall t | t in tracks && t != m ensures LexLess(m, t) {
          if t != x {
            assert t in tracks - {x};
          }
        }
        assert IsLeastTrack(m, tracks);
      }
    } else {
      assert IsLeastTrack(x, tracks);
    }
  }

  lemma LeastTrackIsUnique(tracks: set<string>)
    ensures forall m1, m2 :: IsLeastTrack(m1, tracks) && IsLeastTrack(m2, tracks) ==> m1 == m2
  {
    forall m1, m2 | IsLeastTrack(m1, tracks) && IsLeastTrack(m2, tracks) ensures m1 == m2 {
      if m1 != m2 {
        LexLessAsymmetric(m1, m2);
      }
    }
  }

  /** Array.from(songsByYear[year]).sort(): the tracks of one year in the
      default string order. */
  function SortedTracks(tracks: set<string>): (r: seq<string>)
    ensures forall i, j :: 0 <= i < j < |r| ==> LexLess(r[i], r[j])
    ensures forall t :: t in r <==> t in tracks
    decreases |tracks|
  {
    if tracks == {} then []
    else
      LeastTrackExists(tracks);
      LeastTrackIsUnique(tracks);
      var m :| IsLeastTrack(m, tracks);
      var rest := SortedTracks(tracks - {m});
      var r := [m] + rest;
      assert forall i :: 0 < i < |r| ==> r[i] == rest[i - 1];
      assert forall i :: 0 < i < |r| ==> LexLess(m, r[i]) by {
        forall i | 0 < i < |r| ensures LexLess(m, r[i]) {
          assert rest[i - 1] in tracks - {m};
        }
      }
      r
  }

  /** One card of the songs view. */
  datatype YearCard = YearCard(year: int, tracks: seq<string>)

  /** The cards built from a songsByYear object: one per year, ascending, each
      listing that year's tracks in the default string order. */
  function Cards(byYear: map<int, set<string>>): seq<YearCard> {
    var years := SortedYears(byYear.Keys);
    seq(|years|, i requires 0 <= i < |years| => YearCard(years[i], SortedTracks(byYear[years[i]])))
  }

  /** There is one card per year of the object, in ascending order. */
  lemma CardYears(byYear: map<int, set<string>>)
    ensures forall i, j :: 0 <= i < j < |Cards(byYear)| ==> Cards(byYear)[i].year < Cards(byYear)[j].year
    ensures forall y :: y in byYear <==> exists i :: 0 <= i < |Cards(byYear)| && Cards(byYear)[i].year == y
  {
    var years := SortedYears(byYear.Keys);
    var cards := Cards(byYear);
    assert forall i :: 0 <= i < |cards| ==> cards[i].year == years[i];
    forall y | y in byYear ensures exists i :: 0 <= i < |cards| && cards[i].year == y {
      var i :| 0 <= i < |years| && years[i] == y;
      assert cards[i].year == y;
    }
  }

  /** Each card lists exactly the tracks of its year, in the default string
      order. */
  lemma CardTracks(byYear: map<int, set<string>>, i: int)
    requires 0 <= i < |Cards(byYear)|
    ensures Cards(byYear)[i].year in byYear
    ensures forall t :: t in Cards(byYear)[i].tracks <==> t in byYear[Cards(byYear)[i].year]
    ensures forall a, b :: 0 <= a < b < |Cards(byYear)[i].tracks| ==>
              LexLess(Cards(byYear)[i].tracks[a], Cards(byYear)[i].tracks[b])
  {
    var years := SortedYears(byYear.Keys);
    assert years[i] in byYear.Keys;
    assert Cards(byYear)[i] == YearCard(years[i], SortedTracks(byYear[years[i]]));
  }

  /** The cards renderSongs shows for data. */
  function SongsView(data: seq<Album>): seq<YearCard> {
    Cards(SongsByYear(data))
  }

  /** The last forEach of renderSongs: one card per year, in ascending
      order, with the year's tracks sorted. */
  method BuildCards(songsByYear: map<int, set<string>>) returns (cards: seq<YearCard>)
    ensures cards == Cards(songsByYear)
  {
    var sortedYears := SortedYears(songsByYear.Keys);
    cards := [];
    for i := 0 to |sortedYears|
      invariant |cards| == i
      invariant forall k :: 0 <= k < i ==> cards[k] == Cards(songsByYear)[k]
    {
      var year := sortedYears[i];
      assert year in songsByYear.Keys;
      cards := cards + [YearCard(year, SortedTracks(songsByYear[year]))];
    }
  }

  /** renderSongs without its HTML: sort a copy of data by year, group the
      tracks in one pass, then order the years and each year's tracks. */
  method RenderSongs(data: seq<Album>) returns (cards: seq<YearCard>)
    ensures cards == SongsView(data)
  {
    var sortedData := SortByYear(data);
    var songsByYear := GroupByYear(sortedData);
    cards := BuildCards(songsByYear);
  }
}
