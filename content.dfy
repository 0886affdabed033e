/** What renderContent of src/js/script.js puts in the card container for a
    filter value: the studio albums, the compilations, or the songs view of
    all the albums. */
module Content {
  import opened Text
  import opened Records
  import Seqs
  import Songs

  /** The title fragments that mark an album as a compilation. */
  const CompilationMarkers: seq<string> :=
    ["Box Set", "Remasters", "Boxed Set", "Early Days and Latter Days", "Mothership"]

  /** The condition of the compilations filter: the title includes one of the
      markers. */
  predicate IsCompilation(item: Album) {
    Contains(item.album, "Box Set")
    || Contains(item.album, "Remasters")
    || Contains(item.album, "Boxed Set")
    || Contains(item.album, "Early Days and Latter Days")
    || Contains(item.album, "Mothership")
  }

  /** The condition of the albums filter, written as the source writes it: the
      title includes none of the markers. */
  predicate IsAlbum(item: Album) {
    !Contains(item.album, "Box Set")
    && !Contains(item.album, "Remasters")
    && !Contains(item.album, "Boxed Set")
    && !Contains(item.album, "Early Days and Latter Days")
    && !Contains(item.album, "Mothership")
  }

  /** The two conditions are complementary, and a compilation is exactly an
      item whose title includes some marker. */
  lemma ConditionsAreComplementary(item: Album)
    ensures IsAlbum(item) <==> !IsCompilation(item)
    ensures IsCompilation(item) <==> exists m :: m in CompilationMarkers && Contains(item.album, m)
  {
    if IsCompilation(item) {
      var m := if Contains(item.album, "Box Set") then "Box Set"
        else if Contains(item.album, "Remasters") then "Remasters"
        else if Contains(item.album, "Boxed Set") then "Boxed Set"
        else if Contains(item.album, "Early Days and Latter Days") then "Early Days and Latter Days"
        else "Mothership";
      assert m in CompilationMarkers && Contains(item.album, m);
    }
  }

  /** allData.filter with the albums condition. */
  function Albums(allData: seq<Album>): seq<Album> {
    Seqs.Filter(IsAlbum, allData)
  }

  /** allData.filter with the compilations condition. */
  function Compilations(allData: seq<Album>): seq<Album> {
    Seqs.Filter(IsCompilation, allData)
  }

  /** Every item of the data lands in exactly one of the two lists, each list
      keeps the order of the data, and nothing is lost or duplicated. */
  lemma AlbumsAndCompilationsPartition(allData: seq<Album>)
    ensures Seqs.Interleaves(allData, Albums(allData), Compilations(allData))
    ensures multiset(allData) == multiset(Albums(allData)) + multiset(Compilations(allData))
    ensures Seqs.Subsequence(Albums(allData), allData) && Seqs.Subsequence(Compilations(allData), allData)
  {
    forall item ensures IsCompilation(item) == !IsAlbum(item) {
      ConditionsAreComplementary(item);
    }
    Seqs.FilterPartition(IsAlbum, IsCompilation, allData);
    Seqs.InterleavesMultiset(allData, Albums(allData), Compilations(allData));
    Seqs.InterleavesSubsequences(allData, Albums(allData), Compilations(allData));
  }

  /** Which items each list holds. */
  lemma AlbumsAndCompilationsMembers(allData: seq<Album>, item: Album)
    ensures item in Albums(allData) <==> item in allData && !IsCompilation(item)
    ensures item in Compilations(allData) <==> item in allData && IsCompilation(item)
  {
    ConditionsAreComplementary(item);
    Seqs.FilterMembers(IsAlbum, allData);
    Seqs.FilterMembers(IsCompilation, allData);
  }

  /** What the card container shows. */
  datatype View =
    | Cleared
    | Loading
    | HistoryCard(text: string)
    | AlbumCards(items: seq<Album>)
    | SongCards(cards: seq<Songs.YearCard>)
    | ErrorMessage(message: string)

  /** The container after renderContent(filterType) on allData: "albums" and
      "compilations" list the matching items in data order, "songs" shows the
      songs view of all the data, and any other value clears it. */
  function ContentView(filterType: string, allData: seq<Album>): (v: View)
    ensures filterType == "albums" ==>
      v.AlbumCards? && Seqs.Subsequence(v.items, allData)
      && forall item :: item in v.items <==> item in allData && !IsCompilation(item)
    ensures filterType == "compilations" ==>
      v.AlbumCards? && Seqs.Subsequence(v.items, allData)
      && forall item :: item in v.items <==> item in allData && IsCompilation(item)
    ensures filterType == "songs" ==> v == SongCards(Songs.SongsView(allData))
    ensures filterType != "albums" && filterType != "compilations" && filterType != "songs" ==> v == Cleared
  {
    AlbumsAndCompilationsPartition(allData);
    forall item ensures (item in Albums(allData) <==> item in allData && !IsCompilation(item))
                     && (item in Compilations(allData) <==> item in allData && IsCompilation(item)) {
      AlbumsAndCompilationsMembers(allData, item);
    }
    match filterType
    case "albums" => AlbumCards(Albums(allData))
    case "compilations" => AlbumCards(Compilations(allData))
    case "songs" => SongCards(Songs.SongsView(allData))
    case _ => Cleared
  }
}
