/** server.js: the history route GET /api/historia/:artista and the start-up
    refresh of the band's history in data.json. */
module Server {
  import opened Wrappers
  import opened Text
  import opened Records
  import opened Api

  /** artista.toLowerCase().replace(/ /g, '_'). */
  function ArtistKey(artista: string): (key: string)
    ensures |key| == |artista|
    ensures forall i :: 0 <= i < |key| ==> key[i] != ' ' && !IsUpper(key[i])
    ensures forall i :: 0 <= i < |key| ==> (key[i] == '_' <==> artista[i] == ' ' || artista[i] == '_')
    ensures forall i :: 0 <= i < |key| ==> key[i] == if artista[i] == ' ' then '_' else LowerChar(artista[i])
  {
    var lower := ToLower(artista);
    seq(|lower|, i requires 0 <= i < |lower| => if lower[i] == ' ' then '_' else lower[i])
  }

  /** A key is its own key, so a key can be passed in place of a name. */
  lemma {:induction false} ArtistKeyIdempotent(artista: string)
    ensures ArtistKey(ArtistKey(artista)) == ArtistKey(artista)
  {
    var key := ArtistKey(artista);
    ToLowerKeepsLower(key);
    assert forall i :: 0 <= i < |key| ==> ArtistKey(key)[i] == key[i];
  }

  /** Names that differ only in letter case or in spaces against underscores
      give the same key. */
  lemma ArtistKeyIgnoresCase(a: string, b: string)
    requires |a| == |b|
    requires forall i :: 0 <= i < |a| ==>
      LowerChar(a[i]) == LowerChar(b[i]) || (a[i] in " _" && b[i] in " _")
    ensures ArtistKey(a) == ArtistKey(b)
  {
    assert forall i :: 0 <= i < |a| ==> ArtistKey(a)[i] == ArtistKey(b)[i];
  }

  lemma BandNameGivesBandKey()
    ensures ArtistKey("Led Zeppelin") == BandKey
    ensures ArtistKey(BandKey) == BandKey
  {
    ArtistKeyIdempotent("Led Zeppelin");
    assert ArtistKey("Led Zeppelin") == "led_zeppelin";
  }

  /** The responses of the history route. */
  datatype Response =
    | Found(historia: string)   // 200 with { historia }
    | NotFound                  // 404
    | ServerError               // 500

  /** The history route on the store read from data.json (None when the file
      cannot be read or parsed): 200 when the artist's record exists and has a
      non-empty history, 404 otherwise. */
  function HistoriaResponse(file: Option<Store>, artista: string): (r: Response)
    ensures file.None? ==> r == ServerError
    ensures file.Some? ==>
      var key := ArtistKey(artista);
      (r.Found? <==> key in file.value && file.value[key].historia.Some? && file.value[key].historia.value != "")
      && (r.Found? ==> r.historia == file.value[key].historia.value)
      && (!r.Found? ==> r == NotFound)
  {
    match file
    case None => ServerError
    case Some(store) =>
      var artistKey := ArtistKey(artista);
      if artistKey in store && store[artistKey].historia.Some? && store[artistKey].historia.value != "" then
        Found(store[artistKey].historia.value)
      else
        NotFound
  }

  /** The store after the refresh with a generated text: the band's record,
      created empty when missing, gets the trimmed text as its history. */
  function MergeHistory(store: Store, newHistory: string): (r: Store)
    ensures r.Keys == store.Keys + {BandKey}
    ensures r[BandKey].historia == Some(Trim(newHistory))
    ensures r[BandKey].albuns == if BandKey in store then store[BandKey].albuns else None
    ensures forall k :: k in store && k != BandKey ==> r[k] == store[k]
  {
    var band := if BandKey in store then store[BandKey] else ArtistRecord(None, None);
    store[BandKey := band.(historia := Some(Trim(newHistory)))]
  }

  /** Refreshing twice with the same text is refreshing once. */
  lemma MergeHistoryIdempotent(store: Store, newHistory: string)
    ensures MergeHistory(MergeHistory(store, newHistory), newHistory) == MergeHistory(store, newHistory)
  {
    var once := MergeHistory(store, newHistory);
    var twice := MergeHistory(once, newHistory);
    assert twice.Keys == once.Keys;
    forall k | k in once ensures twice[k] == once[k] {
    }
  }

  /** After a refresh the route serves the new text under the band's key,
      unless the text is only whitespace, in which case it answers 404. */
  lemma RouteAfterMerge(store: Store, newHistory: string, artista: string)
    requires ArtistKey(artista) == BandKey
    ensures HistoriaResponse(Some(MergeHistory(store, newHistory)), artista)
         == if Trim(newHistory) == "" then NotFound else Found(Trim(newHistory))
  {
  }

  /** A refresh changes nothing the route serves for other artists. */
  lemma RouteAfterMergeOthers(store: Store, newHistory: string, artista: string)
    requires ArtistKey(artista) != BandKey
    ensures HistoriaResponse(Some(MergeHistory(store, newHistory)), artista)
         == HistoriaResponse(Some(store), artista)
  {
  }

  /** What the page loads from data.json after a refresh. When the band's
      record existed, the refresh keeps its albums and the page loads the same
      list as before. When the refresh had to create the record, the record
      has no albuns, and fetchLocalData falls back to the whole object, which
      is not a list. */
  lemma LocalDataAfterMerge(store: Store, newHistory: string)
    ensures BandKey in store ==>
      FetchLocalData(Some(MergeHistory(store, newHistory))) == FetchLocalData(Some(store))
    ensures BandKey !in store ==>
      FetchLocalData(Some(MergeHistory(store, newHistory))) == NotAList
  {
  }

  /** data.json as the server sees it: None when it cannot be read or parsed. */
  class DataFile {
    var contents: Option<Store>

    constructor (initial: Option<Store>)
      ensures contents == initial
    {
      contents := initial;
    }

    /** updateHistory. The outside effects are parameters: apiKey is
        GOOGLE_API_KEY, generated the text the model returns (None when the
        call fails) and writeOk whether writing the file succeeds. Any failure
        leaves the file as it was. */
    method UpdateHistory(apiKey: Option<string>, generated: Option<string>, writeOk: bool)
      modifies this
      ensures (apiKey.Some? && apiKey.value != "" && generated.Some? && old(contents).Some? && writeOk)
              ==> contents == Some(MergeHistory(old(contents).value, generated.value))
      ensures !(apiKey.Some? && apiKey.value != "" && generated.Some? && old(contents).Some? && writeOk)
              ==> contents == old(contents)
    {
      if apiKey.None? || apiKey.value == "" {
        return;
      }
      if generated.None? {
        return;
      }
      var newHistory := generated.value;
      if contents.None? {
        return;
      }
      var jsonData := contents.value;
      ghost var band := if BandKey in jsonData then jsonData[BandKey] else ArtistRecord(None, None);
      if BandKey !in jsonData {
        jsonData := jsonData[BandKey := ArtistRecord(None, None)];
      }
      assert jsonData[BandKey] == band;
      jsonData := jsonData[BandKey := jsonData[BandKey].(historia := Some(Trim(newHistory)))];
      assert jsonData == contents.value[BandKey := band.(historia := Some(Trim(newHistory)))];
      if writeOk {
        contents := Some(jsonData);
      }
    }
  }

  /** startServer: the refresh runs before the server listens, whatever its
      outcome. When it succeeds with a text that is not blank, the page's
      request for the band is answered with that text, trimmed; when any step
      fails, the error is swallowed and the server starts on the old file. */
  method StartServer(file: DataFile, apiKey: Option<string>, generated: Option<string>, writeOk: bool)
    modifies file
    ensures var ok := apiKey.Some? && apiKey.value != "" && generated.Some? && old(file.contents).Some? && writeOk;
      ok ==> file.contents == Some(MergeHistory(old(file.contents).value, generated.value))
    ensures var ok := apiKey.Some? && apiKey.value != "" && generated.Some? && old(file.contents).Some? && writeOk;
      ok && Trim(generated.value) != "" ==>
        HistoriaResponse(file.contents, BandKey) == Found(Trim(generated.value))
        && HistoriaResponse(file.contents, "Led Zeppelin") == Found(Trim(generated.value))
    ensures var ok := apiKey.Some? && apiKey.value != "" && generated.Some? && old(file.contents).Some? && writeOk;
      !ok ==> file.contents == old(file.contents)
  {
    var ok := apiKey.Some? && apiKey.value != "" && generated.Some? && file.contents.Some? && writeOk;
    file.UpdateHistory(apiKey, generated, writeOk);
    if ok {
      BandNameGivesBandKey();
      RouteAfterMerge(old(file.contents).value, generated.value, BandKey);
      RouteAfterMerge(old(file.contents).value, generated.value, "Led Zeppelin");
    }
  }
}
