/** The page controller of src/js/script.js: the filter select, the search
    button, the cached album data and the card container, and the handlers
    that change them. */
module Page {
  import opened Wrappers
  import opened Content
  import opened Api
  import Songs

  /** The message renderError shows when a search fails. */
  const SearchFailed: string :=
    "Desculpe, não foi possível carregar o conteúdo solicitado. Verifique o console para mais detalhes."

  class SearchPage {
    /** filterSelect.value */
    var filterValue: string
    /** searchButton.disabled */
    var buttonDisabled: bool
    /** The module-level allData and dataLoaded. allData holds whatever
        fetchLocalData resolved to, which need not be a list. */
    var allData: LocalData
    var dataLoaded: bool
    /** What cardContainer shows. */
    var container: View
    /** How many times handleSearch has requested data.json and the history
        route. */
    ghost var localRequests: nat
    ghost var historyRequests: nat

    /** The button is enabled exactly when a filter is chosen, and nothing is
        cached before the data has been loaded. */
    predicate Valid()
      reads this
    {
      (buttonDisabled <==> filterValue == "")
      && (!dataLoaded ==> allData == AlbumList([]))
    }

    /** initialize: the button starts disabled, with the select on its empty
        option and nothing loaded yet; the background load of the data is
        delivered later through OnLocalData. */
    constructor ()
      ensures Valid()
      ensures filterValue == "" && buttonDisabled
      ensures allData == AlbumList([]) && !dataLoaded && container == Cleared
      ensures localRequests == 0 && historyRequests == 0
    {
      filterValue := "";
      buttonDisabled := true;
      allData := AlbumList([]);
      dataLoaded := false;
      container := Cleared;
      localRequests := 0;
      historyRequests := 0;
    }

    /** The callback of the background fetchLocalData started by initialize:
        the data is cached and marked as loaded. */
    method OnLocalData(data: LocalData)
      modifies this
      requires Valid()
      ensures Valid()
      ensures allData == data && dataLoaded
      ensures filterValue == old(filterValue) && buttonDisabled == old(buttonDisabled)
      ensures container == old(container)
      ensures localRequests == old(localRequests) && historyRequests == old(historyRequests)
    {
      allData := data;
      dataLoaded := true;
    }

    /** The change listener of the select: the button is enabled exactly when
        a non-empty value is chosen. */
    method Change(value: string)
      modifies this
      requires Valid()
      ensures Valid()
      ensures filterValue == value && (buttonDisabled <==> value == "")
      ensures allData == old(allData) && dataLoaded == old(dataLoaded)
      ensures container == old(container)
      ensures localRequests == old(localRequests) && historyRequests == old(historyRequests)
    {
      filterValue := value;
      buttonDisabled := value == "";
    }

    /** renderContent: fill the container from the cached data, as specified
        by Content.ContentView; the method runs the songs case through the
        RenderSongs method. Both filter calls come before the switch, so when
        allData is not a list they throw (ok is false) whatever the filter
        value, and the container is left as it was. */
    method RenderContent(filterType: string) returns (ok: bool)
      modifies this`container
      ensures ok <==> allData.AlbumList?
      ensures ok ==> container == ContentView(filterType, allData.albums)
      ensures !ok ==> container == old(container)
    {
      if allData.NotAList? {
        return false;
      }
      ok := true;
      var data := allData.albums;
      var albums := Albums(data);
      var compilations := Compilations(data);
      match filterType
      case "albums" =>
        container := AlbumCards(albums);
      case "compilations" =>
        container := AlbumCards(compilations);
      case "songs" =>
        var cards := Songs.RenderSongs(data);
        container := SongCards(cards);
      case _ =>
        container := Cleared;
    }

    /** handleSearch. The results of the two fetches are parameters: history
        is the text fetchHistory resolves to, or None when it throws; local is
        what fetchLocalData resolves to, used only if the data is not cached
        yet. A renderContent that throws ends in the error message. */
    method HandleSearch(history: Option<string>, local: LocalData)
      modifies this
      requires Valid()
      ensures Valid()
      // No filter chosen: the container is cleared and nothing else happens.
      ensures old(filterValue) == "" ==>
        container == Cleared && filterValue == "" && buttonDisabled == old(buttonDisabled)
        && allData == old(allData) && dataLoaded == old(dataLoaded)
        && localRequests == old(localRequests) && historyRequests == old(historyRequests)
      // The history is fetched from the server and shown, or the error message.
      ensures old(filterValue) == "history" ==>
        container == (if history.Some? then HistoryCard(history.value) else ErrorMessage(SearchFailed))
        && allData == old(allData) && dataLoaded == old(dataLoaded)
        && localRequests == old(localRequests) && historyRequests == old(historyRequests) + 1
      // Any other filter: the data is requested once and cached, then
      // rendered; cached data that is not a list gives the error message.
      ensures old(filterValue) != "" && old(filterValue) != "history" ==>
        dataLoaded
        && allData == (if old(dataLoaded) then old(allData) else local)
        && localRequests == old(localRequests) + (if old(dataLoaded) then 0 else 1)
        && historyRequests == old(historyRequests)
        && container == (if allData.AlbumList? then ContentView(old(filterValue), allData.albums)
                         else ErrorMessage(SearchFailed))
      // After a search the select is reset and the button disabled.
      ensures old(filterValue) != "" ==> filterValue == "" && buttonDisabled
    {
      var filterType := filterValue;
      if filterType == "" {
        container := Cleared;
        return;
      }
      container := Loading;
      if filterType == "history" {
        historyRequests := historyRequests + 1;
        match history
        case Some(historyText) =>
          container := HistoryCard(historyText);
        case None =>
          container := ErrorMessage(SearchFailed);
      } else {
        if !dataLoaded {
          localRequests := localRequests + 1;
          allData := local;
          dataLoaded := true;
        }
        var ok := RenderContent(filterType);
        if !ok {
          container := ErrorMessage(SearchFailed);
        }
      }
      filterValue := "";
      buttonDisabled := true;
    }
  }

  /** Once any search other than the history has run, later searches reuse
      the cached data: two searches in a row request data.json at most once,
      and the second one renders from what the first one cached. When that
      was not a list, the second search fails as the first one did. */
  method TwoSearches(page: SearchPage, first: string, second: string, local1: LocalData, local2: LocalData)
    modifies page
    requires page.Valid() && !page.dataLoaded
    requires first != "" && first != "history" && second != "" && second != "history"
    ensures page.localRequests == old(page.localRequests) + 1
    ensures page.allData == local1
    ensures page.container == if local1.AlbumList? then ContentView(second, local1.albums)
                              else ErrorMessage(SearchFailed)
  {
    page.Change(first);
    page.HandleSearch(None, local1);
    page.Change(second);
    page.HandleSearch(None, local2);
  }
}
