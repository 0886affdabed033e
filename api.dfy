/** The data load of src/js/api.js: what fetchLocalData resolves to for the
    data.json the site serves. */
module Api {
  import opened Wrappers
  import opened Records

  /** What fetchLocalData hands its caller: an album list, or the parsed
      object itself when it has no led_zeppelin.albuns (the fallback for an
      older layout), which is not a list. */
  datatype LocalData = AlbumList(albums: seq<Album>) | NotAList

  /** fetchLocalData on data.json as served: None when the request fails, the
      status is not ok or the body does not parse, all of which resolve to
      the empty list. */
  function FetchLocalData(file: Option<Store>): (d: LocalData)
    ensures file.None? ==> d == AlbumList([])
    ensures file.Some? ==>
      (d.AlbumList? <==> BandKey in file.value && file.value[BandKey].albuns.Some?)
      && (d.AlbumList? ==> d.albums == file.value[BandKey].albuns.value)
  {
    match file
    case None => AlbumList([])
    case Some(jsonData) =>
      if BandKey in jsonData && jsonData[BandKey].albuns.Some? then
        AlbumList(jsonData[BandKey].albuns.value)
      else
        NotAList
  }
}
