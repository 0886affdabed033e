/** The records of the data file: per artist key a history text and a list of
    albums. */
module Records {
  import opened Wrappers

  /** One element of an artist's `albuns` list. */
  datatype Album = Album(album: string, year: int, description: string, tracks: seq<string>)

  /** The value stored under an artist key. Both fields may be missing: the
      startup update creates an entry as an empty object before it sets
      `historia`. */
  datatype ArtistRecord = ArtistRecord(historia: Option<string>, albuns: Option<seq<Album>>)

  /** The parsed data.json: artist keys to their records. */
  type Store = map<string, ArtistRecord>

  /** The key of the band's record, written by the server's start-up refresh
      and read by the page's data load. */
  const BandKey: string := "led_zeppelin"
}
