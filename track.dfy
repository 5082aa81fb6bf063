/** The track record: an identifier, a display title and the location of the
    audio file. It carries no behaviour of its own. */
module TrackModel {

  /** A UUID, as its 128-bit value. */
  newtype Uuid = x: int | 0 <= x < 0x1_0000_0000_0000_0000_0000_0000_0000_0000

  /** A file URL, compared as the string it denotes. */
  type Url = string

  datatype Track = Track(id: Uuid, title: string, url: Url)
}
