/** What a source says about an item. */
module Catalog {
  import opened Runes

  /** `Misc` is the source's "other". */
  datatype Kind = Movie | Show | Season | Episode | Track | Misc

  datatype Item = Item(
    id: string,
    title: Str,
    kind: Kind,
    year: int,
    container: Str,
    size: int,
    showTitle: Str,
    season: int,
    episode: int,
    parentId: string)
}
