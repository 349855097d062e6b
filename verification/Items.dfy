/** Rows of the items table and the statements that write them. */
module Items {
  import opened Basics
  import opened Runes

  /** The status column; `Errored` is the table's 'error'. */
  datatype Status = Queued | Downloading | Ready | Evicted | Errored

  /** One row. A NULL size_bytes or completed_at reads as 0, the way every query coalesces it. */
  datatype Row = Row(
    source: string,
    key: string,
    title: Str,
    container: Str,
    size: int,
    done: int,
    status: Status,
    localPath: Option<Str>,
    completedAt: int)

  /** The row Queue inserts. */
  function NewRow(source: string, key: string, title: Str, container: Str, size: int): Row {
    Row(source, key, title, container, size, 0, Queued, None, 0)
  }

  /** Queue's ON CONFLICT clause: the descriptive columns always change, the status only from 'error'. */
  function Requeue(r: Row, item: Row): Row {
    r.(title := item.title, container := item.container, size := item.size,
       status := if r.status == Errored then Queued else r.status)
  }

  function MarkDownloading(r: Row, done: int): Row { r.(status := Downloading, done := done) }

  function FlushProgress(r: Row, done: int): Row { r.(done := done) }

  function MarkError(r: Row): Row { r.(status := Errored) }

  /** RecordReady's ON CONFLICT clause. */
  function RecordReady(r: Row, title: Str, container: Str, path: Str, size: int, now: int): Row {
    r.(title := title, container := container, size := size, done := size, localPath := Some(path),
       status := Ready, completedAt := now)
  }

  function MarkEvicted(r: Row): Row { r.(status := Evicted, localPath := None) }

  function ResetStale(r: Row): Row { if r.status == Downloading then r.(status := Queued) else r }
}
