/**
 * The hosted database and blob store, as far as the client's code can observe
 * them: append-only tables of inserted rows, the log of stored-procedure calls
 * with the totals they produce, and a storage bucket that maps paths to files.
 * Whether a request succeeds is decided by the service; every operation that
 * talks to it takes that reply as a parameter.
 */
module Backend {
  import opened Types
  import opened PlayerStats

  /** A row as the service returns it after an insert: the id it assigned, and the row. */
  datatype Stored<R> = Stored(id: string, row: R)

  /** A table that only ever grows (one batch insert is one request: all rows or none). */
  class Table<R> {
    var rows: seq<R>

    constructor ()
      ensures rows == []
    {
      rows := [];
    }

    method Insert(batch: seq<R>)
      modifies this
      ensures rows == old(rows) + batch
    {
      rows := rows + batch;
    }
  }

  /** The stored-procedure calls received so far, and the totals they have produced. */
  class StatsStore {
    var calls: seq<StatsCall>
    var totals: map<string, StatsRecord>
    ghost var initial: map<string, StatsRecord>

    /** The totals are always the initial ones with every received call applied in order. */
    ghost predicate Valid()
      reads this
    {
      totals == ApplyCalls(initial, calls)
    }

    constructor (existing: map<string, StatsRecord>)
      ensures Valid() && calls == [] && totals == existing && initial == existing
    {
      calls, totals, initial := [], existing, existing;
    }

    method Call(c: StatsCall)
      requires Valid()
      modifies this
      ensures Valid() && initial == old(initial)
      ensures calls == old(calls) + [c]
      ensures totals == ApplyCall(old(totals), c)
    {
      calls := calls + [c];
      totals := ApplyCall(totals, c);
      assert calls[..|calls| - 1] == old(calls);
    }
  }

  /** The storage bucket 'cricket-syndicate': one file per path. */
  class Bucket {
    var objects: map<string, FileInfo>

    constructor ()
      ensures objects == map[]
    {
      objects := map[];
    }

    /** An upload with `upsert: true`: a file already at the path is replaced. */
    method Upload(path: string, file: FileInfo)
      modifies this
      ensures objects == old(objects)[path := file]
    {
      objects := objects[path := file];
    }
  }
}
