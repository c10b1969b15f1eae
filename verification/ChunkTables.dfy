/** Chunk files seen as the tables they were written from. */
module ChunkTables {
  import opened Types
  import opened ChunkIndex
  import opened Compaction
  import C = ChunkWriter
  import R = ChunkReader
  import T = ChunkRoundTrip
  import Merging
  import Memtable
  import Pruning

  /** The rows are the series of the table, each once. */
  ghost predicate RowsOf(rows: seq<C.Row>, t: Memtable.Table) {
    && (forall i :: 0 <= i < |rows| ==> rows[i].key in t && rows[i].points == t[rows[i].key])
    && (forall k :: k in t ==> exists i :: 0 <= i < |rows| && rows[i].key == k)
    && (forall i, j :: 0 <= i < j < |rows| ==> rows[i].key != rows[j].key)
  }

  lemma AllLive(rows: seq<C.Row>, t: Memtable.Table)
    requires RowsOf(rows, t) && Memtable.TableOk(t)
    ensures T.Live(rows) == rows
  {
    LiveSame(rows);
  }

  lemma LiveNone()
    ensures T.Live([]) == []
  {
  }

  lemma LiveSnoc(rows: seq<C.Row>, front: seq<C.Row>, row: C.Row)
    requires rows != [] && front == rows[..|rows| - 1] && row == rows[|rows| - 1] && row.points != []
    ensures T.Live(rows) == T.Live(front) + [row] && rows == front + [row]
  {
  }

  lemma {:induction false} LiveSame(rows: seq<C.Row>)
    requires forall i :: 0 <= i < |rows| ==> rows[i].points != []
    ensures T.Live(rows) == rows
  {
    hide T.Live;
    if rows == [] {
      LiveNone();
    } else {
      var n := |rows| - 1;
      var front, row := rows[..n], rows[n];
      LiveSame(front);
      LiveSnoc(rows, front, row);
    }
  }

  lemma LookupTable(rows: seq<C.Row>, t: Memtable.Table, key: SeriesKey)
    requires RowsOf(rows, t) && Memtable.TableOk(t)
    ensures T.Lookup(rows, key) == Memtable.Series(t, key)
  {
    hide T.Lookup, T.Live;
    T.LookupIs(rows, key);
    AllLive(rows, t);
    if key in t {
      var i :| 0 <= i < |rows| && rows[i].key == key;
      assert rows[i] in rows;
    } else {
      assert forall r :: r in rows ==> r.key in t;
    }
  }

  /** What reading a series of a file streams; no result is no points. */
  function Streamed(r: Result<Option<seq<DataPoint>>, R.ReadError>): Option<seq<DataPoint>> {
    match r
    case Err(_) => None
    case Ok(None) => Some([])
    case Ok(Some(ps)) => Some(ps)
  }

  /** Reading a series from the file of a table gives the points of the table in the range, absent series included. */
  lemma ReadsTable(lib: C.Lib, id: ChunkId, rows: seq<C.Row>, t: Memtable.Table, key: SeriesKey, lo: i64, hi: i64)
    requires C.Lawful(lib) && T.RowsOk(lib, rows) && RowsOf(rows, t) && Memtable.TableOk(t) && T.Printable(key)
    ensures Streamed(R.ReadSeries(lib, C.ChunkBytes(lib, id, rows), key, lo, hi)) ==
            Some(R.PointsFor(key, InRange(Memtable.Series(t, key), lo, hi)))
  {
    hide C.Lawful, T.RowsOk, RowsOf, Memtable.TableOk, T.Printable, C.ChunkBytes, R.ReadSeries, T.Lookup, InRange;
    LookupTable(rows, t, key);
    T.ReadSeriesRoundTrip(lib, id, rows, key, lo, hi);
  }

  lemma PointOfTable(rows: seq<C.Row>, t: Memtable.Table, p: DataPoint)
    requires RowsOf(rows, t)
    ensures p in T.AllPoints(rows) <==> Memtable.Holds(t, p.key, p.ts, p.value)
  {
    hide T.AllPoints;
    T.AllPointsAre(rows, p);
    if Memtable.Holds(t, p.key, p.ts, p.value) {
      var i :| 0 <= i < |rows| && rows[i].key == p.key;
      assert (p.ts, p.value) in rows[i].points;
    }
  }

  /** Reading the whole file of a table gives exactly its points: what a merge takes in. */
  lemma ReadsWhole(lib: C.Lib, id: ChunkId, rows: seq<C.Row>, t: Memtable.Table)
    requires C.Lawful(lib) && T.RowsOk(lib, rows) && RowsOf(rows, t) && Memtable.TableOk(t)
    ensures R.ReadChunk(lib, C.ChunkBytes(lib, id, rows)).Ok?
    ensures Merging.ReadsAs(R.ReadChunk(lib, C.ChunkBytes(lib, id, rows)).value, t)
  {
    hide C.Lawful, T.RowsOk, RowsOf, Memtable.TableOk, C.ChunkBytes, R.ReadChunk, T.AllPoints, Memtable.Holds;
    T.ReadChunkRoundTrip(lib, id, rows);
    AllLive(rows, t);
    var ps := T.AllPoints(rows);
    forall i | 0 <= i < |ps| ensures Memtable.Holds(t, ps[i].key, ps[i].ts, ps[i].value) {
      PointOfTable(rows, t, ps[i]);
    }
    forall k, ts: i64, v: F64 | Memtable.Holds(t, k, ts, v) ensures DataPoint(k, ts, v) in ps {
      PointOfTable(rows, t, DataPoint(k, ts, v));
    }
  }

  /** The index entries the writer reports for a chunk. */
  function Entries(hash: Hash, id: ChunkId, rs: seq<C.SeriesResult>, stats: C.SeriesResult -> Pruning.Stats): seq<Written> {
    seq(|rs|, i requires 0 <= i < |rs| => Report(hash, id, rs[i], stats(rs[i])))
  }

  function Report(hash: Hash, id: ChunkId, r: C.SeriesResult, s: Pruning.Stats): Written {
    Written(r.key, SeriesChunk(id, hash(r.key), r.start, r.end, r.size), s)
  }

  lemma RowReported(lib: C.Lib, hash: Hash, id: ChunkId, row: C.Row, t: Memtable.Table, s: Pruning.Stats)
    requires row.key in t && row.points == t[row.key] && row.points != []
    ensures ReportOk(hash, Report(hash, id, C.ResultOf(C.EncodeRow(lib, row)), s), id, t)
    ensures C.EncodeRow(lib, row).key == row.key
  {
  }

  /** The writer reports every series of the table once, with its own first and last timestamps. */
  lemma WriterReports(lib: C.Lib, hash: Hash, id: ChunkId, rows: seq<C.Row>, t: Memtable.Table, stats: C.SeriesResult -> Pruning.Stats)
    requires RowsOf(rows, t) && Memtable.TableOk(t)
    ensures Reports(hash, Entries(hash, id, C.ResultsOf(C.EncodeRows(lib, rows)), stats), id, t)
    ensures var es := C.EncodeRows(lib, rows);
      forall i :: 0 <= i < |es| ==> Entries(hash, id, C.ResultsOf(es), stats)[i].entry.size == |C.Column(es[i])|
  {
    hide C.EncodeRows, C.EncodeRow, T.Live, ReportOk, Memtable.Sorted;
    T.EncodedLive(lib, rows);
    AllLive(rows, t);
    var es := C.EncodeRows(lib, rows);
    var ws := Entries(hash, id, C.ResultsOf(es), stats);
    forall i | 0 <= i < |ws| ensures ReportOk(hash, ws[i], id, t) && ws[i].key == rows[i].key {
      RowReported(lib, hash, id, rows[i], t, stats(C.ResultOf(es[i])));
    }
    KeysReported(hash, id, rows, t, ws);
  }

  lemma KeysReported(hash: Hash, id: ChunkId, rows: seq<C.Row>, t: Memtable.Table, ws: seq<Written>)
    requires RowsOf(rows, t) && |ws| == |rows| && forall i :: 0 <= i < |ws| ==> ReportOk(hash, ws[i], id, t)
    requires forall i :: 0 <= i < |ws| ==> ws[i].key == rows[i].key
    ensures Reports(hash, ws, id, t)
  {
    forall k | k in t ensures exists i :: 0 <= i < |ws| && ws[i].key == k {
      var i :| 0 <= i < |rows| && rows[i].key == k;
      assert ws[i].key == k;
    }
  }
}
