/** Rows on their way through the writer: sorting keeps them, merging keeps
    them, sealing cannot fail. */
module IngestRows {
  import opened Storage
  import opened Store
  import opened Ingest

  // ----- Rows of pieces and chunks -----

  function PieceRows(p: Piece): seq<Row> {
    if Rectangular(|p.t|, p.cols) then TableRows(p.t, p.cols) else []
  }

  function PiecesRows(pieces: seq<Piece>): seq<Row> {
    if pieces == [] then [] else PiecesRows(pieces[..|pieces| - 1]) + PieceRows(pieces[|pieces| - 1])
  }

  function ChunkRows(c: Chunk): seq<Row> {
    if Rectangular(|c.t|, c.cols) then TableRows(c.t, c.cols) else []
  }

  function StoreRows(chunks: seq<Chunk>): seq<Row> {
    if chunks == [] then [] else StoreRows(chunks[..|chunks| - 1]) + ChunkRows(chunks[|chunks| - 1])
  }

  predicate GoodPiece(p: Piece, columns: nat) {
    p.t != [] && SortedTimes(p.t) && |p.cols| == columns && Rectangular(|p.t|, p.cols)
  }

  function LastOf(p: Piece): int
    requires p.t != []
  {
    p.t[|p.t| - 1]
  }

  /** The pieces are good, and each begins where the one before ends, or later. */
  predicate Chained(pieces: seq<Piece>, columns: nat) {
    && (forall i :: 0 <= i < |pieces| ==> GoodPiece(pieces[i], columns))
    && (forall i :: 0 < i < |pieces| ==> LastOf(pieces[i - 1]) <= pieces[i].t[0])
  }

  // ----- Sorting a batch -----

  /** The batch's rows sorted by time; nothing is lost or made up. */
  lemma SortedPieceKeepsRows(b: Batch, p: seq<nat>)
    requires Rectangular(|b.t|, b.cols) && IsSorting(b.t, p)
    ensures var piece := SortedPiece(b, p);
            && Rectangular(|piece.t|, piece.cols) && |piece.cols| == |b.cols| && SortedTimes(piece.t)
            && multiset(PieceRows(piece)) == multiset(TableRows(b.t, b.cols))
  {
    var piece := SortedPiece(b, p);
    var rows := TableRows(b.t, b.cols);
    forall i | 0 <= i < |p|
      ensures PieceRows(piece)[i] == rows[p[i]]
    {
      assert RowAt(piece.t, piece.cols, i).cells == RowAt(b.t, b.cols, p[i]).cells;
    }
    assert PieceRows(piece) == Picked(rows, p);
    PickedKeepsAll(rows, p);
  }

  /** Positions of `s` in another order. */
  lemma {:induction false} PickedKeepsAll<T>(s: seq<T>, p: seq<nat>)
    requires IsPermutation(p, |s|)
    ensures multiset(Picked(s, p)) == multiset(s)
  {
    if s != [] {
      var n := |s| - 1;
      assert n in p;
      var k :| 0 <= k < |p| && p[k] == n;
      var q := Dropped(p, k);
      DroppedIsPermutation(p, k);
      PickedKeepsAll(s[..n], q);
      PickedWithout(s, p, k);
      var r := Picked(s[..n], q);
      SplitMultiset(r, k, s[n]);
      assert s == s[..n] + [s[n]];
    }
  }

  function Dropped(p: seq<nat>, k: nat): (q: seq<nat>)
    requires k < |p|
    ensures |q| == |p| - 1 && forall i :: 0 <= i < |q| ==> q[i] == if i < k then p[i] else p[i + 1]
  {
    p[..k] + p[k + 1..]
  }

  lemma DroppedIsPermutation(p: seq<nat>, k: nat)
    requires p != [] && IsPermutation(p, |p|) && k < |p| && p[k] == |p| - 1
    ensures IsPermutation(Dropped(p, k), |p| - 1)
  {
    var q := Dropped(p, k);
    forall i | 0 <= i < |q|
      ensures q[i] < |p| - 1
    {
      var j := if i < k then i else i + 1;
      assert p[j] != p[k];
    }
    forall v: nat | v < |p| - 1
      ensures v in q
    {
      assert v in p;
      var j :| 0 <= j < |p| && p[j] == v;
      assert q[if j < k then j else j - 1] == v;
    }
  }

  lemma PickedWithout<T>(s: seq<T>, p: seq<nat>, k: nat)
    requires IsPermutation(p, |s|) && k < |p| && p[k] == |s| - 1 && IsPermutation(Dropped(p, k), |s| - 1)
    ensures var r := Picked(s[..|s| - 1], Dropped(p, k));
            Picked(s, p) == r[..k] + [s[|s| - 1]] + r[k..]
  {
  }

  lemma SplitMultiset<T>(r: seq<T>, k: nat, x: T)
    requires k <= |r|
    ensures multiset(r[..k] + [x] + r[k..]) == multiset(r) + multiset{x}
  {
    assert r == r[..k] + r[k..];
  }

  lemma PieceOfBatch(b: Batch, order: Order)
    requires Sorts(order) && b.t != [] && |b.cols| == |b.schema.fields| && Rectangular(|b.t|, b.cols)
    ensures GoodPiece(PieceOf(b, order), |b.schema.fields|)
    ensures multiset(PieceRows(PieceOf(b, order))) == multiset(TableRows(b.t, b.cols))
  {
    var p := order(b.t);
    assert IsSorting(b.t, p);
    SortedPieceKeepsRows(b, p);
  }

  // ----- Merging pieces -----

  function Joined(pieces: seq<Piece>, columns: nat): Piece {
    Piece(JoinedTimes(pieces), seq(columns, k requires 0 <= k < columns => JoinedColumn(pieces, k)))
  }

  lemma ConcatRows(a: Piece, b: Piece, both: Piece)
    requires Rectangular(|a.t|, a.cols) && Rectangular(|b.t|, b.cols) && |a.cols| == |b.cols| == |both.cols|
    requires both.t == a.t + b.t && forall k :: 0 <= k < |both.cols| ==> both.cols[k] == a.cols[k] + b.cols[k]
    ensures Rectangular(|both.t|, both.cols) && PieceRows(both) == PieceRows(a) + PieceRows(b)
  {
    forall i | 0 <= i < |both.t|
      ensures PieceRows(both)[i] == (PieceRows(a) + PieceRows(b))[i]
    {
      var cells := RowAt(both.t, both.cols, i).cells;
      if i < |a.t| {
        assert cells == RowAt(a.t, a.cols, i).cells;
      } else {
        assert cells == RowAt(b.t, b.cols, i - |a.t|).cells;
      }
    }
  }

  lemma {:induction false} JoinedRows(pieces: seq<Piece>, columns: nat)
    requires forall i :: 0 <= i < |pieces| ==> GoodPiece(pieces[i], columns)
    ensures Rectangular(|JoinedTimes(pieces)|, Joined(pieces, columns).cols)
    ensures PieceRows(Joined(pieces, columns)) == PiecesRows(pieces)
  {
    if pieces != [] {
      var n := |pieces| - 1;
      JoinedRows(pieces[..n], columns);
      ConcatRows(Joined(pieces[..n], columns), pieces[n], Joined(pieces, columns));
    }
  }

  /** Merging keeps the rows, in order. */
  lemma MergedRows(pieces: seq<Piece>, columns: nat)
    requires pieces != [] && forall i :: 0 <= i < |pieces| ==> GoodPiece(pieces[i], columns)
    ensures var m := Merged(pieces);
            && Rectangular(|m.t|, m.cols) && |m.cols| == columns && m.t == JoinedTimes(pieces)
            && PieceRows(m) == PiecesRows(pieces)
  {
    JoinedRows(pieces, columns);
    if |pieces| == 1 {
      assert pieces[..0] == [] && PiecesRows(pieces[..0]) == [];
      assert JoinedTimes(pieces) == [] + pieces[0].t;
    } else {
      assert GoodPiece(pieces[0], columns);
      assert Merged(pieces) == Joined(pieces, columns);
    }
  }

  lemma {:induction false} ChainedIsSorted(pieces: seq<Piece>, columns: nat)
    requires pieces != [] && Chained(pieces, columns)
    ensures JoinedTimes(pieces) != [] && SortedTimes(JoinedTimes(pieces))
    ensures JoinedTimes(pieces)[|JoinedTimes(pieces)| - 1] == LastOf(pieces[|pieces| - 1])
  {
    var n := |pieces| - 1;
    if n == 0 {
      assert JoinedTimes(pieces[..0]) == [];
      assert JoinedTimes(pieces) == [] + pieces[0].t;
    } else {
      ChainedIsSorted(pieces[..n], columns);
      assert pieces[..n][n - 1] == pieces[n - 1];
      SortedConcat(JoinedTimes(pieces[..n]), pieces[n].t);
    }
  }

  lemma SortedConcat(a: seq<int>, b: seq<int>)
    requires SortedTimes(a) && SortedTimes(b) && (a != [] && b != [] ==> a[|a| - 1] <= b[0])
    ensures SortedTimes(a + b)
  {
    forall i, j | 0 <= i < j < |a + b|
      ensures (a + b)[i] <= (a + b)[j]
    {
      if i < |a| <= j {
        assert a[i] <= a[|a| - 1] && b[0] <= b[j - |a|];
      }
    }
  }

  /** Chained pieces always make a chunk, of exactly their rows. */
  lemma SealingSucceeds(pieces: seq<Piece>, schema: TopicSchema)
    requires pieces != [] && Chained(pieces, |schema.fields|)
    ensures var m := Merged(pieces);
            var c := NewChunk(m.t, m.cols, schema);
            && c.Ok? && ValidChunk(c.value, |schema.fields|) && ChunkRows(c.value) == PiecesRows(pieces)
  {
    var m := Merged(pieces);
    MergedRows(pieces, |schema.fields|);
    ChainedIsSorted(pieces, |schema.fields|);
    ChunksAreValid(m.t, m.cols, schema);
  }

  // ----- Rows in order of time -----

  predicate RowsSorted(rows: seq<Row>) {
    forall i, j :: 0 <= i < j < |rows| ==> rows[i].t <= rows[j].t
  }

  /** A store whose rows are in order has its chunks in order, and conversely. */
  lemma {:induction false} SortedStore(chunks: seq<Chunk>, columns: nat)
    requires forall k :: 0 <= k < |chunks| ==> ValidChunk(chunks[k], columns)
    ensures chunks != [] ==>
              StoreRows(chunks) != [] && StoreRows(chunks)[|StoreRows(chunks)| - 1].t == chunks[|chunks| - 1].tMax
    ensures RowsSorted(StoreRows(chunks)) <==> InOrder(chunks)
  {
    hide RowsSorted, InOrder, ValidChunk;
    if chunks == [] {
      NoRows();
    } else {
      var n := |chunks| - 1;
      var c := chunks[n];
      SortedStore(chunks[..n], columns);
      assert ValidChunk(chunks[n], columns);
      ChunkIsSorted(c, columns);
      assert chunks == chunks[..n] + [c];
      OrderGrows(chunks[..n], c);
      SortedJoin(StoreRows(chunks[..n]), ChunkRows(c));
    }
  }

  lemma NoRows()
    ensures RowsSorted([]) && InOrder([])
  {
  }

  lemma ChunkIsSorted(c: Chunk, columns: nat)
    requires ValidChunk(c, columns)
    ensures var rows := ChunkRows(c);
            rows != [] && RowsSorted(rows) && rows[0].t == c.tMin && rows[|rows| - 1].t == c.tMax
  {
    var rows := ChunkRows(c);
    assert rows == TableRows(c.t, c.cols);
    assert forall i :: 0 <= i < |rows| ==> rows[i].t == c.t[i];
  }

  lemma SortedJoin(a: seq<Row>, b: seq<Row>)
    requires RowsSorted(b)
    ensures RowsSorted(a + b) <==> RowsSorted(a) && (a != [] && b != [] ==> a[|a| - 1].t <= b[0].t)
  {
    var all := a + b;
    if RowsSorted(all) {
      forall i, j | 0 <= i < j < |a|
        ensures a[i].t <= a[j].t
      {
        assert all[i].t <= all[j].t;
      }
      if a != [] && b != [] {
        assert all[|a| - 1].t <= all[|a|].t;
      }
    } else if RowsSorted(a) && (a != [] && b != [] ==> a[|a| - 1].t <= b[0].t) {
      forall i, j | 0 <= i < j < |all|
        ensures all[i].t <= all[j].t
      {
        if i < |a| <= j {
          assert a[i].t <= a[|a| - 1].t && b[0].t <= b[j - |a|].t;
        }
      }
    }
  }
}
