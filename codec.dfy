/**
  The row-major flattening that saving applies to each class matrix
  (`dataSync()` of a `[rows, width]` tensor), and the reshape that loading
  applies to each stored flat array (`tf.tensor(data, [data.length / 1024, 1024])`).
 */
module Codec {

  /** Length of one embedding vector, as hard-coded by the loader. */
  const EmbeddingSize: nat := 1024

  /** True when every row has exactly `width` entries. */
  predicate AllRows<T>(rows: seq<seq<T>>, width: nat) {
    forall i :: 0 <= i < |rows| ==> |rows[i]| == width
  }

  /** Concatenates the rows in order: row 0 first, each row's entries
      contiguous. Rows of `EmbeddingSize` entries give `EmbeddingSize` entries each. */
  function Flatten<T>(rows: seq<seq<T>>): (flat: seq<T>)
    ensures AllRows(rows, EmbeddingSize) ==> |flat| == |rows| * EmbeddingSize
  {
    if rows == [] then [] else rows[0] + Flatten(rows[1..])
  }

  /** Cuts a flat sequence into consecutive rows of `EmbeddingSize` entries.
      The caller has established that the length is a multiple of
      `EmbeddingSize`; the result has `|flat| / EmbeddingSize` rows, each of
      `EmbeddingSize` entries. */
  function Reshape<T>(flat: seq<T>): (rows: seq<seq<T>>)
    requires |flat| % EmbeddingSize == 0
    ensures |rows| * EmbeddingSize == |flat| && |rows| == |flat| / EmbeddingSize
    ensures AllRows(rows, EmbeddingSize)
    decreases |flat|
  {
    if flat == [] then []
    else [flat[..EmbeddingSize]] + Reshape(flat[EmbeddingSize..])
  }

  /** Row-major layout: entry `j` of row `i` lands at index
      `i * EmbeddingSize + j`. */
  lemma {:induction false} FlattenAt<T>(rows: seq<seq<T>>, i: nat, j: nat)
    requires AllRows(rows, EmbeddingSize) && i < |rows| && j < EmbeddingSize
    ensures i * EmbeddingSize + j < |Flatten(rows)|
    ensures Flatten(rows)[i * EmbeddingSize + j] == rows[i][j]
  {
    if i > 0 {
      FlattenAt(rows[1..], i - 1, j);
      assert Flatten(rows) == rows[0] + Flatten(rows[1..]);
    }
  }

  /** Reshaping a flattening gives back the rows: what loading rebuilds from
      a saved class is the matrix that was saved. */
  lemma {:induction false} ReshapeFlatten<T>(rows: seq<seq<T>>)
    requires AllRows(rows, EmbeddingSize)
    ensures |Flatten(rows)| % EmbeddingSize == 0
    ensures Reshape(Flatten(rows)) == rows
  {
    if rows != [] {
      ReshapeFlatten(rows[1..]);
      var flat := Flatten(rows);
      assert flat == rows[0] + Flatten(rows[1..]);
      assert flat[..EmbeddingSize] == rows[0];
      assert flat[EmbeddingSize..] == Flatten(rows[1..]);
      assert rows == [rows[0]] + rows[1..];
    }
  }

  /** Flattening a reshape gives back the flat sequence: a stored array whose
      length is a multiple of `EmbeddingSize` survives a load followed by a save. */
  lemma {:induction false} FlattenReshape<T>(flat: seq<T>)
    requires |flat| % EmbeddingSize == 0
    ensures Flatten(Reshape(flat)) == flat
    decreases |flat|
  {
    if flat != [] {
      FlattenReshape(flat[EmbeddingSize..]);
      var rows := Reshape(flat);
      assert rows[0] == flat[..EmbeddingSize];
      assert rows[1..] == Reshape(flat[EmbeddingSize..]);
      assert flat == flat[..EmbeddingSize] + flat[EmbeddingSize..];
    }
  }
}
