/**
 * The one-shot vectorisation script (02_vectorize/vectorize.py): every
 * record's text is embedded with one fixed sentence-transformers model, in
 * fixed-size batches, and the vectors are stored as a new column of the
 * table, one JSON vector per row.
 *
 * The model's bulk `encode` is an oracle: encoding a batch yields the
 * vectors of its texts, in order.
 */
module BulkVectorize {
  import opened Wrappers
  import VB = VectorBuilder

  const ModelName: string := "intfloat/multilingual-e5-large"
  const BatchSize: nat := 32
  const TextColumn: string := "問題名"

  /**
   * The batch loop: slices texts[i:i + BATCH_SIZE] for i = 0, BATCH_SIZE, ...
   * and extends the vector list with the encoding of each. Returns the
   * vectors and the batches handed to `encode`, in order.
   */
  method EncodeAll(texts: seq<string>, embed: string -> VB.Vector) returns (vectors: seq<VB.Vector>, calls: seq<seq<string>>)
    ensures calls == VB.Batches(texts, BatchSize)
    ensures |vectors| == |texts|
    ensures forall j :: 0 <= j < |texts| ==> vectors[j] == embed(texts[j])
  {
    ghost var bs := VB.Batches(texts, BatchSize);
    VB.BatchesCount(texts, BatchSize);
    VB.CeilDivBounds(|texts|, BatchSize);
    vectors := [];
    calls := [];
    var i := 0;
    ghost var b := 0;
    while i < |texts|
      invariant 0 <= b <= |bs| && i == VB.Min(b * BatchSize, |texts|)
      invariant b < |bs| <==> i < |texts|
      invariant calls == bs[..b]
      invariant |vectors| == i && forall j :: 0 <= j < i ==> vectors[j] == embed(texts[j])
    {
      VB.BatchAt(texts, BatchSize, b);
      VB.MulSucc(b, BatchSize);
      var end := VB.Min(i + BatchSize, |texts|);
      var batch := texts[i..end];
      assert batch == bs[b];
      var encoded := Encode(batch, embed);
      vectors := vectors + encoded;
      assert bs[..b + 1] == bs[..b] + [batch];
      calls := calls + [batch];
      i := end;
      b := b + 1;
      if b < |bs| {
        VB.BatchAt(texts, BatchSize, b);
      }
    }
    assert bs[..b] == bs;
  }

  /** model.encode on one batch: the vector of each text, in order. */
  function Encode(batch: seq<string>, embed: string -> VB.Vector): (r: seq<VB.Vector>)
    ensures |r| == |batch| && forall j :: 0 <= j < |batch| ==> r[j] == embed(batch[j])
  {
    seq(|batch|, j requires 0 <= j < |batch| => embed(batch[j]))
  }

  /**
   * The batches handed to `encode` cover the texts in order, each exactly
   * once, and there are (n + BATCH_SIZE - 1) // BATCH_SIZE of them.
   */
  lemma BatchesCoverTexts(texts: seq<string>)
    ensures VB.Flatten(VB.Batches(texts, BatchSize)) == texts
    ensures |VB.Batches(texts, BatchSize)| == (|texts| + BatchSize - 1) / BatchSize
    ensures forall x :: x in VB.Batches(texts, BatchSize) ==> 0 < |x| <= BatchSize
  {
    VB.BatchesFlatten(texts, BatchSize);
    VB.BatchesCount(texts, BatchSize);
    BatchSizes(texts, BatchSize);
  }

  lemma {:induction false} BatchSizes<T>(s: seq<T>, size: nat)
    requires size > 0
    ensures forall x :: x in VB.Batches(s, size) ==> 0 < |x| <= size
    decreases |s|
  {
    if |s| > size {
      BatchSizes(s[size..], size);
    }
  }

  /** df[vector_column] = the JSON of each vector: the input table with column `col` set to them. */
  function WithVectors(df: VB.InputTable, col: string, vectors: seq<VB.Vector>): (t: VB.Table)
    requires |vectors| == df.rows
    ensures t.rows == df.rows
    ensures t.columns.Keys == df.columns.Keys + {col}
    ensures |t.columns[col]| == df.rows
    ensures forall j :: 0 <= j < df.rows ==> t.columns[col][j] == VB.Json(vectors[j])
    ensures forall c :: c in df.columns && c != col ==> t.columns[c] == VB.FromInput(df).columns[c]
  {
    var input := VB.FromInput(df);
    input.(columns := input.columns[col := seq(|vectors|, j requires 0 <= j < |vectors| => VB.Json(vectors[j]))])
  }

  /**
   * The script: a missing text column is an error raised before the model
   * is loaded (no call to `encode`). An empty table makes no call either,
   * and the time-per-text report divides by its zero row count, so the run
   * raises before the table is written. Otherwise NaN texts become '' and
   * every row gets the vector of its text. Returns the table written and
   * the batches handed to `encode`. `modelName` is the script's MODEL_NAME
   * (ModelName as shipped).
   */
  method Vectorize(df: VB.InputTable, modelName: string, embed: string -> VB.Vector) returns (r: Result<VB.Table>, calls: seq<seq<string>>)
    requires VB.InputWellFormed(df)
    ensures TextColumn !in df.columns ==> r.Err? && calls == []
    ensures TextColumn in df.columns && df.rows == 0 ==> r.Err? && calls == []
    ensures TextColumn in df.columns && df.rows > 0 ==> r.Ok? && var texts := VB.TextsToEmbed(df, TextColumn).value;
      && calls == VB.Batches(texts, BatchSize)
      && r.value.rows == df.rows
      && r.value.columns.Keys == df.columns.Keys + {VB.ColumnName(modelName)}
      && |r.value.columns[VB.ColumnName(modelName)]| == df.rows
      && (forall j :: 0 <= j < df.rows ==> r.value.columns[VB.ColumnName(modelName)][j] == VB.Json(embed(texts[j])))
      && forall c :: c in df.columns && c != VB.ColumnName(modelName) ==> r.value.columns[c] == VB.FromInput(df).columns[c]
  {
    var texts := VB.TextsToEmbed(df, TextColumn);
    if texts.None? {
      return Err("column not found: " + TextColumn), [];
    }
    var vectors;
    vectors, calls := EncodeAll(texts.value, embed);
    if |texts.value| == 0 {
      return Err("division by zero: no texts"), calls;
    }
    r := Ok(WithVectors(df, VB.ColumnName(modelName), vectors));
  }
}
