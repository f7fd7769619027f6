/**
 * The resumable embedding-table builder of the vectorisation stage
 * (02_vectorize/main.py).
 *
 * Row i of the output table takes the text of input record i. A saved table
 * is loaded as it is, so it may have more or fewer rows than the input.
 * Each model owns one column; a cell of that column is "unprocessed" while
 * it is NaN, '' or 'None'. A run loads the table, finds the unprocessed
 * rows, cuts them into ordered batches and writes one cell per row, saving
 * the table every ten batches, after the last batch and when a backend
 * call fails. A pending row without an input text makes the run raise.
 *
 * The embedding backends are foreign code: a `Backend` is an oracle that
 * maps a text to its vector and says which request of the run fails.
 */
module VectorBuilder {
  import opened Wrappers
  import Text
  import Seqs

  type Vector = seq<real>

  /** A cell of the input CSV: NaN or a string. */
  type InputCell = Option<string>

  /** The input CSV: a row count and named columns of that many cells. */
  datatype InputTable = InputTable(rows: nat, columns: map<string, seq<InputCell>>)

  /** A cell of the output table as pandas holds it. */
  datatype Cell =
    | Missing          // NaN or None
    | Str(s: string)   // a string cell: '', 'None', the blank marker '[]', ...
    | Json(v: Vector)  // json.dumps of a vector returned by a backend

  /** The output table: a row count and named columns of that many cells. */
  datatype Table = Table(rows: nat, columns: map<string, seq<Cell>>)

  datatype ModelType = SentenceTransformers | Ollama | OtherType(name: string)

  datatype ModelConfig = ModelConfig(
    name: string,
    kind: ModelType,
    huggingfaceName: Option<string>,
    timeout: Option<int>)

  /**
   * The backend of one run: `embed` is the model (a deterministic function
   * of the text) and `failAt` numbers the first request of the run that
   * raises (counting from 0, the warm-up included). A run stops at its
   * first exception, so no later request matters; a run that makes no more
   * than `failAt` requests sees no exception.
   */
  datatype Backend = Backend(embed: string -> Vector, failAt: nat)

  /** An exception no handler of the run catches: it ends the whole script. */
  datatype Fault =
    | ZeroBatchSize        // ZeroDivisionError: the number of batches with a batch size of 0
    | TextIndexOutOfRange  // IndexError: a pending row of the saved table past the input texts

  /** How process_in_batches_csv ends: it returns True or False, or it raises. */
  datatype Outcome = Returned(success: bool) | Raised(fault: Fault)

  predicate InputWellFormed(t: InputTable) {
    forall c :: c in t.columns ==> |t.columns[c]| == t.rows
  }

  predicate WellFormed(t: Table) {
    forall c :: c in t.columns ==> |t.columns[c]| == t.rows
  }

  const SaveInterval: nat := 10
  const BlankMarker: Cell := Str("[]")
  const WarmUpPrompt: string := "warm-up"

  /** fillna(''): a NaN text becomes the empty string. */
  function CellText(c: InputCell): string {
    c.GetOr("")
  }

  /** The texts to embed: the text column with NaN as '', or None when the column is missing. */
  function TextsToEmbed(df: InputTable, textColumn: string): (r: Option<seq<string>>)
    ensures r.None? <==> textColumn !in df.columns
    ensures r.Some? ==> |r.value| == |df.columns[textColumn]|
    ensures r.Some? ==> forall i :: 0 <= i < |r.value| ==>
      r.value[i] == (if df.columns[textColumn][i].Some? then df.columns[textColumn][i].value else "")
  {
    if textColumn !in df.columns then None
    else
      var col := df.columns[textColumn];
      Some(seq(|col|, i requires 0 <= i < |col| => CellText(col[i])))
  }

  /** The column a model writes: "vector_" + name with '/', '.', ':' made '_'. */
  function ColumnName(modelName: string): (col: string)
    ensures |col| == 7 + |modelName| && col[..7] == "vector_"
    ensures forall i :: 0 <= i < |modelName| ==>
      col[7 + i] == (if modelName[i] in {'/', '.', ':'} then '_' else modelName[i])
  {
    "vector_" + Text.ReplaceChar(Text.ReplaceChar(Text.ReplaceChar(modelName, '/', '_'), '.', '_'), ':', '_')
  }

  /** Hyphens survive in the column name (unlike the column name of the similarity stage). */
  lemma ColumnNameKeepsHyphens(modelName: string, i: nat)
    requires i < |modelName| && modelName[i] == '-'
    ensures ColumnName(modelName)[7 + i] == '-'
  {
  }

  /** NaN, '' or 'None': the row still has to be embedded. */
  predicate Unprocessed(c: Cell) {
    c == Missing || c == Str("") || c == Str("None")
  }

  predicate StrictlyIncreasing(s: seq<nat>) {
    forall i, j :: 0 <= i < j < |s| ==> s[i] < s[j]
  }

  predicate IndicesBelow(s: seq<nat>, n: nat) {
    forall m :: 0 <= m < |s| ==> s[m] < n
  }

  /** The indices of the unprocessed cells, in row order. */
  function UnprocessedIndices(cells: seq<Cell>): (r: seq<nat>)
    ensures IndicesBelow(r, |cells|) && |r| <= |cells|
  {
    if cells == [] then []
    else
      var front := UnprocessedIndices(cells[..|cells| - 1]);
      if Unprocessed(cells[|cells| - 1]) then front + [|cells| - 1] else front
  }

  /**
   * The pending rows are exactly the unprocessed ones, each once, in row
   * order (the index list of `df[mask]`).
   */
  lemma {:induction false} UnprocessedIndicesSpec(cells: seq<Cell>)
    ensures StrictlyIncreasing(UnprocessedIndices(cells))
    ensures forall m :: 0 <= m < |UnprocessedIndices(cells)| ==> Unprocessed(cells[UnprocessedIndices(cells)[m]])
    ensures forall i :: 0 <= i < |cells| && Unprocessed(cells[i]) ==> i in UnprocessedIndices(cells)
  {
    if cells != [] {
      var front := cells[..|cells| - 1];
      UnprocessedIndicesSpec(front);
      var r := UnprocessedIndices(cells);
      forall m | 0 <= m < |r|
        ensures Unprocessed(cells[r[m]])
      {
        if m < |UnprocessedIndices(front)| {
          assert r[m] == UnprocessedIndices(front)[m];
          assert cells[r[m]] == front[r[m]];
        }
      }
      forall i | 0 <= i < |cells| && Unprocessed(cells[i])
        ensures i in r
      {
        if i < |cells| - 1 {
          assert front[i] == cells[i];
        }
      }
    }
  }

  /** df.copy(): the input cells as output cells. */
  function FromInput(df: InputTable): (t: Table)
    ensures t.rows == df.rows && t.columns.Keys == df.columns.Keys
  {
    Table(df.rows, map c | c in df.columns :: seq(|df.columns[c]|, i requires 0 <= i < |df.columns[c]| =>
      if df.columns[c][i].Some? then Str(df.columns[c][i].value) else Missing))
  }

  /**
   * The table a run starts from: the saved table if there is one, else a
   * copy of the input; the model's column is added, all NaN, when missing.
   */
  function Prepared(disk: Option<Table>, df: InputTable, col: string): (t: Table)
    ensures t.rows == (if disk.Some? then disk.value.rows else df.rows)
    ensures col in t.columns
    ensures forall c :: c in t.columns && c != col ==>
      c in (if disk.Some? then disk.value else FromInput(df)).columns
  {
    var output := if disk.Some? then disk.value else FromInput(df);
    if col in output.columns then output
    else output.(columns := output.columns[col := seq(output.rows, _ => Missing)])
  }

  lemma PreparedKeepsColumns(disk: Option<Table>, df: InputTable, col: string)
    ensures var base := if disk.Some? then disk.value else FromInput(df);
      forall c :: c in base.columns ==>
        c in Prepared(disk, df, col).columns &&
        (c != col ==> Prepared(disk, df, col).columns[c] == base.columns[c])
  {
  }

  /** Only the two known backends write cells. */
  predicate Writes(kind: ModelType) {
    !kind.OtherType?
  }

  /** The cell a known backend writes for a row whose text is `text`. */
  function Fill(kind: ModelType, embed: string -> Vector, text: string): (c: Cell)
    ensures !Unprocessed(c)
  {
    if kind.Ollama? && Text.IsBlank(text) then BlankMarker else Json(embed(text))
  }

  /**
   * The column after every unprocessed cell has been filled. A row past the
   * input texts is never filled: a run that reaches one raises instead.
   */
  function Completed(cells: seq<Cell>, texts: seq<string>, kind: ModelType, embed: string -> Vector): (r: seq<Cell>)
    ensures |r| == |cells|
  {
    seq(|cells|, i requires 0 <= i < |cells| =>
      if Unprocessed(cells[i]) && Writes(kind) && i < |texts| then Fill(kind, embed, texts[i]) else cells[i])
  }

  /**
   * `cur` is `prior` with some unprocessed cells filled: nothing already
   * populated changes and every written cell holds what `Fill` gives.
   */
  ghost predicate Progressed(prior: seq<Cell>, cur: seq<Cell>, texts: seq<string>, kind: ModelType, embed: string -> Vector) {
    && |cur| == |prior|
    && forall i :: 0 <= i < |prior| ==>
         cur[i] == prior[i] || (Unprocessed(prior[i]) && Writes(kind) && i < |texts| && cur[i] == Fill(kind, embed, texts[i]))
  }

  /**
   * Resume: completing a partially filled column gives the same column as
   * completing the original one, so an interrupted run followed by a
   * successful one ends where an uninterrupted run ends.
   */
  lemma ResumeMatchesUninterrupted(prior: seq<Cell>, partial: seq<Cell>, texts: seq<string>, kind: ModelType, embed: string -> Vector)
    requires Progressed(prior, partial, texts, kind, embed)
    ensures Completed(partial, texts, kind, embed) == Completed(prior, texts, kind, embed)
  {
  }

  /** Idempotence: a column completed by a known backend has nothing pending. */
  lemma CompletedHasNothingPending(cells: seq<Cell>, texts: seq<string>, kind: ModelType, embed: string -> Vector)
    requires |cells| <= |texts| && Writes(kind)
    ensures UnprocessedIndices(Completed(cells, texts, kind, embed)) == []
  {
    var c := Completed(cells, texts, kind, embed);
    forall i | 0 <= i < |c|
      ensures !Unprocessed(c[i])
    {
    }
    NoneUnprocessed(c);
  }

  lemma {:induction false} NoneUnprocessed(cells: seq<Cell>)
    requires forall i :: 0 <= i < |cells| ==> !Unprocessed(cells[i])
    ensures UnprocessedIndices(cells) == []
  {
    if cells != [] {
      NoneUnprocessed(cells[..|cells| - 1]);
    }
  }

  /** A column with nothing pending is already complete. */
  lemma NothingPendingIsComplete(cells: seq<Cell>, texts: seq<string>, kind: ModelType, embed: string -> Vector)
    requires UnprocessedIndices(cells) == []
    ensures Completed(cells, texts, kind, embed) == cells
  {
    UnprocessedIndicesSpec(cells);
  }

  /** ceil(k / b), Python's math.ceil(k / b). */
  function CeilDiv(k: nat, b: nat): nat
    requires b > 0
  {
    (k + b - 1) / b
  }

  /** CeilDiv(k, b) is ceil(k / b): the least n with n * b >= k. */
  lemma CeilDivBounds(k: nat, b: nat)
    requires b > 0
    ensures CeilDiv(k, b) * b >= k
    ensures CeilDiv(k, b) == 0 || (CeilDiv(k, b) - 1) * b < k
  {
  }

  lemma MulMono(x: int, y: int, b: int)
    requires b > 0 && x <= y
    ensures x * b <= y * b
  {
    var d := y - x;
    assert y * b == x * b + d * b;
  }

  /** ceil(k / b) is the only n with (n - 1) * b < k <= n * b. */
  lemma CeilUnique(k: nat, b: nat, n: nat, m: nat)
    requires b > 0
    requires n * b >= k && (n == 0 || (n - 1) * b < k)
    requires m * b >= k && (m == 0 || (m - 1) * b < k)
    ensures n == m
  {
    if n < m {
      MulMono(n, m - 1, b);
    } else if m < n {
      MulMono(m, n - 1, b);
    }
  }

  lemma CeilDivStep(k: nat, b: nat)
    requires b > 0
    ensures CeilDiv(k + b, b) == CeilDiv(k, b) + 1
  {
    var n := CeilDiv(k, b);
    CeilDivBounds(k, b);
    CeilDivBounds(k + b, b);
    assert (n + 1) * b == n * b + b;
    if n > 0 {
      assert ((n + 1) - 1) * b == (n - 1) * b + b;
    }
    CeilUnique(k + b, b, CeilDiv(k + b, b), n + 1);
  }

  function Min(x: int, y: int): int {
    if x <= y then x else y
  }

  /** The batches of `indices`: consecutive slices of `size` elements, the last one shorter. */
  function Batches<T>(indices: seq<T>, size: nat): seq<seq<T>>
    requires size > 0
    decreases |indices|
  {
    if |indices| <= size then (if |indices| == 0 then [] else [indices])
    else [indices[..size]] + Batches(indices[size..], size)
  }

  function Flatten<T>(bs: seq<seq<T>>): seq<T> {
    if |bs| == 0 then [] else bs[0] + Flatten(bs[1..])
  }

  /** The batches cover the indices exactly once and in order. */
  lemma {:induction false} BatchesFlatten<T>(indices: seq<T>, size: nat)
    requires size > 0
    ensures Flatten(Batches(indices, size)) == indices
    decreases |indices|
  {
    var bs := Batches(indices, size);
    if |indices| <= size {
      if indices != [] {
        assert Flatten(bs) == indices + Flatten([]);
      }
    } else {
      var rest := indices[size..];
      BatchesFlatten(rest, size);
      assert bs[1..] == Batches(rest, size);
      assert indices[..size] + rest == indices;
    }
  }

  /** There are ceil(k / size) batches. */
  lemma {:induction false} BatchesCount<T>(indices: seq<T>, size: nat)
    requires size > 0
    ensures |Batches(indices, size)| == CeilDiv(|indices|, size)
    decreases |indices|
  {
    if |indices| > size {
      var rest := indices[size..];
      BatchesCount(rest, size);
      CeilDivStep(|rest|, size);
    }
  }

  /** Batch `b` is the slice [b * size, min((b + 1) * size, k)) the builder's loop takes. */
  lemma {:induction false} BatchAt<T>(indices: seq<T>, size: nat, b: nat)
    requires size > 0 && b < |Batches(indices, size)|
    ensures b * size < |indices|
    ensures Batches(indices, size)[b] == indices[b * size..Min((b + 1) * size, |indices|)]
    decreases b
  {
    if b > 0 {
      var rest := indices[size..];
      assert |indices| > size && Batches(indices, size)[b] == Batches(rest, size)[b - 1];
      BatchAt(rest, size, b - 1);
      var lo, mid, top := (b - 1) * size, b * size, (b + 1) * size;
      MulSucc(b - 1, size);
      MulSucc(b, size);
      var hi := Min(mid, |rest|);
      SliceShift(indices, size, lo, hi);
      assert hi + size == Min(top, |indices|);
    }
  }

  lemma SliceShift<T>(s: seq<T>, k: nat, lo: nat, hi: nat)
    requires k <= |s| && lo <= hi <= |s| - k
    ensures s[k..][lo..hi] == s[lo + k..hi + k]
  {
  }

  lemma MulSucc(n: nat, size: nat)
    ensures n * size + size == (n + 1) * size
  {
  }

  lemma {:induction false} BatchesBelow(indices: seq<nat>, size: nat, n: nat)
    requires size > 0 && IndicesBelow(indices, n)
    ensures forall x :: x in Batches(indices, size) ==> IndicesBelow(x, n)
    decreases |indices|
  {
    if |indices| > size {
      BatchesBelow(indices[size..], size, n);
    }
  }

  /** The rows of a run of batches are below `n` when those of every batch are. */
  lemma {:induction false} FlattenBelow(bs: seq<seq<nat>>, n: nat)
    requires forall j :: 0 <= j < |bs| ==> IndicesBelow(bs[j], n)
    ensures IndicesBelow(Flatten(bs), n)
  {
    if bs != [] {
      FlattenBelow(bs[1..], n);
    }
  }

  /**
   * The number of leading batches the loop gets through before it meets a
   * batch holding a row without an input text, where `texts[idx]` raises.
   */
  function ReachedBatches(bs: seq<seq<nat>>, n: nat): (c: nat)
    ensures c <= |bs|
    ensures forall j :: 0 <= j < c ==> IndicesBelow(bs[j], n)
    ensures forall x :: x in bs[..c] ==> IndicesBelow(x, n)
    ensures c < |bs| ==> !IndicesBelow(bs[c], n)
  {
    if bs == [] || !IndicesBelow(bs[0], n) then 0
    else
      var c := 1 + ReachedBatches(bs[1..], n);
      assert forall j :: 1 <= j < c ==> bs[j] == bs[1..][j - 1];
      c
  }

  /** Batch `b`, not past the reached ones, is reached exactly when its rows all have a text. */
  lemma ReachedAt(bs: seq<seq<nat>>, n: nat, b: nat)
    requires b <= ReachedBatches(bs, n) && b < |bs|
    ensures IndicesBelow(bs[b], n) <==> b < ReachedBatches(bs, n)
    ensures b < ReachedBatches(bs, n) ==> bs[..ReachedBatches(bs, n)][b] == bs[b]
  {
  }

  /** The loop gets through every batch exactly when every pending row has an input text. */
  lemma ReachedAll(indices: seq<nat>, size: nat, n: nat)
    requires size > 0
    ensures ReachedBatches(Batches(indices, size), n) == |Batches(indices, size)| <==> IndicesBelow(indices, n)
  {
    var bs := Batches(indices, size);
    if IndicesBelow(indices, n) {
      BatchesBelow(indices, size, n);
    }
    if ReachedBatches(bs, n) == |bs| {
      FlattenBelow(bs, n);
      BatchesFlatten(indices, size);
    }
  }

  /** Number of checkpoint saves among `n` batches: every tenth batch and the last one. */
  function CheckpointCount(n: nat): nat {
    n / SaveInterval + (if n % SaveInterval == 0 then 0 else 1)
  }

  /** Checkpoint saves made once the first `b` of `n` batches are done. */
  function SavesAfter(b: nat, n: nat): nat {
    b / SaveInterval + (if b == n && b % SaveInterval != 0 then 1 else 0)
  }

  lemma SavesAfterStep(b: nat, n: nat)
    requires b < n
    ensures SavesAfter(b + 1, n) ==
      SavesAfter(b, n) + (if (b + 1) % SaveInterval == 0 || b + 1 == n then 1 else 0)
    ensures SavesAfter(n, n) == CheckpointCount(n)
  {
  }

  /**
   * The checkpoint saves `columns`, in order: save number j, made after
   * batch 10 * (j + 1) or after the last batch, holds every pending row of
   * the batches up to it and nothing else.
   */
  ghost predicate Checkpoints(prior: seq<Cell>, columns: seq<seq<Cell>>, pending: seq<nat>, size: nat,
                              texts: seq<string>, kind: ModelType, embed: string -> Vector) {
    forall j :: 0 <= j < |columns| ==>
      FilledUpTo(prior, columns[j], pending[..Min((j + 1) * SaveInterval * size, |pending|)], texts, kind, embed)
  }

  /** The save after batch `b` is checkpoint number SavesAfter(b, n) and holds the rows of batches 0..b. */
  lemma CheckpointRows(b: nat, n: nat, size: nat, k: nat)
    requires size > 0 && n == CeilDiv(k, size) && b < n
    requires (b + 1) % SaveInterval == 0 || b + 1 == n
    ensures Min((b + 1) * size, k) == Min((SavesAfter(b, n) + 1) * SaveInterval * size, k)
  {
    var j := b / SaveInterval;
    assert SavesAfter(b, n) == j;
    if (b + 1) % SaveInterval == 0 {
      assert (j + 1) * SaveInterval == b + 1;
    } else {
      CeilDivBounds(k, size);
      MulMono(b + 1, (j + 1) * SaveInterval, size);
    }
  }

  /** One more checkpoint holding the rows it should. */
  lemma CheckpointsSnoc(prior: seq<Cell>, columns: seq<seq<Cell>>, c: seq<Cell>, pending: seq<nat>, size: nat,
                        texts: seq<string>, kind: ModelType, embed: string -> Vector)
    requires Checkpoints(prior, columns, pending, size, texts, kind, embed)
    requires FilledUpTo(prior, c, pending[..Min((|columns| + 1) * SaveInterval * size, |pending|)], texts, kind, embed)
    ensures Checkpoints(prior, columns + [c], pending, size, texts, kind, embed)
  {
  }

  function TextsAt(texts: seq<string>, idx: seq<nat>): (r: seq<string>)
    requires IndicesBelow(idx, |texts|)
    ensures |r| == |idx| && forall m :: 0 <= m < |idx| ==> r[m] == texts[idx[m]]
  {
    seq(|idx|, m requires 0 <= m < |idx| => texts[idx[m]])
  }

  /** The per-row requests for `idx`: one per row whose text is not blank. */
  function Prompts(texts: seq<string>, idx: seq<nat>): (r: seq<seq<string>>)
    requires IndicesBelow(idx, |texts|)
    ensures |r| <= |idx|
  {
    if idx == [] then []
    else
      var front := Prompts(texts, idx[..|idx| - 1]);
      var t := texts[idx[|idx| - 1]];
      if Text.IsBlank(t) then front else front + [[t]]
  }

  /** Every non-blank text of `idx` is requested once, in order. */
  lemma {:induction false} PromptsAppend(texts: seq<string>, x: seq<nat>, y: seq<nat>)
    requires IndicesBelow(x, |texts|) && IndicesBelow(y, |texts|)
    ensures Prompts(texts, x + y) == Prompts(texts, x) + Prompts(texts, y)
    decreases |y|
  {
    if y == [] {
      assert x + y == x;
    } else {
      var y' := y[..|y| - 1];
      assert (x + y)[..|x + y| - 1] == x + y';
      PromptsAppend(texts, x, y');
    }
  }

  /** The requests one batch makes. */
  function BatchCalls(kind: ModelType, texts: seq<string>, batch: seq<nat>): seq<seq<string>>
    requires IndicesBelow(batch, |texts|)
  {
    match kind
    case Ollama => Prompts(texts, batch)
    case SentenceTransformers => [TextsAt(texts, batch)]
    case OtherType(_) => []
  }

  /** The requests of a sequence of batches, batch after batch. */
  function CallsOf(kind: ModelType, texts: seq<string>, bs: seq<seq<nat>>): seq<seq<string>>
    requires forall x :: x in bs ==> IndicesBelow(x, |texts|)
  {
    if bs == [] then [] else BatchCalls(kind, texts, bs[0]) + CallsOf(kind, texts, bs[1..])
  }

  lemma {:induction false} CallsOfAppend(kind: ModelType, texts: seq<string>, x: seq<seq<nat>>, y: seq<seq<nat>>)
    requires forall z :: z in x + y ==> IndicesBelow(z, |texts|)
    ensures CallsOf(kind, texts, x + y) == CallsOf(kind, texts, x) + CallsOf(kind, texts, y)
    decreases |x|
  {
    if x == [] {
      assert x + y == y;
    } else {
      assert (x + y)[1..] == x[1..] + y;
      CallsOfAppend(kind, texts, x[1..], y);
    }
  }

  /** Per-row backend: the requests of all batches are the prompts of all their rows. */
  lemma {:induction false} CallsOfOllama(texts: seq<string>, bs: seq<seq<nat>>)
    requires forall x :: x in bs ==> IndicesBelow(x, |texts|)
    ensures IndicesBelow(Flatten(bs), |texts|)
    ensures CallsOf(Ollama, texts, bs) == Prompts(texts, Flatten(bs))
  {
    if bs != [] {
      CallsOfOllama(texts, bs[1..]);
      PromptsAppend(texts, bs[0], Flatten(bs[1..]));
    }
  }

  /** Bulk backend: one request per batch holding the batch's texts in order. */
  lemma {:induction false} CallsOfBulk(texts: seq<string>, bs: seq<seq<nat>>)
    requires forall x :: x in bs ==> IndicesBelow(x, |texts|)
    ensures |CallsOf(SentenceTransformers, texts, bs)| == |bs|
    ensures forall j :: 0 <= j < |bs| ==> CallsOf(SentenceTransformers, texts, bs)[j] == TextsAt(texts, bs[j])
  {
    if bs != [] {
      CallsOfBulk(texts, bs[1..]);
    }
  }

  lemma {:induction false} FlattenAppend<T>(x: seq<seq<T>>, y: seq<seq<T>>)
    ensures Flatten(x + y) == Flatten(x) + Flatten(y)
    decreases |x|
  {
    if x == [] {
      assert x + y == y;
    } else {
      assert (x + y)[1..] == x[1..] + y;
      FlattenAppend(x[1..], y);
    }
  }

  /** The first `b` batches hold the first b * size indices. */
  lemma {:induction false} BatchesPrefix<T>(indices: seq<T>, size: nat, b: nat)
    requires size > 0 && b * size <= |indices|
    ensures b <= |Batches(indices, size)|
    ensures Flatten(Batches(indices, size)[..b]) == indices[..b * size]
    decreases b
  {
    var bs := Batches(indices, size);
    if b == 0 {
      assert bs[..0] == [];
    } else {
      MulSucc(b - 1, size);
      if |indices| <= size {
        if b > 1 {
          MulMono(2, b, size);
        }
        assert b == 1 && bs == [indices];
        assert Flatten(bs[..1]) == indices + Flatten([]);
      } else {
        var rest := indices[size..];
        BatchesPrefix(rest, size, b - 1);
        assert bs[..b] == [indices[..size]] + Batches(rest, size)[..b - 1];
        assert bs[..b][1..] == Batches(rest, size)[..b - 1];
        assert indices[..size] + rest[..(b - 1) * size] == indices[..b * size];
      }
    }
  }

  /**
   * The pending rows of the batches the loop gets through, in order: a
   * prefix of the pending list, every one with an input text.
   */
  function ReachedRows(texts: seq<string>, pending: seq<nat>, size: nat): (r: seq<nat>)
    requires size > 0
    ensures IndicesBelow(r, |texts|) && |r| <= |pending| && r == pending[..|r|]
  {
    var bs := Batches(pending, size);
    var c := ReachedBatches(bs, |texts|);
    assert bs == bs[..c] + bs[c..];
    FlattenAppend(bs[..c], bs[c..]);
    BatchesFlatten(pending, size);
    FlattenBelow(bs[..c], |texts|);
    Flatten(bs[..c])
  }

  /**
   * The leading pending rows written when request number `f` of the batch
   * loop fails: for Ollama the rows before the row whose prompt fails, for
   * the bulk backend the rows of the `f` batches whose requests went through.
   */
  function RowsAtRequest(kind: ModelType, texts: seq<string>, pending: seq<nat>, size: nat, f: nat): (x: nat)
    requires size > 0
    ensures x <= |pending|
  {
    var rows := ReachedRows(texts, pending, size);
    match kind
    case Ollama => RowsBefore(texts, rows, f)
    case SentenceTransformers => Min(f * size, |rows|)
    case OtherType(_) => |rows|
  }

  /**
   * The same rows when the backend fails at its request number `failAt`
   * and the batch loop began after `base` requests.
   */
  function WrittenRows(kind: ModelType, texts: seq<string>, pending: seq<nat>, size: nat, failAt: nat, base: nat): (x: nat)
    requires size > 0 && base <= failAt
    ensures x <= |pending|
  {
    RowsAtRequest(kind, texts, pending, size, failAt - base)
  }

  /** Past the requests of `x` and within those of `y`, the failing row lies in `y`. */
  lemma RowsBeforeSplit(texts: seq<string>, x: seq<nat>, y: seq<nat>, z: seq<nat>, f: nat, g: nat)
    requires IndicesBelow(x, |texts|) && IndicesBelow(y, |texts|) && IndicesBelow(x + y + z, |texts|)
    requires g == f - |Prompts(texts, x)| && g < |Prompts(texts, y)|
    ensures RowsBefore(texts, x + y + z, f) == |x| + RowsBefore(texts, y, g)
  {
    var idx := x + y + z;
    var m := RowsBefore(texts, y, g);
    RowsBeforeFailing(texts, y, g);
    var r := |x| + m;
    assert idx[..r] == x + y[..m];
    assert idx[..r + 1] == x + y[..m + 1];
    PromptsAppend(texts, x, y[..m]);
    PromptsAppend(texts, x, y[..m + 1]);
    RowsBeforeUnique(texts, idx, f, r);
  }

  /**
   * A failure at request `f` of the loop inside batch `b` leaves written
   * the rows of the batches before it, then those `BatchWritten` gives for
   * batch `b` itself.
   */
  lemma WrittenRowsAt(kind: ModelType, texts: seq<string>, pending: seq<nat>, size: nat, b: nat, f: nat, g: nat)
    requires size > 0 && b < ReachedBatches(Batches(pending, size), |texts|)
    requires var bs := Batches(pending, size);
      g == f - |CallsOf(kind, texts, bs[..b])| && g < |BatchCalls(kind, texts, bs[b])|
    ensures RowsAtRequest(kind, texts, pending, size, f) == b * size + BatchWritten(kind, texts, Batches(pending, size)[b], g)
  {
    var bs := Batches(pending, size);
    var pre, rest := ReachedRowsSplit(texts, pending, size, b);
    match kind
    case Ollama =>
      CallsOfOllama(texts, bs[..b]);
      RowsBeforeSplit(texts, pre, bs[b], rest, f, g);
    case SentenceTransformers =>
      CallsOfBulk(texts, bs[..b]);
      assert |BatchCalls(kind, texts, bs[b])| == 1;
      assert f == b;
      assert |pre + bs[b] + rest| >= f * size;
    case OtherType(_) =>
      assert false;
  }

  /**
   * With Ollama, the failing request `f` is the prompt of the first pending
   * row left unwritten, and the rows written before it sent exactly the
   * `f` requests before it.
   */
  lemma OllamaFailingRow(texts: seq<string>, pending: seq<nat>, size: nat, f: nat)
    requires size > 0 && f < |BatchPlan(Ollama, texts, pending, size)|
    ensures var x := RowsAtRequest(Ollama, texts, pending, size, f);
      && x < |pending| && pending[x] < |texts|
      && IndicesBelow(pending[..x], |texts|) && |Prompts(texts, pending[..x])| == f
      && BatchPlan(Ollama, texts, pending, size)[f] == [texts[pending[x]]]
  {
    var bs := Batches(pending, size);
    var c := ReachedBatches(bs, |texts|);
    var rows := ReachedRows(texts, pending, size);
    CallsOfOllama(texts, bs[..c]);
    assert rows == Flatten(bs[..c]);
    var m := RowsBefore(texts, rows, f);
    FailingPrompt(texts, rows, f);
    assert rows[..m] == pending[..m] && rows[m] == pending[m];
  }

  /** Request `f` of the prompts of `idx` is the prompt of the row `RowsBefore` stops at. */
  lemma FailingPrompt(texts: seq<string>, idx: seq<nat>, f: nat)
    requires IndicesBelow(idx, |texts|) && f < |Prompts(texts, idx)|
    ensures var m := RowsBefore(texts, idx, f);
      m < |idx| && |Prompts(texts, idx[..m])| == f && Prompts(texts, idx)[f] == [texts[idx[m]]]
  {
    var m := RowsBefore(texts, idx, f);
    RowsBeforeFailing(texts, idx, f);
    PromptsSnoc(texts, idx, m);
    assert idx == idx[..m + 1] + idx[m + 1..];
    PromptsAppend(texts, idx[..m + 1], idx[m + 1..]);
  }

  /** With the bulk backend, the `f` batches before the failing request were written whole. */
  lemma BulkFailingBatch(texts: seq<string>, pending: seq<nat>, size: nat, f: nat)
    requires size > 0 && f < |BatchPlan(SentenceTransformers, texts, pending, size)|
    ensures RowsAtRequest(SentenceTransformers, texts, pending, size, f) == f * size
    ensures f < ReachedBatches(Batches(pending, size), |texts|)
    ensures BatchPlan(SentenceTransformers, texts, pending, size)[f] == TextsAt(texts, Batches(pending, size)[f])
  {
    var bs := Batches(pending, size);
    CallsOfBulk(texts, bs[..ReachedBatches(bs, |texts|)]);
    var pre, rest := ReachedRowsSplit(texts, pending, size, f);
  }

  /**
   * The reached rows around batch `b`: the rows of the batches before it
   * (the first b * size pending rows), the batch, then the rows after it.
   */
  lemma ReachedRowsSplit(texts: seq<string>, pending: seq<nat>, size: nat, b: nat) returns (pre: seq<nat>, rest: seq<nat>)
    requires size > 0 && b < ReachedBatches(Batches(pending, size), |texts|)
    ensures pre == Flatten(Batches(pending, size)[..b]) && |pre| == b * size
    ensures ReachedRows(texts, pending, size) == pre + Batches(pending, size)[b] + rest
    ensures IndicesBelow(pre, |texts|) && IndicesBelow(rest, |texts|)
  {
    var bs := Batches(pending, size);
    var c := ReachedBatches(bs, |texts|);
    BatchAt(pending, size, b);
    BatchesPrefix(pending, size, b);
    FlattenAround(bs, b, c);
    pre, rest := Flatten(bs[..b]), Flatten(bs[b + 1..c]);
    FlattenBelow(bs[..b], |texts|);
    FlattenBelow(bs[b + 1..c], |texts|);
  }

  /** The elements of the first `c` runs, around run `b`. */
  lemma FlattenAround<T>(bs: seq<seq<T>>, b: nat, c: nat)
    requires b < c <= |bs|
    ensures Flatten(bs[..c]) == Flatten(bs[..b]) + bs[b] + Flatten(bs[b + 1..c])
  {
    var front, one, back := bs[..b], [bs[b]], bs[b + 1..c];
    assert bs[..c] == front + one + back;
    FlattenAppend(front + one, back);
    FlattenAppend(front, one);
    assert Flatten(one) == bs[b] + Flatten([]);
  }

  /**
   * The requests of a run over the whole pending list: the warm-up first,
   * then the batches, of which there are none when the batch size is not
   * positive.
   */
  function Plan(kind: ModelType, texts: seq<string>, pending: seq<nat>, size: int): seq<seq<string>>
  {
    if pending == [] then []
    else (if kind.Ollama? then [[WarmUpPrompt]] else []) + (if size > 0 then BatchPlan(kind, texts, pending, size) else [])
  }

  /**
   * The leading pending rows a run has written when the backend fails at
   * its request number `failAt`: none when the warm-up fails or there is
   * no batch, else those the batch loop wrote.
   */
  function WrittenBeforeFailure(kind: ModelType, texts: seq<string>, pending: seq<nat>, size: int, failAt: nat): (x: nat)
    ensures x <= |pending|
  {
    var warm := if kind.Ollama? then 1 else 0;
    if size <= 0 || failAt < warm then 0 else WrittenRows(kind, texts, pending, size, failAt, warm)
  }

  /** The requests of the batches over the pending list that the loop gets through. */
  function BatchPlan(kind: ModelType, texts: seq<string>, pending: seq<nat>, size: nat): seq<seq<string>>
    requires size > 0
  {
    var bs := Batches(pending, size);
    CallsOf(kind, texts, bs[..ReachedBatches(bs, |texts|)])
  }

  /** The state of the vector column once the rows `done` have been written. */
  ghost predicate FilledUpTo(prior: seq<Cell>, cur: seq<Cell>, done: seq<nat>, texts: seq<string>, kind: ModelType, embed: string -> Vector) {
    && |cur| == |prior|
    && forall i :: 0 <= i < |prior| ==>
         cur[i] == (if i in done && Writes(kind) && i < |texts| then Fill(kind, embed, texts[i]) else prior[i])
  }

  /** The table a save writes: the run's table with the column's current cells. */
  function Snapshot(t: Table, col: string, cur: seq<Cell>): Table {
    t.(columns := t.columns[col := cur])
  }

  /**
   * A save made during a run: same rows, same columns, every other column
   * as loaded, and the model's column progressed from where it started.
   */
  ghost predicate SavedFrom(t: Table, col: string, s: Table, texts: seq<string>, kind: ModelType, embed: string -> Vector)
    requires col in t.columns
  {
    && s.rows == t.rows
    && s.columns.Keys == t.columns.Keys
    && (forall c :: c in t.columns && c != col ==> s.columns[c] == t.columns[c])
    && Progressed(t.columns[col], s.columns[col], texts, kind, embed)
  }

  /** Writing the rows of a prefix of the pending list only progresses the column. */
  lemma FilledIsProgressed(prior: seq<Cell>, cur: seq<Cell>, pending: seq<nat>, x: nat, texts: seq<string>, kind: ModelType, embed: string -> Vector)
    requires x <= |pending|
    requires forall m :: 0 <= m < |pending| ==> pending[m] < |prior| && Unprocessed(prior[pending[m]])
    requires FilledUpTo(prior, cur, pending[..x], texts, kind, embed)
    ensures Progressed(prior, cur, texts, kind, embed)
  {
    forall i | 0 <= i < |prior| && i in pending[..x]
      ensures Unprocessed(prior[i])
    {
      var m :| 0 <= m < x && pending[m] == i;
    }
  }

  lemma FilledAllIsCompleted(prior: seq<Cell>, cur: seq<Cell>, texts: seq<string>, kind: ModelType, embed: string -> Vector)
    requires FilledUpTo(prior, cur, UnprocessedIndices(prior), texts, kind, embed)
    ensures cur == Completed(prior, texts, kind, embed)
  {
    UnprocessedIndicesSpec(prior);
  }

  /** Writing one more row. */
  lemma FilledStep(prior: seq<Cell>, cur: seq<Cell>, rows: seq<nat>, m: nat, texts: seq<string>, kind: ModelType, embed: string -> Vector)
    requires m < |rows| && rows[m] < |prior| && rows[m] < |texts| && Writes(kind)
    requires FilledUpTo(prior, cur, rows[..m], texts, kind, embed)
    ensures FilledUpTo(prior, cur[rows[m] := Fill(kind, embed, texts[rows[m]])], rows[..m + 1], texts, kind, embed)
  {
    assert rows[..m + 1] == rows[..m] + [rows[m]];
  }

  /** Writing `first` and then `second` is writing `first + second`. */
  lemma FilledCompose(prior: seq<Cell>, mid: seq<Cell>, cur: seq<Cell>, first: seq<nat>, second: seq<nat>,
                      texts: seq<string>, kind: ModelType, embed: string -> Vector)
    requires FilledUpTo(prior, mid, first, texts, kind, embed)
    requires FilledUpTo(mid, cur, second, texts, kind, embed)
    ensures FilledUpTo(prior, cur, first + second, texts, kind, embed)
  {
  }

  /**
   * The requests actually made when the run would make `calls` and request
   * number `failAt` of them raises: every request up to and including the
   * failing one, or all of `calls` when none of them is number `failAt`.
   */
  function Attempted<T>(calls: seq<T>, failAt: nat): (r: seq<T>)
    ensures r <= calls
  {
    if failAt < |calls| then calls[..failAt + 1] else calls
  }

  /** A prefix that ends with the failing request is what was attempted. */
  lemma AttemptedPrefix<T>(calls: seq<T>, p: seq<T>, failAt: nat)
    requires p <= calls && |p| == failAt + 1
    ensures Attempted(calls, failAt) == p
  {
  }

  /** A failure inside `calls`, after `before` went through, cuts the run inside `calls`. */
  lemma AttemptedWithin<T>(before: seq<T>, calls: seq<T>, rest: seq<T>, failAt: nat)
    requires failAt < |calls|
    ensures Attempted(before + calls + rest, |before| + failAt) == before + Attempted(calls, failAt)
  {
    assert (before + calls + rest)[..|before| + failAt + 1] == before + calls[..failAt + 1];
  }

  /**
   * Runs one batch: per row for Ollama (blank texts get the marker without a
   * request), one bulk request for sentence-transformers, nothing for an
   * unknown backend. Its requests are numbered from `base`; `written` counts
   * the leading rows of the batch whose cells were written, which keep their
   * new cells when a request fails.
   */
  method RunBatch(a: array<Cell>, batch: seq<nat>, kind: ModelType, texts: seq<string>, backend: Backend, base: nat)
    returns (ok: bool, requests: seq<seq<string>>, ghost written: nat)
    requires IndicesBelow(batch, a.Length) && IndicesBelow(batch, |texts|) && base <= backend.failAt
    modifies a
    ensures requests == Attempted(BatchCalls(kind, texts, batch), backend.failAt - base)
    ensures ok <==> backend.failAt - base >= |BatchCalls(kind, texts, batch)|
    ensures written == BatchWritten(kind, texts, batch, backend.failAt - base)
    ensures ok ==> written == |batch|
    ensures FilledUpTo(old(a[..]), a[..], batch[..written], texts, kind, backend.embed)
  {
    match kind {
      case Ollama =>
        ok, requests, written := RunOllamaBatch(a, batch, texts, backend, base);
      case SentenceTransformers =>
        ok, requests, written := RunBulkBatch(a, batch, texts, backend, base);
      case OtherType(_) =>
        ok, requests, written := true, [], |batch|;
    }
  }

  /** The per-row loop of the Ollama backend. */
  method RunOllamaBatch(a: array<Cell>, batch: seq<nat>, texts: seq<string>, backend: Backend, base: nat)
    returns (ok: bool, requests: seq<seq<string>>, ghost written: nat)
    requires IndicesBelow(batch, a.Length) && IndicesBelow(batch, |texts|) && base <= backend.failAt
    modifies a
    ensures requests == Attempted(Prompts(texts, batch), backend.failAt - base)
    ensures ok <==> backend.failAt - base >= |Prompts(texts, batch)|
    ensures written == RowsBefore(texts, batch, backend.failAt - base)
    ensures ok ==> written == |batch|
    ensures FilledUpTo(old(a[..]), a[..], batch[..written], texts, Ollama, backend.embed)
  {
    ghost var initial := a[..];
    requests := [];
    var m := 0;
    while m < |batch|
      invariant 0 <= m <= |batch|
      invariant requests == Prompts(texts, batch[..m])
      invariant base + |requests| <= backend.failAt
      invariant FilledUpTo(initial, a[..], batch[..m], texts, Ollama, backend.embed)
    {
      var failed;
      failed, requests := OllamaStep(a, initial, batch, m, texts, backend, base, requests);
      if failed {
        return false, requests, m;
      }
      m := m + 1;
    }
    Seqs.PrefixWhole(batch);
    RowsBeforeUnique(texts, batch, backend.failAt - base, m);
    return true, requests, m;
  }

  /** Row `m` of the per-row loop, after the requests `requests0` of the rows before it. */
  method OllamaStep(a: array<Cell>, ghost initial: seq<Cell>, batch: seq<nat>, m: nat, texts: seq<string>, backend: Backend,
                    base: nat, requests0: seq<seq<string>>)
    returns (failed: bool, requests: seq<seq<string>>)
    requires m < |batch| && IndicesBelow(batch, a.Length) && IndicesBelow(batch, |texts|)
    requires requests0 == Prompts(texts, batch[..m]) && base + |requests0| <= backend.failAt
    requires FilledUpTo(initial, a[..], batch[..m], texts, Ollama, backend.embed)
    modifies a
    ensures !failed ==> requests == Prompts(texts, batch[..m + 1]) && base + |requests| <= backend.failAt
    ensures !failed ==> FilledUpTo(initial, a[..], batch[..m + 1], texts, Ollama, backend.embed)
    ensures failed ==> requests == Attempted(Prompts(texts, batch), backend.failAt - base)
    ensures failed ==> backend.failAt - base < |Prompts(texts, batch)|
    ensures failed ==> FilledUpTo(initial, a[..], batch[..m], texts, Ollama, backend.embed)
    ensures failed ==> m == RowsBefore(texts, batch, backend.failAt - base)
  {
    PromptsSnoc(texts, batch, m);
    ghost var before := a[..];
    var rowRequests;
    failed, rowRequests := RunOllamaRow(a, batch[m], texts, backend, base + |requests0|);
    requests := requests0 + rowRequests;
    if failed {
      OllamaRowFailed(texts, batch, m, base, backend.failAt);
      RowsBeforeUnique(texts, batch, backend.failAt - base, m);
    } else {
      FilledStep(initial, before, batch, m, texts, Ollama, backend.embed);
    }
  }

  /** The row whose request is the failing one ends the attempted requests of its batch. */
  lemma OllamaRowFailed(texts: seq<string>, batch: seq<nat>, m: nat, base: nat, failAt: nat)
    requires IndicesBelow(batch, |texts|) && m < |batch| && !Text.IsBlank(texts[batch[m]])
    requires base + |Prompts(texts, batch[..m])| == failAt
    ensures Prompts(texts, batch[..m]) + [[texts[batch[m]]]] == Attempted(Prompts(texts, batch), failAt - base)
    ensures failAt - base < |Prompts(texts, batch)|
  {
    PromptsSnoc(texts, batch, m);
    PromptsPrefix(texts, batch, m + 1);
    AttemptedPrefix(Prompts(texts, batch), Prompts(texts, batch[..m + 1]), failAt - base);
  }

  /** One row of the Ollama loop: the blank marker, or request number `n` and its vector. */
  method RunOllamaRow(a: array<Cell>, idx: nat, texts: seq<string>, backend: Backend, n: nat)
    returns (failed: bool, requests: seq<seq<string>>)
    requires idx < a.Length && idx < |texts|
    modifies a
    ensures requests == (if Text.IsBlank(texts[idx]) then [] else [[texts[idx]]])
    ensures failed <==> requests != [] && n == backend.failAt
    ensures !failed ==> a[..] == old(a[..])[idx := Fill(Ollama, backend.embed, texts[idx])]
    ensures failed ==> a[..] == old(a[..])
  {
    var text := texts[idx];
    if Text.IsBlank(text) {
      a[idx] := BlankMarker;
      return false, [];
    }
    requests := [[text]];
    if n == backend.failAt {
      return true, requests;
    }
    a[idx] := Json(backend.embed(text));
    failed := false;
  }

  lemma PromptsSnoc(texts: seq<string>, idx: seq<nat>, m: nat)
    requires IndicesBelow(idx, |texts|) && m < |idx|
    ensures Prompts(texts, idx[..m + 1]) ==
      Prompts(texts, idx[..m]) + (if Text.IsBlank(texts[idx[m]]) then [] else [[texts[idx[m]]]])
  {
    assert idx[..m + 1][..m] == idx[..m];
  }

  lemma PromptsPrefix(texts: seq<string>, idx: seq<nat>, m: nat)
    requires IndicesBelow(idx, |texts|) && m <= |idx|
    ensures Prompts(texts, idx[..m]) <= Prompts(texts, idx)
  {
    assert idx[..m] + idx[m..] == idx;
    PromptsAppend(texts, idx[..m], idx[m..]);
  }

  /** Requests grow with the rows: a shorter prefix never makes more of them. */
  lemma PromptsMono(texts: seq<string>, idx: seq<nat>, i: nat, j: nat)
    requires IndicesBelow(idx, |texts|) && i <= j <= |idx|
    ensures |Prompts(texts, idx[..i])| <= |Prompts(texts, idx[..j])|
  {
    assert idx[..j][..i] == idx[..i];
    PromptsPrefix(texts, idx[..j], i);
  }

  /**
   * The leading rows of `idx` that the per-row loop writes when request
   * number `f` of its requests fails: the longest prefix making at most `f`
   * requests. When `f` is past its requests, every row.
   */
  function RowsBefore(texts: seq<string>, idx: seq<nat>, f: nat): (m: nat)
    requires IndicesBelow(idx, |texts|)
    ensures m <= |idx| && |Prompts(texts, idx[..m])| <= f
    ensures m < |idx| ==> |Prompts(texts, idx[..m + 1])| > f
    decreases |idx|
  {
    if idx == [] || |Prompts(texts, idx)| <= f then
      assert idx[..|idx|] == idx;
      |idx|
    else
      var front := idx[..|idx| - 1];
      var m := RowsBefore(texts, front, f);
      assert front[..m] == idx[..m];
      assert m < |front| ==> front[..m + 1] == idx[..m + 1];
      assert m == |front| ==> idx[..m + 1] == idx;
      m
  }

  /** Only one prefix length has at most `f` requests while one more row makes more. */
  lemma RowsBeforeUnique(texts: seq<string>, idx: seq<nat>, f: nat, r: nat)
    requires IndicesBelow(idx, |texts|) && r <= |idx| && |Prompts(texts, idx[..r])| <= f
    requires r < |idx| ==> |Prompts(texts, idx[..r + 1])| > f
    ensures r == RowsBefore(texts, idx, f)
  {
    var m := RowsBefore(texts, idx, f);
    if r < m {
      PromptsMono(texts, idx, r + 1, m);
    } else if m < r {
      PromptsMono(texts, idx, m + 1, r);
    }
  }

  /**
   * When request `f` of the rows `idx` fails, it is the request of row
   * `RowsBefore(texts, idx, f)`: that row's text is not blank and the rows
   * before it made exactly the `f` requests that went through.
   */
  lemma RowsBeforeFailing(texts: seq<string>, idx: seq<nat>, f: nat)
    requires IndicesBelow(idx, |texts|) && f < |Prompts(texts, idx)|
    ensures var m := RowsBefore(texts, idx, f);
      m < |idx| && |Prompts(texts, idx[..m])| == f && !Text.IsBlank(texts[idx[m]])
  {
    var m := RowsBefore(texts, idx, f);
    if m == |idx| {
      Seqs.PrefixWhole(idx);
    } else {
      PromptsSnoc(texts, idx, m);
    }
  }

  /**
   * The leading rows of one batch written when request number `f` of the
   * batch's requests fails (every row when `f` is past them): per row for
   * Ollama, all or nothing for the bulk request, every row for an unknown
   * backend, which makes no request.
   */
  function BatchWritten(kind: ModelType, texts: seq<string>, batch: seq<nat>, f: nat): (x: nat)
    requires IndicesBelow(batch, |texts|)
    ensures x <= |batch|
  {
    match kind
    case Ollama => RowsBefore(texts, batch, f)
    case SentenceTransformers => if f == 0 then 0 else |batch|
    case OtherType(_) => |batch|
  }

  /** The bulk request (number `base`) of the sentence-transformers backend and its writes. */
  method RunBulkBatch(a: array<Cell>, batch: seq<nat>, texts: seq<string>, backend: Backend, base: nat)
    returns (ok: bool, requests: seq<seq<string>>, ghost written: nat)
    requires IndicesBelow(batch, a.Length) && IndicesBelow(batch, |texts|)
    modifies a
    ensures requests == [TextsAt(texts, batch)]
    ensures ok <==> base != backend.failAt
    ensures written == if ok then |batch| else 0
    ensures FilledUpTo(old(a[..]), a[..], batch[..written], texts, SentenceTransformers, backend.embed)
  {
    var batchTexts := TextsAt(texts, batch);
    requests := [batchTexts];
    if base == backend.failAt {
      return false, requests, 0;
    }
    ghost var initial := a[..];
    var m := 0;
    while m < |batch|
      invariant 0 <= m <= |batch|
      invariant FilledUpTo(initial, a[..], batch[..m], texts, SentenceTransformers, backend.embed)
    {
      FilledStep(initial, a[..], batch, m, texts, SentenceTransformers, backend.embed);
      a[batch[m]] := Json(backend.embed(batchTexts[m]));
      m := m + 1;
    }
    Seqs.PrefixWhole(batch);
    return true, requests, m;
  }

  /** The table a run of `cfg` starts from. */
  function StartTable(disk: Option<Table>, df: InputTable, cfg: ModelConfig): Table {
    Prepared(disk, df, ColumnName(cfg.name))
  }

  /** The rows of that table still to be embedded. */
  function PendingRows(disk: Option<Table>, df: InputTable, cfg: ModelConfig): seq<nat> {
    UnprocessedIndices(StartTable(disk, df, cfg).columns[ColumnName(cfg.name)])
  }

  /**
   * process_in_batches_csv. Returns how the run ended, the tables it saved
   * (in order; the last one is what the file holds afterwards, also when
   * the run raises) and the backend requests it made (in order). The saved
   * table may hold more or fewer rows than there are input texts.
   */
  method ProcessInBatchesCsv(disk: Option<Table>, df: InputTable, texts: seq<string>, cfg: ModelConfig, batchSize: int, backend: Backend)
    returns (outcome: Outcome, saves: seq<Table>, requests: seq<seq<string>>)
    ensures PendingRows(disk, df, cfg) == [] ==> outcome == Returned(true) && saves == [] && requests == []
    ensures requests == Attempted(Plan(cfg.kind, texts, PendingRows(disk, df, cfg), batchSize), backend.failAt)
    ensures outcome == Returned(false) <==> backend.failAt < |Plan(cfg.kind, texts, PendingRows(disk, df, cfg), batchSize)|
    ensures outcome == Raised(ZeroBatchSize) <==>
      PendingRows(disk, df, cfg) != [] && batchSize == 0 &&
      backend.failAt >= |Plan(cfg.kind, texts, PendingRows(disk, df, cfg), batchSize)|
    ensures outcome == Raised(TextIndexOutOfRange) <==>
      batchSize > 0 && backend.failAt >= |Plan(cfg.kind, texts, PendingRows(disk, df, cfg), batchSize)| &&
      !IndicesBelow(PendingRows(disk, df, cfg), |texts|)
    ensures AllSaved(saves, StartTable(disk, df, cfg), ColumnName(cfg.name), texts, cfg.kind, backend.embed)
    ensures outcome == Returned(true) && PendingRows(disk, df, cfg) != [] && batchSize > 0 ==>
      && |saves| == CheckpointCount(CeilDiv(|PendingRows(disk, df, cfg)|, batchSize)) + 1
      && var t := StartTable(disk, df, cfg);
         saves[|saves| - 1] == Snapshot(t, ColumnName(cfg.name),
           Completed(t.columns[ColumnName(cfg.name)], texts, cfg.kind, backend.embed))
    ensures outcome == Returned(true) && PendingRows(disk, df, cfg) != [] && batchSize < 0 ==>
      saves == [StartTable(disk, df, cfg)]
    ensures outcome == Returned(false) ==> (saves == [] <==> cfg.kind.Ollama? && backend.failAt == 0)
    ensures outcome == Raised(ZeroBatchSize) ==> saves == []
    ensures batchSize > 0 && outcome == Raised(TextIndexOutOfRange) ==>
      |saves| == ReachedBatches(Batches(PendingRows(disk, df, cfg), batchSize), |texts|) / SaveInterval
    ensures batchSize > 0 && outcome == Raised(TextIndexOutOfRange) ==>
      var col := ColumnName(cfg.name);
      Checkpoints(StartTable(disk, df, cfg).columns[col], SavedColumns(saves, col), PendingRows(disk, df, cfg),
                  batchSize, texts, cfg.kind, backend.embed)
    ensures outcome == Returned(true) && PendingRows(disk, df, cfg) != [] && batchSize > 0 ==>
      var col := ColumnName(cfg.name);
      Checkpoints(StartTable(disk, df, cfg).columns[col], SavedColumns(saves[..|saves| - 1], col), PendingRows(disk, df, cfg),
                  batchSize, texts, cfg.kind, backend.embed)
    ensures outcome == Returned(false) && saves != [] ==>
      && batchSize > 0
      && var col := ColumnName(cfg.name);
         var prior := StartTable(disk, df, cfg).columns[col];
         var pending := PendingRows(disk, df, cfg);
         && Checkpoints(prior, SavedColumns(saves[..|saves| - 1], col), pending, batchSize, texts, cfg.kind, backend.embed)
         && FilledUpTo(prior, SavedColumns(saves, col)[|saves| - 1],
              pending[..WrittenBeforeFailure(cfg.kind, texts, pending, batchSize, backend.failAt)], texts, cfg.kind, backend.embed)
  {
    var col := ColumnName(cfg.name);
    var t := Prepared(disk, df, col);
    var columns;
    outcome, columns, requests := EmbedColumn(t.columns[col], texts, cfg.kind, batchSize, backend);
    saves := Snapshots(t, col, columns);
    SnapshotsSaved(t, col, columns, texts, cfg.kind, backend.embed);
    SavedSnapshots(t, col, columns);
    if columns == [t.columns[col]] {
      assert Snapshot(t, col, t.columns[col]) == t;
    }
  }

  /**
   * The work of process_in_batches_csv on the model's column `prior`:
   * nothing when no row is pending, else the warm-up request (Ollama),
   * the number of batches and the batches. Returns how the run ended, the
   * saved states of the column and the requests.
   */
  method EmbedColumn(prior: seq<Cell>, texts: seq<string>, kind: ModelType, batchSize: int, backend: Backend)
    returns (outcome: Outcome, columns: seq<seq<Cell>>, requests: seq<seq<string>>)
    ensures UnprocessedIndices(prior) == [] ==> outcome == Returned(true) && columns == [] && requests == []
    ensures requests == Attempted(Plan(kind, texts, UnprocessedIndices(prior), batchSize), backend.failAt)
    ensures outcome == Returned(false) <==> backend.failAt < |Plan(kind, texts, UnprocessedIndices(prior), batchSize)|
    ensures outcome == Raised(ZeroBatchSize) <==>
      UnprocessedIndices(prior) != [] && batchSize == 0 &&
      backend.failAt >= |Plan(kind, texts, UnprocessedIndices(prior), batchSize)|
    ensures outcome == Raised(TextIndexOutOfRange) <==>
      batchSize > 0 && backend.failAt >= |Plan(kind, texts, UnprocessedIndices(prior), batchSize)| &&
      !IndicesBelow(UnprocessedIndices(prior), |texts|)
    ensures forall c :: c in columns ==> Progressed(prior, c, texts, kind, backend.embed)
    ensures outcome == Returned(true) && UnprocessedIndices(prior) != [] && batchSize > 0 ==>
      |columns| == CheckpointCount(CeilDiv(|UnprocessedIndices(prior)|, batchSize)) + 1 &&
      columns[|columns| - 1] == Completed(prior, texts, kind, backend.embed)
    ensures outcome == Returned(true) && UnprocessedIndices(prior) != [] && batchSize < 0 ==> columns == [prior]
    ensures outcome == Returned(false) ==> (columns == [] <==> kind.Ollama? && backend.failAt == 0)
    ensures outcome == Raised(ZeroBatchSize) ==> columns == []
    ensures batchSize > 0 && outcome == Raised(TextIndexOutOfRange) ==>
      |columns| == ReachedBatches(Batches(UnprocessedIndices(prior), batchSize), |texts|) / SaveInterval
    ensures batchSize > 0 && outcome == Raised(TextIndexOutOfRange) ==>
      Checkpoints(prior, columns, UnprocessedIndices(prior), batchSize, texts, kind, backend.embed)
    ensures outcome == Returned(true) && UnprocessedIndices(prior) != [] && batchSize > 0 ==>
      Checkpoints(prior, columns[..|columns| - 1], UnprocessedIndices(prior), batchSize, texts, kind, backend.embed)
    ensures outcome == Returned(false) && columns != [] ==>
      && batchSize > 0
      && Checkpoints(prior, columns[..|columns| - 1], UnprocessedIndices(prior), batchSize, texts, kind, backend.embed)
      && var pending := UnprocessedIndices(prior);
         FilledUpTo(prior, columns[|columns| - 1],
                    pending[..WrittenBeforeFailure(kind, texts, pending, batchSize, backend.failAt)], texts, kind, backend.embed)
  {
    var pending := UnprocessedIndices(prior);
    if pending == [] {
      assert UnprocessedIndices(prior) == [];
      return Returned(true), [], [];
    }
    var warm: seq<seq<string>> := if kind.Ollama? then [[WarmUpPrompt]] else [];
    if kind.Ollama? && backend.failAt == 0 {
      WarmUpFirst(kind, texts, pending, batchSize);
      return Returned(false), [], warm;
    }
    if batchSize <= 0 {
      assert Plan(kind, texts, pending, batchSize) == warm + [];
      if batchSize == 0 {
        // math.ceil(k / 0) raises outside every handler
        return Raised(ZeroBatchSize), [], warm;
      }
      // math.ceil(k / b) <= 0 for b < 0: no batch, then the final save
      return Returned(true), [prior], warm;
    }
    var got;
    outcome, columns, got := RunBatches(prior, texts, kind, batchSize, backend, |warm|);
    WarmUpThenBatches(kind, texts, pending, batchSize, warm, backend.failAt);
    WrittenAfterWarmUp(kind, texts, pending, batchSize, warm, backend.failAt);
    requests := warm + got;
  }

  /** After a warm-up that went through, the rows written are those of the batch loop. */
  lemma WrittenAfterWarmUp(kind: ModelType, texts: seq<string>, pending: seq<nat>, size: nat,
                           warm: seq<seq<string>>, failAt: nat)
    requires size > 0 && warm == (if kind.Ollama? then [[WarmUpPrompt]] else []) && |warm| <= failAt
    ensures WrittenBeforeFailure(kind, texts, pending, size, failAt) == WrittenRows(kind, texts, pending, size, failAt, |warm|)
  {
  }

  /** The plan of an Ollama run with pending rows starts with the warm-up request. */
  lemma WarmUpFirst(kind: ModelType, texts: seq<string>, pending: seq<nat>, size: int)
    requires pending != [] && kind.Ollama?
    ensures Attempted(Plan(kind, texts, pending, size), 0) == [[WarmUpPrompt]]
    ensures |Plan(kind, texts, pending, size)| > 0
  {
    var rest := if size > 0 then BatchPlan(kind, texts, pending, size) else [];
    assert Plan(kind, texts, pending, size) == [[WarmUpPrompt]] + rest;
  }

  /** A run's requests: the warm-up request, if any, then those of the batches. */
  lemma WarmUpThenBatches(kind: ModelType, texts: seq<string>, pending: seq<nat>, size: nat,
                          warm: seq<seq<string>>, failAt: nat)
    requires size > 0 && pending != []
    requires warm == (if kind.Ollama? then [[WarmUpPrompt]] else []) && |warm| <= failAt
    ensures warm + Attempted(BatchPlan(kind, texts, pending, size), failAt - |warm|)
         == Attempted(Plan(kind, texts, pending, size), failAt)
    ensures failAt - |warm| >= |BatchPlan(kind, texts, pending, size)| <==> failAt >= |Plan(kind, texts, pending, size)|
  {
    var calls := BatchPlan(kind, texts, pending, size);
    assert Plan(kind, texts, pending, size) == warm + calls + [];
    if failAt - |warm| < |calls| {
      AttemptedWithin(warm, calls, [], failAt - |warm|);
    }
  }

  /** The tables the saves write, one per saved state of the column. */
  function Snapshots(t: Table, col: string, columns: seq<seq<Cell>>): (r: seq<Table>)
    ensures |r| == |columns| && forall j :: 0 <= j < |columns| ==> r[j] == Snapshot(t, col, columns[j])
  {
    seq(|columns|, j requires 0 <= j < |columns| => Snapshot(t, col, columns[j]))
  }

  /** The model's column in each of the saved tables. */
  function SavedColumns(saves: seq<Table>, col: string): (r: seq<seq<Cell>>)
    ensures |r| == |saves|
    ensures forall j :: 0 <= j < |saves| && col in saves[j].columns ==> r[j] == saves[j].columns[col]
  {
    seq(|saves|, j requires 0 <= j < |saves| => if col in saves[j].columns then saves[j].columns[col] else [])
  }

  /** The saved tables hold the saved states of the column, in order. */
  lemma SavedSnapshots(t: Table, col: string, columns: seq<seq<Cell>>)
    ensures SavedColumns(Snapshots(t, col, columns), col) == columns
    ensures columns != [] ==> SavedColumns(Snapshots(t, col, columns)[..|columns| - 1], col) == columns[..|columns| - 1]
  {
    var saves := Snapshots(t, col, columns);
    if columns != [] {
      assert saves[..|columns| - 1] == Snapshots(t, col, columns[..|columns| - 1]);
    }
  }

  lemma SnapshotsSaved(t: Table, col: string, columns: seq<seq<Cell>>, texts: seq<string>, kind: ModelType, embed: string -> Vector)
    requires col in t.columns
    requires forall c :: c in columns ==> Progressed(t.columns[col], c, texts, kind, embed)
    ensures AllSaved(Snapshots(t, col, columns), t, col, texts, kind, embed)
  {
    forall s | s in Snapshots(t, col, columns)
      ensures SavedFrom(t, col, s, texts, kind, embed)
    {
      var j :| 0 <= j < |columns| && Snapshots(t, col, columns)[j] == s;
      assert columns[j] in columns;
    }
  }

  /** Every table in `saves` is a save of the run (see SavedFrom). */
  ghost predicate AllSaved(saves: seq<Table>, t: Table, col: string, texts: seq<string>, kind: ModelType, embed: string -> Vector)
    requires col in t.columns
  {
    forall s :: s in saves ==> SavedFrom(t, col, s, texts, kind, embed)
  }

  /**
   * The batch loop of process_in_batches_csv, after the warm-up, over the
   * column `prior`. Returns how it ended, the states of the column it saved,
   * in order (every tenth batch, the last batch, a failed batch, the final
   * save), and the requests it made, numbered from `base`.
   */
  method RunBatches(prior: seq<Cell>, texts: seq<string>, kind: ModelType, batchSize: nat, backend: Backend, base: nat)
    returns (outcome: Outcome, columns: seq<seq<Cell>>, requests: seq<seq<string>>)
    requires batchSize > 0 && base <= backend.failAt
    ensures requests == Attempted(BatchPlan(kind, texts, UnprocessedIndices(prior), batchSize), backend.failAt - base)
    ensures outcome == Returned(false) <==>
      backend.failAt - base < |BatchPlan(kind, texts, UnprocessedIndices(prior), batchSize)|
    ensures outcome == Raised(TextIndexOutOfRange) <==>
      backend.failAt - base >= |BatchPlan(kind, texts, UnprocessedIndices(prior), batchSize)| &&
      !IndicesBelow(UnprocessedIndices(prior), |texts|)
    ensures outcome != Raised(ZeroBatchSize)
    ensures forall c :: c in columns ==> Progressed(prior, c, texts, kind, backend.embed)
    ensures outcome == Returned(false) ==> columns != []
    ensures outcome == Raised(TextIndexOutOfRange) ==>
      |columns| == ReachedBatches(Batches(UnprocessedIndices(prior), batchSize), |texts|) / SaveInterval
    ensures outcome == Returned(true) ==> |columns| == CheckpointCount(CeilDiv(|UnprocessedIndices(prior)|, batchSize)) + 1
    ensures outcome == Returned(true) ==> columns[|columns| - 1] == Completed(prior, texts, kind, backend.embed)
    ensures outcome == Raised(TextIndexOutOfRange) ==>
      Checkpoints(prior, columns, UnprocessedIndices(prior), batchSize, texts, kind, backend.embed)
    ensures outcome.Returned? ==>
      Checkpoints(prior, columns[..|columns| - 1], UnprocessedIndices(prior), batchSize, texts, kind, backend.embed)
    ensures outcome == Returned(false) ==>
      var pending := UnprocessedIndices(prior);
      FilledUpTo(prior, columns[|columns| - 1], pending[..WrittenRows(kind, texts, pending, batchSize, backend.failAt, base)],
                 texts, kind, backend.embed)
  {
    var pending := UnprocessedIndices(prior);
    var a := new Cell[|prior|](i requires 0 <= i < |prior| => prior[i]);
    UnprocessedIndicesSpec(prior);
    BatchesCount(pending, batchSize);
    ReachedAll(pending, batchSize, |texts|);
    assert a[..] == prior;
    ghost var done;
    outcome, columns, requests, done := BatchLoop(a, prior, pending, batchSize, kind, texts, backend, base);
    if outcome == Returned(true) {
      FilledAllIsCompleted(prior, a[..], texts, kind, backend.embed);
      FilledIsProgressed(prior, a[..], pending, |pending|, texts, kind, backend.embed);
      ghost var saved := columns;
      columns := columns + [a[..]];
      assert columns[..|columns| - 1] == saved;
    }
  }

  /**
   * The loop over the batches of the pending rows `pending`, writing into
   * `a`; stops at the first batch that fails, and raises at the first batch
   * holding a row without an input text.
   */
  method BatchLoop(a: array<Cell>, ghost prior: seq<Cell>, pending: seq<nat>, batchSize: nat,
                   kind: ModelType, texts: seq<string>, backend: Backend, base: nat)
    returns (outcome: Outcome, columns: seq<seq<Cell>>, requests: seq<seq<string>>, ghost done: nat)
    requires batchSize > 0 && |prior| == a.Length && a[..] == prior
    requires forall m :: 0 <= m < |pending| ==> pending[m] < |prior| && Unprocessed(prior[pending[m]])
    requires |Batches(pending, batchSize)| == CeilDiv(|pending|, batchSize)
    requires base <= backend.failAt
    modifies a
    ensures requests == Attempted(BatchPlan(kind, texts, pending, batchSize), backend.failAt - base)
    ensures outcome == Returned(false) <==> backend.failAt - base < |BatchPlan(kind, texts, pending, batchSize)|
    ensures outcome == Raised(TextIndexOutOfRange) <==>
      backend.failAt - base >= |BatchPlan(kind, texts, pending, batchSize)| &&
      ReachedBatches(Batches(pending, batchSize), |texts|) < |Batches(pending, batchSize)|
    ensures outcome != Raised(ZeroBatchSize)
    ensures forall c :: c in columns ==> Progressed(prior, c, texts, kind, backend.embed)
    ensures outcome == Returned(false) ==> columns != []
    ensures outcome == Raised(TextIndexOutOfRange) ==>
      |columns| == ReachedBatches(Batches(pending, batchSize), |texts|) / SaveInterval
    ensures outcome == Returned(true) ==> |columns| == CheckpointCount(CeilDiv(|pending|, batchSize))
    ensures outcome == Returned(true) ==> done == |pending| && FilledUpTo(prior, a[..], pending, texts, kind, backend.embed)
    ensures outcome != Returned(false) ==> Checkpoints(prior, columns, pending, batchSize, texts, kind, backend.embed)
    ensures outcome == Returned(false) ==>
      && Checkpoints(prior, columns[..|columns| - 1], pending, batchSize, texts, kind, backend.embed)
      && FilledUpTo(prior, columns[|columns| - 1],
           pending[..WrittenRows(kind, texts, pending, batchSize, backend.failAt, base)], texts, kind, backend.embed)
  {
    var k := |pending|;
    var numBatches := CeilDiv(k, batchSize);
    CeilDivBounds(k, batchSize);
    ghost var bs := Batches(pending, batchSize);
    ghost var reached := bs[..ReachedBatches(bs, |texts|)];
    done := 0;
    assert reached[..0] == [];
    columns := [];
    requests := [];
    var b := 0;
    while b < numBatches
      invariant 0 <= b <= numBatches == |bs|
      invariant b <= |reached|
      invariant done == Min(b * batchSize, k)
      invariant FilledUpTo(prior, a[..], pending[..done], texts, kind, backend.embed)
      invariant requests == CallsOf(kind, texts, reached[..b])
      invariant base + |requests| <= backend.failAt
      invariant |columns| == SavesAfter(b, numBatches)
      invariant forall c :: c in columns ==> Progressed(prior, c, texts, kind, backend.embed)
      invariant Checkpoints(prior, columns, pending, batchSize, texts, kind, backend.embed)
    {
      var exit;
      exit, columns, requests, done := BatchIteration(a, prior, pending, bs, reached, b, numBatches, batchSize,
                                                      kind, texts, backend, base, done, requests, columns);
      if exit.Some? {
        assert CallsOf(kind, texts, reached) == BatchPlan(kind, texts, pending, batchSize);
        return exit.value, columns, requests, done;
      }
      b := b + 1;
    }
    Seqs.PrefixWhole(pending);
    Seqs.PrefixWhole(reached);
    outcome := Returned(true);
  }

  /**
   * One pass of the batch loop over batch `b`: it raises when the batch
   * holds a row without an input text, else runs the batch, stops the loop
   * when the batch fails (saving first) and saves after every tenth batch
   * and after the last one. `reached` are the batches the loop gets through.
   */
  method BatchIteration(a: array<Cell>, ghost prior: seq<Cell>, pending: seq<nat>, ghost bs: seq<seq<nat>>, ghost reached: seq<seq<nat>>,
                        b: nat, numBatches: nat, batchSize: nat, kind: ModelType, texts: seq<string>, backend: Backend,
                        base: nat, ghost done: nat, requests0: seq<seq<string>>, columns0: seq<seq<Cell>>)
    returns (exit: Option<Outcome>, columns: seq<seq<Cell>>, requests: seq<seq<string>>, ghost newDone: nat)
    requires batchSize > 0 && |prior| == a.Length
    requires forall m :: 0 <= m < |pending| ==> pending[m] < |prior| && Unprocessed(prior[pending[m]])
    requires bs == Batches(pending, batchSize) && reached == bs[..ReachedBatches(bs, |texts|)]
    requires b < numBatches == |bs| && b <= |reached|
    requires done == Min(b * batchSize, |pending|)
    requires FilledUpTo(prior, a[..], pending[..done], texts, kind, backend.embed)
    requires requests0 == CallsOf(kind, texts, reached[..b]) && base + |requests0| <= backend.failAt
    requires |columns0| == SavesAfter(b, numBatches)
    requires forall c :: c in columns0 ==> Progressed(prior, c, texts, kind, backend.embed)
    requires Checkpoints(prior, columns0, pending, batchSize, texts, kind, backend.embed)
    modifies a
    ensures forall c :: c in columns ==> Progressed(prior, c, texts, kind, backend.embed)
    ensures exit.None? ==>
      && b + 1 <= |reached|
      && newDone == Min((b + 1) * batchSize, |pending|)
      && FilledUpTo(prior, a[..], pending[..newDone], texts, kind, backend.embed)
      && requests == CallsOf(kind, texts, reached[..b + 1]) && base + |requests| <= backend.failAt
      && |columns| == SavesAfter(b + 1, numBatches)
      && Checkpoints(prior, columns, pending, batchSize, texts, kind, backend.embed)
    ensures exit == Some(Raised(TextIndexOutOfRange)) ==>
      b == |reached| && requests == requests0 == CallsOf(kind, texts, reached) && columns == columns0
    ensures exit == Some(Returned(false)) ==>
      && requests == Attempted(CallsOf(kind, texts, reached), backend.failAt - base)
      && backend.failAt - base < |CallsOf(kind, texts, reached)|
      && columns != [] && columns[..|columns| - 1] == columns0
      && FilledUpTo(prior, columns[|columns| - 1],
           pending[..WrittenRows(kind, texts, pending, batchSize, backend.failAt, base)], texts, kind, backend.embed)
    ensures exit.Some? ==> exit == Some(Raised(TextIndexOutOfRange)) || exit == Some(Returned(false))
  {
    columns := columns0;
    requests := requests0;
    BatchAt(pending, batchSize, b);
    var batch := pending[b * batchSize..Min((b + 1) * batchSize, |pending|)];
    ReachedAt(bs, |texts|, b);
    if !IndicesBelow(batch, |texts|) {
      // `texts[idx]` raises outside the try block
      Seqs.PrefixWhole(reached);
      exit := Some(Raised(TextIndexOutOfRange));
      assert exit != Some(Returned(false));
      return exit, columns, requests, done;
    }
    var ok;
    ghost var at;
    ok, requests, newDone, at := BatchStep(a, prior, pending, reached, b, batchSize, kind, texts, backend, base, done, requests0);
    if !ok {
      columns := SaveFailedBatch(a[..], prior, pending, bs, reached, b, batchSize, kind, texts, backend.embed,
                                 base, backend.failAt, requests0, at, done, newDone, columns0);
      return Some(Returned(false)), columns, requests, newDone;
    }
    SavesAfterStep(b, numBatches);
    if (b + 1) % SaveInterval == 0 || b + 1 == numBatches {
      FilledIsProgressed(prior, a[..], pending, newDone, texts, kind, backend.embed);
      BatchesCount(pending, batchSize);
      CheckpointRows(b, numBatches, batchSize, |pending|);
      CheckpointsSnoc(prior, columns, a[..], pending, batchSize, texts, kind, backend.embed);
      columns := columns + [a[..]];
    }
    exit := None;
    assert exit != Some(Returned(false));
  }

  /** The save made when batch `b` fails: the table as the failing request left it. */
  method SaveFailedBatch(cur: seq<Cell>, ghost prior: seq<Cell>, pending: seq<nat>, ghost bs: seq<seq<nat>>,
                         ghost reached: seq<seq<nat>>, b: nat, size: nat, kind: ModelType, texts: seq<string>,
                         embed: string -> Vector, base: nat, failAt: nat, requests0: seq<seq<string>>,
                         ghost at: int, ghost done: nat, ghost newDone: nat, columns0: seq<seq<Cell>>)
    returns (columns: seq<seq<Cell>>)
    requires size > 0 && bs == Batches(pending, size) && reached == bs[..ReachedBatches(bs, |texts|)] && b < |reached|
    requires forall m :: 0 <= m < |pending| ==> pending[m] < |prior| && Unprocessed(prior[pending[m]])
    requires done == Min(b * size, |pending|)
    requires requests0 == CallsOf(kind, texts, reached[..b]) && base + |requests0| <= failAt
    requires at == failAt - base - |requests0|
    requires newDone == done + BatchWritten(kind, texts, reached[b], at) && at < |BatchCalls(kind, texts, reached[b])|
    requires newDone <= |pending| && FilledUpTo(prior, cur, pending[..newDone], texts, kind, embed)
    requires forall c :: c in columns0 ==> Progressed(prior, c, texts, kind, embed)
    ensures forall c :: c in columns ==> Progressed(prior, c, texts, kind, embed)
    ensures columns != [] && columns[..|columns| - 1] == columns0
    ensures FilledUpTo(prior, columns[|columns| - 1], pending[..WrittenRows(kind, texts, pending, size, failAt, base)],
                       texts, kind, embed)
  {
    FailedBatchSave(prior, cur, pending, bs, reached, b, size, kind, texts, embed, base, failAt, requests0, at, done, newDone);
    FilledIsProgressed(prior, cur, pending, newDone, texts, kind, embed);
    columns := columns0 + [cur];
    assert columns[..|columns| - 1] == columns0 && columns[|columns| - 1] == cur;
  }

  /** The save after batch `b` fails holds the rows `WrittenRows` gives for the failing request. */
  lemma FailedBatchSave(prior: seq<Cell>, cur: seq<Cell>, pending: seq<nat>, bs: seq<seq<nat>>, reached: seq<seq<nat>>,
                        b: nat, size: nat, kind: ModelType, texts: seq<string>, embed: string -> Vector,
                        base: nat, failAt: nat, requests0: seq<seq<string>>, at: int, done: nat, newDone: nat)
    requires size > 0 && bs == Batches(pending, size) && reached == bs[..ReachedBatches(bs, |texts|)] && b < |reached|
    requires done == Min(b * size, |pending|)
    requires requests0 == CallsOf(kind, texts, reached[..b]) && base + |requests0| <= failAt
    requires at == failAt - base - |requests0|
    requires newDone == done + BatchWritten(kind, texts, reached[b], at) && at < |BatchCalls(kind, texts, reached[b])|
    requires newDone <= |pending| && FilledUpTo(prior, cur, pending[..newDone], texts, kind, embed)
    ensures FilledUpTo(prior, cur, pending[..WrittenRows(kind, texts, pending, size, failAt, base)], texts, kind, embed)
  {
    FailedBatchWritten(pending, bs, reached, b, size, kind, texts, base, failAt, requests0, at, done, newDone);
  }

  /** The rows written when batch `b` fails are the rows `WrittenRows` gives for the failing request. */
  lemma FailedBatchWritten(pending: seq<nat>, bs: seq<seq<nat>>, reached: seq<seq<nat>>,
                           b: nat, size: nat, kind: ModelType, texts: seq<string>,
                           base: nat, failAt: nat, requests0: seq<seq<string>>, at: int, done: nat, newDone: nat)
    requires size > 0 && bs == Batches(pending, size) && reached == bs[..ReachedBatches(bs, |texts|)] && b < |reached|
    requires done == Min(b * size, |pending|)
    requires requests0 == CallsOf(kind, texts, reached[..b]) && base + |requests0| <= failAt
    requires at == failAt - base - |requests0|
    requires newDone == done + BatchWritten(kind, texts, reached[b], at) && at < |BatchCalls(kind, texts, reached[b])|
    ensures newDone == WrittenRows(kind, texts, pending, size, failAt, base)
  {
    ReachedFront(bs, reached, |texts|, b);
    FailedBatchRows(kind, texts, pending, size, b, failAt, base, at, done, newDone);
  }

  /** The reached batches begin with batch `b` and those before it. */
  lemma ReachedFront(bs: seq<seq<nat>>, reached: seq<seq<nat>>, n: nat, b: nat)
    requires reached == bs[..ReachedBatches(bs, n)] && b < |reached|
    ensures reached[..b] == bs[..b] && reached[b] == bs[b]
  {
  }

  /** The rows written once batch `b`, reached, fails: those `WrittenRows` gives for the failing request. */
  lemma FailedBatchRows(kind: ModelType, texts: seq<string>, pending: seq<nat>, size: nat, b: nat,
                        failAt: nat, base: nat, g: nat, done: nat, newDone: nat)
    requires size > 0 && b < ReachedBatches(Batches(pending, size), |texts|) && base <= failAt
    requires var bs := Batches(pending, size);
      g == failAt - base - |CallsOf(kind, texts, bs[..b])| && g < |BatchCalls(kind, texts, bs[b])|
    requires done == Min(b * size, |pending|)
    requires newDone == done + BatchWritten(kind, texts, Batches(pending, size)[b], g)
    ensures newDone == WrittenRows(kind, texts, pending, size, failAt, base)
  {
    BatchAt(pending, size, b);
    var f := failAt - base;
    WrittenRowsAt(kind, texts, pending, size, b, f, g);
    WrittenRowsRequest(kind, texts, pending, size, failAt, base, f);
  }

  /** `WrittenRows` is `RowsAtRequest` at the loop's own numbering of the failing request. */
  lemma WrittenRowsRequest(kind: ModelType, texts: seq<string>, pending: seq<nat>, size: nat, failAt: nat, base: nat, f: nat)
    requires size > 0 && base <= failAt && f == failAt - base
    ensures WrittenRows(kind, texts, pending, size, failAt, base) == RowsAtRequest(kind, texts, pending, size, f)
  {
  }

  /**
   * One iteration of the batch loop together with the requests made so
   * far, numbered from `base`; `bs` are the batches the loop gets through.
   * `at` is the backend's failing request counted from the batch's first.
   */
  method BatchStep(a: array<Cell>, ghost prior: seq<Cell>, pending: seq<nat>, ghost bs: seq<seq<nat>>, b: nat, batchSize: nat,
                   kind: ModelType, texts: seq<string>, backend: Backend, base: nat, ghost done: nat,
                   requests0: seq<seq<string>>)
    returns (ok: bool, requests: seq<seq<string>>, ghost newDone: nat, ghost at: int)
    requires batchSize > 0 && |prior| == a.Length
    requires IndicesBelow(pending, a.Length)
    requires forall x :: x in bs ==> IndicesBelow(x, |texts|)
    requires b < |bs| && b * batchSize < |pending| && bs[b] == pending[b * batchSize..Min((b + 1) * batchSize, |pending|)]
    requires done == Min(b * batchSize, |pending|)
    requires FilledUpTo(prior, a[..], pending[..done], texts, kind, backend.embed)
    requires requests0 == CallsOf(kind, texts, bs[..b])
    requires base + |requests0| <= backend.failAt
    modifies a
    ensures newDone <= |pending| && FilledUpTo(prior, a[..], pending[..newDone], texts, kind, backend.embed)
    ensures ok ==> newDone == Min((b + 1) * batchSize, |pending|)
    ensures at == backend.failAt - base - |requests0|
    ensures newDone == done + BatchWritten(kind, texts, bs[b], at)
    ensures !ok ==> at < |BatchCalls(kind, texts, bs[b])|
    ensures ok ==> requests == CallsOf(kind, texts, bs[..b + 1]) && base + |requests| <= backend.failAt
    ensures !ok ==> requests == Attempted(CallsOf(kind, texts, bs), backend.failAt - base)
    ensures !ok ==> backend.failAt - base < |CallsOf(kind, texts, bs)|
  {
    var got;
    at := backend.failAt - base - |requests0|;
    assert backend.failAt - (base + |requests0|) == at;
    ok, got, newDone := ProcessBatch(a, prior, pending, bs, b, batchSize, kind, texts, backend, base + |requests0|, done);
    assert newDone == done + BatchWritten(kind, texts, bs[b], at);
    RequestsAfterBatch(kind, texts, bs, b, requests0, got, ok, at);
    requests := requests0 + got;
  }

  /**
   * One iteration of the batch loop: batch `b` is the slice
   * [b * size, min((b + 1) * size, k)) of the pending rows. `done` and
   * `newDone` count the pending rows written before and after it.
   */
  method ProcessBatch(a: array<Cell>, ghost prior: seq<Cell>, pending: seq<nat>, ghost bs: seq<seq<nat>>, b: nat, batchSize: nat,
                      kind: ModelType, texts: seq<string>, backend: Backend, base: nat, ghost done: nat)
    returns (ok: bool, requests: seq<seq<string>>, ghost newDone: nat)
    requires batchSize > 0 && |prior| == a.Length
    requires IndicesBelow(pending, a.Length) && base <= backend.failAt
    requires forall x :: x in bs ==> IndicesBelow(x, |texts|)
    requires b < |bs| && b * batchSize < |pending| && bs[b] == pending[b * batchSize..Min((b + 1) * batchSize, |pending|)]
    requires done == Min(b * batchSize, |pending|)
    requires FilledUpTo(prior, a[..], pending[..done], texts, kind, backend.embed)
    modifies a
    ensures requests == Attempted(BatchCalls(kind, texts, bs[b]), backend.failAt - base)
    ensures ok <==> backend.failAt - base >= |BatchCalls(kind, texts, bs[b])|
    ensures done <= newDone <= |pending| && (ok ==> newDone == Min((b + 1) * batchSize, |pending|))
    ensures newDone == done + BatchWritten(kind, texts, bs[b], backend.failAt - base)
    ensures FilledUpTo(prior, a[..], pending[..newDone], texts, kind, backend.embed)
  {
    var start := b * batchSize;
    var end := Min((b + 1) * batchSize, |pending|);
    assert start + batchSize == (b + 1) * batchSize;
    var batch := pending[start..end];
    ghost var before := a[..];
    ghost var written;
    ok, requests, written := RunBatch(a, batch, kind, texts, backend, base);
    assert pending[..start] + batch[..written] == pending[..start + written] by {
      SliceJoin(pending, start, end, written);
    }
    FilledCompose(prior, before, a[..], pending[..start], batch[..written], texts, kind, backend.embed);
    newDone := start + written;
  }

  lemma SliceJoin(s: seq<nat>, start: nat, end: nat, n: nat)
    requires start <= end <= |s| && n <= end - start
    ensures s[..start] + s[start..end][..n] == s[..start + n]
  {
  }

  /**
   * The requests after batch `b`, whose own requests failed at number
   * `failAt` (counted within the batch): the plan's requests so far, or
   * the plan cut at the failing request.
   */
  lemma RequestsAfterBatch(kind: ModelType, texts: seq<string>, bs: seq<seq<nat>>, b: nat,
                           before: seq<seq<string>>, got: seq<seq<string>>, ok: bool, failAt: nat)
    requires b < |bs| && forall x :: x in bs ==> IndicesBelow(x, |texts|)
    requires before == CallsOf(kind, texts, bs[..b])
    requires got == Attempted(BatchCalls(kind, texts, bs[b]), failAt)
    requires ok <==> failAt >= |BatchCalls(kind, texts, bs[b])|
    ensures ok ==> before + got == CallsOf(kind, texts, bs[..b + 1])
    ensures !ok ==> before + got == Attempted(CallsOf(kind, texts, bs), |before| + failAt)
    ensures !ok ==> |before| + failAt < |CallsOf(kind, texts, bs)|
  {
    var one: seq<seq<nat>> := [bs[b]];
    assert bs[..b] + one == bs[..b + 1];
    assert bs[..b + 1] + bs[b + 1..] == bs;
    CallsOfAppend(kind, texts, bs[..b], one);
    CallsOfAppend(kind, texts, bs[..b + 1], bs[b + 1..]);
    CallsOfSingle(kind, texts, bs[b]);
    if !ok {
      AttemptedWithin(before, BatchCalls(kind, texts, bs[b]), CallsOf(kind, texts, bs[b + 1..]), failAt);
    }
  }

  lemma CallsOfSingle(kind: ModelType, texts: seq<string>, batch: seq<nat>)
    requires IndicesBelow(batch, |texts|)
    ensures CallsOf(kind, texts, [batch]) == BatchCalls(kind, texts, batch)
  {
    var one: seq<seq<nat>> := [batch];
    assert one[1..] == [];
  }

  /**
   * --model: keep the configured models of that name, in configuration
   * order; None when there are none. An absent or empty --model is falsy
   * and selects every configured model.
   */
  function SelectModels(models: seq<ModelConfig>, only: Option<string>): (r: Option<seq<ModelConfig>>)
    ensures only.None? || only == Some("") ==> r == Some(models)
    ensures only.Some? && only.value != "" ==>
      (r.None? <==> forall m :: m in models ==> m.name != only.value)
    ensures only.Some? && only.value != "" && r.Some? ==>
      r.value == Named(models, only.value) && forall m :: m in r.value <==> m in models && m.name == only.value
  {
    if only.None? || only.value == "" then Some(models)
    else
      var kept := Named(models, only.value);
      if kept == [] then None
      else
        assert kept[0] in kept;
        Some(kept)
  }

  /** The configured models named `name`, in configuration order, each occurrence kept. */
  function Named(models: seq<ModelConfig>, name: string): (r: seq<ModelConfig>)
    ensures forall m :: m in r <==> m in models && m.name == name
    ensures |r| <= |models|
  {
    if models == [] then []
    else (if models[0].name == name then [models[0]] else []) + Named(models[1..], name)
  }

  /** Each model of that name is kept as often as it is configured, any other not at all. */
  lemma {:induction false} NamedMultiplicity(models: seq<ModelConfig>, name: string, m: ModelConfig)
    ensures multiset(Named(models, name))[m] == (if m.name == name then multiset(models)[m] else 0)
  {
    if models != [] {
      NamedMultiplicity(models[1..], name, m);
      assert models == [models[0]] + models[1..];
      assert multiset(models) == multiset{models[0]} + multiset(models[1..]);
    }
  }

  /** The filter keeps configuration order: it distributes over concatenation. */
  lemma {:induction false} NamedAppend(x: seq<ModelConfig>, y: seq<ModelConfig>, name: string)
    ensures Named(x + y, name) == Named(x, name) + Named(y, name)
  {
    if x != [] {
      assert (x + y)[1..] == x[1..] + y;
      NamedAppend(x[1..], y, name);
    } else {
      assert x + y == y;
    }
  }

  /** --force: the saved table without the model's column. */
  function DropColumn(t: Table, col: string): (r: Table)
    ensures r.rows == t.rows && r.columns.Keys == t.columns.Keys - {col}
    ensures forall c :: c in r.columns ==> r.columns[c] == t.columns[c]
  {
    t.(columns := t.columns - {col})
  }

  /** No selected model writes column `c`. */
  predicate Unowned(c: string, models: seq<ModelConfig>) {
    forall m :: m in models ==> c != ColumnName(m.name)
  }

  /** Every column of `before` that no selected model writes is in `after`, unchanged. */
  predicate KeepsUnowned(before: Table, after: Table, models: seq<ModelConfig>) {
    forall c :: c in before.columns && Unowned(c, models) ==>
      c in after.columns && after.columns[c] == before.columns[c]
  }

  lemma RunKeepsUnowned(original: Table, file: Option<Table>, df: InputTable, cfg: ModelConfig, models: seq<ModelConfig>,
                        s: Table, texts: seq<string>, embed: string -> Vector)
    requires cfg in models && file.Some? && KeepsUnowned(original, file.value, models)
    requires SavedFrom(StartTable(file, df, cfg), ColumnName(cfg.name), s, texts, cfg.kind, embed)
    ensures KeepsUnowned(original, s, models)
  {
    PreparedKeepsColumns(file, df, ColumnName(cfg.name));
  }

  lemma DropKeepsUnowned(original: Table, file: Table, cfg: ModelConfig, models: seq<ModelConfig>)
    requires cfg in models && KeepsUnowned(original, file, models)
    ensures KeepsUnowned(original, DropColumn(file, ColumnName(cfg.name)), models)
  {
  }

  /**
   * One pass of the model loop of main: under --force an existing column
   * of the model is dropped, then the model runs against the file, and
   * the file becomes the last checkpoint it saved, if any, also when the
   * run raises. The file keeps its row count, whatever the input's.
   */
  method RunModel(disk: Option<Table>, file: Option<Table>, df: InputTable, texts: seq<string>, models: seq<ModelConfig>,
                  i: nat, force: bool, batchSize: int, backend: Backend)
    returns (next: Option<Table>, outcome: Outcome)
    requires i < |models|
    requires InputWellFormed(df) && df.rows == |texts|
    requires disk.Some? ==> WellFormed(disk.value)
    requires disk.Some? ==> file.Some? && KeepsUnowned(disk.value, file.value, models)
    requires file.Some? ==> WellFormed(file.value)
    ensures disk.Some? ==> next.Some? && KeepsUnowned(disk.value, next.value, models)
    ensures next.Some? ==> WellFormed(next.value) && next.value.rows == (if file.Some? then file.value.rows else df.rows)
  {
    var cfg := models[i];
    var col := ColumnName(cfg.name);
    next := file;
    if force && next.Some? && col in next.value.columns {
      if disk.Some? {
        DropKeepsUnowned(disk.value, next.value, cfg, models);
      }
      next := Some(DropColumn(next.value, col));
    }
    var saves, requests;
    outcome, saves, requests := ProcessInBatchesCsv(next, df, texts, cfg, batchSize, backend);
    if saves != [] {
      var last := saves[|saves| - 1];
      assert last in saves;
      if disk.Some? {
        RunKeepsUnowned(disk.value, next, df, cfg, models, last, texts, backend.embed);
      }
      next := Some(last);
    }
  }

  /**
   * The model loop of main: each selected model is run in turn against the
   * file the previous one left, after dropping its column under --force.
   * A model that returns False does not stop the loop; one that raises ends
   * the script. Returns the file, what each model that returned returned,
   * and the exception that ended the loop, if any. `backends[i]` serves
   * model i.
   */
  method RunModels(disk: Option<Table>, df: InputTable, texts: seq<string>, models: seq<ModelConfig>, force: bool,
                   batchSize: int, backends: seq<Backend>)
    returns (file: Option<Table>, results: seq<bool>, fault: Option<Fault>)
    requires |backends| == |models|
    requires InputWellFormed(df) && df.rows == |texts|
    requires disk.Some? ==> WellFormed(disk.value)
    ensures fault.None? ==> |results| == |models|
    ensures fault.Some? ==> |results| < |models|
    ensures disk.Some? ==> file.Some? && KeepsUnowned(disk.value, file.value, models)
    ensures file.Some? ==> WellFormed(file.value) && file.value.rows == (if disk.Some? then disk.value.rows else df.rows)
  {
    file := disk;
    results := [];
    var i := 0;
    while i < |models|
      invariant 0 <= i <= |models| && |results| == i
      invariant disk.Some? ==> file.Some? && KeepsUnowned(disk.value, file.value, models)
      invariant file.Some? ==> WellFormed(file.value) && file.value.rows == (if disk.Some? then disk.value.rows else df.rows)
    {
      var outcome;
      file, outcome := RunModel(disk, file, df, texts, models, i, force, batchSize, backends[i]);
      if outcome.Raised? {
        return file, results, Some(outcome.fault);
      }
      results := results + [outcome.success];
      i := i + 1;
    }
    fault := None;
  }
}
