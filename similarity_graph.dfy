/**
 * The similarity stage (03_html_output/main.py): records that have a vector
 * are grouped by their middle category (中項目); within every group of at
 * least two records each record is a focal item whose candidates are the
 * other members, stably sorted by similarity, highest first, and cut to the
 * first five plus every further one scoring at least 0.9.
 *
 * Cosine similarity is not modelled: `sim(p, q)` is the score of rows p and
 * q as the similarity matrix of their group gives it.
 */
module SimilarityGraph {
  import opened Wrappers
  import VB = VectorBuilder
  import Text

  /** The display keys of an output record, in output order. */
  const RequiredKeys: seq<string> := ["大項目", "中項目", "問題番号", "問題名", "リンク", "出典"]
  const MidKey: string := "中項目"
  const TopN: nat := 5
  const HighScore: real := 0.9

  /** A record: its display fields and the cell of the chosen vector column (None for null). */
  datatype Row = Row(data: map<string, string>, vector: Option<seq<real>>)

  /** An output record: the display keys in order, None where the record lacks one. */
  type Display = seq<(string, Option<string>)>

  /** A similar problem: its score, the row it comes from and its display data. */
  datatype Candidate = Candidate(similarity: real, row: nat, data: Display)

  /** One entry of a category: a focal problem and its retained similar problems. */
  datatype Entry = Entry(main: Display, similar: seq<Candidate>)

  /** The output document: the model name and the entries of each category, in category order. */
  datatype Results = Results(model: string, categories: map<string, seq<Entry>>, order: seq<string>)

  /**
   * get_vector_column_name of this stage: 'embedding' for embeddinggemma;
   * otherwise "vector_" + the Hugging Face name (sentence-transformers
   * configs that have one) or the name, with '/', '.', ':' and '-' made '_'.
   */
  function SimilarityColumnName(cfg: VB.ModelConfig): (col: string)
    ensures cfg.name == "embeddinggemma" ==> col == "embedding"
    ensures cfg.name != "embeddinggemma" ==>
      var source := if cfg.kind.SentenceTransformers? && cfg.huggingfaceName.Some? then cfg.huggingfaceName.value else cfg.name;
      |col| == 7 + |source| && col[..7] == "vector_" &&
      forall i :: 0 <= i < |source| ==>
        col[7 + i] == (if source[i] in {'/', '.', ':', '-'} then '_' else source[i])
  {
    if cfg.name == "embeddinggemma" then "embedding"
    else
      var source := if cfg.kind.SentenceTransformers? && cfg.huggingfaceName.Some? then cfg.huggingfaceName.value else cfg.name;
      VB.ColumnName(Text.ReplaceChar(source, '-', '_'))
  }

  /** select_output_data: exactly the six display keys, each with the record's value or None. */
  function Select(data: map<string, string>): (r: Display)
    ensures |r| == |RequiredKeys|
    ensures forall k :: 0 <= k < |r| ==>
      r[k].0 == RequiredKeys[k] && r[k].1 == (if RequiredKeys[k] in data then Some(data[RequiredKeys[k]]) else None)
  {
    seq(|RequiredKeys|, k requires 0 <= k < |RequiredKeys| =>
      (RequiredKeys[k], if RequiredKeys[k] in data then Some(data[RequiredKeys[k]]) else None))
  }

  /**
   * The output record leaves out the vector and every other column: two
   * records that agree on the display keys give the same output, whatever
   * else they hold.
   */
  lemma SelectIgnoresOtherKeys(data: map<string, string>, k: string, v: string)
    requires forall j :: 0 <= j < |RequiredKeys| ==> RequiredKeys[j] != k
    ensures Select(data[k := v]) == Select(data)
    ensures Select(data - {k}) == Select(data)
  {
    forall j | 0 <= j < |RequiredKeys|
      ensures Select(data[k := v])[j] == Select(data)[j] && Select(data - {k})[j] == Select(data)[j]
    {
      assert RequiredKeys[j] != k;
    }
  }

  predicate HasMid(rows: seq<Row>) {
    forall i :: 0 <= i < |rows| ==> MidKey in rows[i].data
  }

  /** `vector is not None and len(vector) > 0`. */
  predicate HasVector(r: Row) {
    r.vector.Some? && |r.vector.value| > 0
  }

  /** The rows among the first `n` that join group `m`, in row order. */
  function Members(rows: seq<Row>, n: nat, m: string): (r: seq<nat>)
    requires n <= |rows| && HasMid(rows)
    ensures forall k :: 0 <= k < |r| ==> r[k] < n
  {
    if n == 0 then []
    else
      var front := Members(rows, n - 1, m);
      if HasVector(rows[n - 1]) && rows[n - 1].data[MidKey] == m then front + [n - 1] else front
  }

  /** The groups met among the first `n` rows, in order of first appearance. */
  function Keys(rows: seq<Row>, n: nat): seq<string>
    requires n <= |rows| && HasMid(rows)
  {
    if n == 0 then []
    else
      var front := Keys(rows, n - 1);
      var r := rows[n - 1];
      if HasVector(r) && r.data[MidKey] !in front then front + [r.data[MidKey]] else front
  }

  /** The grouping loop: `grouped` maps each middle category met to its members, `keys` gives the dict's order. */
  method GroupRows(rows: seq<Row>) returns (grouped: map<string, seq<nat>>, keys: seq<string>)
    requires HasMid(rows)
    ensures keys == Keys(rows, |rows|)
    ensures forall m :: m in grouped <==> m in keys
    ensures forall m :: m in grouped ==> grouped[m] == Members(rows, |rows|, m)
  {
    grouped := map[];
    keys := [];
    var i := 0;
    while i < |rows|
      invariant 0 <= i <= |rows|
      invariant keys == Keys(rows, i)
      invariant forall m :: m in grouped <==> m in keys
      invariant forall m :: m in grouped ==> grouped[m] == Members(rows, i, m)
      invariant forall m :: m !in grouped ==> Members(rows, i, m) == []
    {
      var row := rows[i];
      if row.vector.Some? && |row.vector.value| > 0 {
        var mid := row.data[MidKey];
        if mid in grouped {
          grouped := grouped[mid := grouped[mid] + [i]];
        } else {
          grouped := grouped[mid := [i]];
          keys := keys + [mid];
        }
      }
      i := i + 1;
    }
  }

  /** A row is a member of group m iff it has a vector and its middle category is m; members are in row order. */
  lemma {:induction false} MembersSpec(rows: seq<Row>, n: nat, m: string)
    requires n <= |rows| && HasMid(rows)
    ensures forall p: nat :: p in Members(rows, n, m) <==> p < n && HasVector(rows[p]) && rows[p].data[MidKey] == m
    ensures forall a, b :: 0 <= a < b < |Members(rows, n, m)| ==> Members(rows, n, m)[a] < Members(rows, n, m)[b]
  {
    if n > 0 {
      MembersSpec(rows, n - 1, m);
    }
  }

  /** A category is listed, once, iff some row with a vector belongs to it. */
  lemma {:induction false} KeysSpec(rows: seq<Row>, n: nat)
    requires n <= |rows| && HasMid(rows)
    ensures forall m :: m in Keys(rows, n) <==> Members(rows, n, m) != []
    ensures forall a, b :: 0 <= a < b < |Keys(rows, n)| ==> Keys(rows, n)[a] != Keys(rows, n)[b]
  {
    if n > 0 {
      KeysSpec(rows, n - 1);
    }
  }

  /** The candidate of focal member i taken from member j. */
  function CandidateAt(rows: seq<Row>, members: seq<nat>, i: nat, j: nat, sim: (nat, nat) -> real): Candidate
    requires i < |members| && j < |members| && forall k :: 0 <= k < |members| ==> members[k] < |rows|
  {
    Candidate(sim(members[i], members[j]), members[j], Select(rows[members[j]].data))
  }

  /** The candidates of focal member i among members 0..n-1: every member but the focal one, in group order. */
  function Candidates(rows: seq<Row>, members: seq<nat>, i: nat, n: nat, sim: (nat, nat) -> real): (r: seq<Candidate>)
    requires i < |members| && n <= |members| && forall k :: 0 <= k < |members| ==> members[k] < |rows|
  {
    if n == 0 then []
    else
      var front := Candidates(rows, members, i, n - 1, sim);
      if n - 1 != i then front + [CandidateAt(rows, members, i, n - 1, sim)] else front
  }

  /** The loop building `sims` for one focal item. */
  method CandidateList(rows: seq<Row>, members: seq<nat>, i: nat, sim: (nat, nat) -> real) returns (sims: seq<Candidate>)
    requires i < |members| && forall k :: 0 <= k < |members| ==> members[k] < |rows|
    ensures sims == Candidates(rows, members, i, |members|, sim)
  {
    sims := [];
    var j := 0;
    while j < |members|
      invariant 0 <= j <= |members|
      invariant sims == Candidates(rows, members, i, j, sim)
    {
      if i != j {
        sims := sims + [Candidate(sim(members[i], members[j]), members[j], Select(rows[members[j]].data))];
      }
      j := j + 1;
    }
  }

  /**
   * The candidates are the other members, one each, in group order: for
   * strictly increasing members, the focal row never appears and the rows
   * of the candidates increase.
   */
  lemma {:induction false} CandidatesSpec(rows: seq<Row>, members: seq<nat>, i: nat, n: nat, sim: (nat, nat) -> real)
    requires i < |members| && n <= |members| && forall k :: 0 <= k < |members| ==> members[k] < |rows|
    requires forall a, b :: 0 <= a < b < |members| ==> members[a] < members[b]
    ensures |Candidates(rows, members, i, n, sim)| == if i < n then n - 1 else n
    ensures forall c :: c in Candidates(rows, members, i, n, sim) ==>
      c.row != members[i] && c.row in members[..n] &&
      c.similarity == sim(members[i], c.row) && c.data == Select(rows[c.row].data)
    ensures RowsIncreasing(Candidates(rows, members, i, n, sim))
    ensures forall c :: c in Candidates(rows, members, i, n, sim) ==> n == 0 || c.row <= members[n - 1]
  {
    if n > 0 {
      CandidatesSpec(rows, members, i, n - 1, sim);
      var front := Candidates(rows, members, i, n - 1, sim);
      assert members[..n] == members[..n - 1] + [members[n - 1]];
      if n - 1 != i {
        var last := CandidateAt(rows, members, i, n - 1, sim);
        assert Candidates(rows, members, i, n, sim) == front + [last];
        assert forall c :: c in front ==> c.row < last.row by {
          assert n - 1 == 0 || members[n - 2] < members[n - 1];
        }
      } else {
        assert Candidates(rows, members, i, n, sim) == front;
        assert n - 1 == 0 || members[n - 2] < members[n - 1];
      }
    }
  }

  predicate RowsIncreasing(s: seq<Candidate>) {
    forall a, b :: 0 <= a < b < |s| ==> s[a].row < s[b].row
  }

  /** x goes before y in the sorted list: higher score, or the same score and earlier. */
  predicate Before(x: Candidate, y: Candidate) {
    x.similarity > y.similarity || (x.similarity == y.similarity && x.row < y.row)
  }

  predicate SortedDesc(s: seq<Candidate>) {
    forall a, b :: 0 <= a < b < |s| ==> Before(s[a], s[b])
  }

  /** Inserts x before the first element scoring no more than x. */
  function InsertDesc(x: Candidate, s: seq<Candidate>): seq<Candidate> {
    if s == [] || s[0].similarity <= x.similarity then [x] + s
    else [s[0]] + InsertDesc(x, s[1..])
  }

  /** sims.sort(key=similarity, reverse=True): Python's stable sort, as an insertion sort. */
  function SortDesc(s: seq<Candidate>): seq<Candidate> {
    if s == [] then [] else InsertDesc(s[0], SortDesc(s[1..]))
  }

  lemma {:induction false} InsertDescPerm(x: Candidate, s: seq<Candidate>)
    ensures multiset(InsertDesc(x, s)) == multiset(s) + multiset{x}
  {
    if s != [] && s[0].similarity > x.similarity {
      InsertDescPerm(x, s[1..]);
      assert s == [s[0]] + s[1..];
    }
  }

  lemma {:induction false} SortDescPerm(s: seq<Candidate>)
    ensures multiset(SortDesc(s)) == multiset(s)
  {
    if s != [] {
      SortDescPerm(s[1..]);
      InsertDescPerm(s[0], SortDesc(s[1..]));
      assert s == [s[0]] + s[1..];
    }
  }

  lemma {:induction false} InsertDescSorted(x: Candidate, s: seq<Candidate>)
    requires SortedDesc(s) && forall y :: y in s ==> x.row < y.row
    ensures SortedDesc(InsertDesc(x, s))
  {
    if s != [] && s[0].similarity > x.similarity {
      var rest := InsertDesc(x, s[1..]);
      InsertDescSorted(x, s[1..]);
      InsertDescPerm(x, s[1..]);
      forall y | y in rest
        ensures Before(s[0], y)
      {
        assert y in multiset(rest);
        if y != x {
          assert y in s[1..];
        }
      }
    }
  }

  /**
   * The sort orders by score, highest first, and keeps the input order
   * among equal scores: for candidates in row order the result is the
   * permutation of the input sorted by (score descending, row).
   */
  lemma {:induction false} SortDescSpec(s: seq<Candidate>)
    requires RowsIncreasing(s)
    ensures SortedDesc(SortDesc(s)) && multiset(SortDesc(s)) == multiset(s)
  {
    if s != [] {
      SortDescSpec(s[1..]);
      SortDescPerm(s);
      forall y | y in SortDesc(s[1..])
        ensures s[0].row < y.row
      {
        assert y in multiset(SortDesc(s[1..]));
        assert y in s[1..];
      }
      InsertDescSorted(s[0], SortDesc(s[1..]));
    }
  }

  /** The candidates the filter keeps: position below five or score at least 0.9. */
  function Kept(s: seq<Candidate>): seq<Candidate> {
    if s == [] then []
    else
      var k := |s| - 1;
      Kept(s[..k]) + (if k < TopN || s[k].similarity >= HighScore then [s[k]] else [])
  }

  /** The filter loop of one focal item. */
  method FilterTop(sims: seq<Candidate>) returns (filtered: seq<Candidate>)
    ensures filtered == Kept(sims)
  {
    filtered := [];
    var idx := 0;
    while idx < |sims|
      invariant 0 <= idx <= |sims|
      invariant filtered == Kept(sims[..idx])
    {
      assert sims[..idx + 1][..idx] == sims[..idx];
      if idx < TopN || sims[idx].similarity >= HighScore {
        filtered := filtered + [sims[idx]];
      }
      idx := idx + 1;
    }
    assert sims[..idx] == sims;
  }

  /** The number of candidates scoring at least 0.9. */
  function CountHigh(s: seq<Candidate>): (r: nat)
    ensures r <= |s|
  {
    if s == [] then 0 else CountHigh(s[..|s| - 1]) + (if s[|s| - 1].similarity >= HighScore then 1 else 0)
  }

  predicate NonIncreasing(s: seq<Candidate>) {
    forall a, b :: 0 <= a < b < |s| ==> s[a].similarity >= s[b].similarity
  }

  lemma {:induction false} CountHighAll(s: seq<Candidate>)
    requires forall k :: 0 <= k < |s| ==> s[k].similarity >= HighScore
    ensures CountHigh(s) == |s|
  {
    if s != [] {
      CountHighAll(s[..|s| - 1]);
    }
  }

  /** The number of candidates kept for a list of n candidates of which `high` score at least 0.9. */
  function RetainLen(n: nat, high: nat): nat {
    if n <= TopN then n else if high > TopN then high else TopN
  }

  /**
   * On a list sorted by score the filter keeps a prefix: the first
   * max(min(5, n), #scores >= 0.9) candidates.
   */
  lemma {:induction false} KeptIsPrefix(s: seq<Candidate>)
    requires NonIncreasing(s)
    ensures RetainLen(|s|, CountHigh(s)) <= |s|
    ensures Kept(s) == s[..RetainLen(|s|, CountHigh(s))]
  {
    if s != [] {
      var k := |s| - 1;
      var front := s[..k];
      KeptIsPrefix(front);
      if s[k].similarity >= HighScore {
        CountHighAll(front);
      }
      assert s[..k] == front;
    }
  }

  /** The entry of focal member i of a group. */
  function EntryFor(rows: seq<Row>, members: seq<nat>, i: nat, sim: (nat, nat) -> real): Entry
    requires i < |members| && forall k :: 0 <= k < |members| ==> members[k] < |rows|
  {
    Entry(Select(rows[members[i]].data), Kept(SortDesc(Candidates(rows, members, i, |members|, sim))))
  }

  /** The entries of the group `members`: one per member, in group order. */
  function Entries(rows: seq<Row>, members: seq<nat>, sim: (nat, nat) -> real): (r: seq<Entry>)
    requires forall k :: 0 <= k < |members| ==> members[k] < |rows|
    ensures |r| == |members|
  {
    seq(|members|, i requires 0 <= i < |members| => EntryFor(rows, members, i, sim))
  }

  /** The loop over the focal items of one category. */
  method CategoryEntries(rows: seq<Row>, members: seq<nat>, sim: (nat, nat) -> real) returns (entries: seq<Entry>)
    requires forall k :: 0 <= k < |members| ==> members[k] < |rows|
    ensures entries == Entries(rows, members, sim)
  {
    entries := [];
    var i := 0;
    while i < |members|
      invariant 0 <= i <= |members|
      invariant |entries| == i
      invariant forall k :: 0 <= k < i ==> entries[k] == Entries(rows, members, sim)[k]
    {
      var sims := CandidateList(rows, members, i, sim);
      var filtered := FilterTop(SortDesc(sims));
      entries := entries + [Entry(Select(rows[members[i]].data), filtered)];
      i := i + 1;
    }
  }

  /** The categories listed in the output: the groups of at least two members, in group order. */
  function Listed(rows: seq<Row>, keys: seq<string>): seq<string>
    requires HasMid(rows)
  {
    if keys == [] then []
    else
      var front := Listed(rows, keys[..|keys| - 1]);
      if |Members(rows, |rows|, keys[|keys| - 1])| >= 2 then front + [keys[|keys| - 1]] else front
  }

  /** The categories of the output document: each listed group with its entries. */
  function Categories(rows: seq<Row>, keys: seq<string>, sim: (nat, nat) -> real): map<string, seq<Entry>>
    requires HasMid(rows)
  {
    if keys == [] then map[]
    else
      var front := Categories(rows, keys[..|keys| - 1], sim);
      var m := keys[|keys| - 1];
      var members := Members(rows, |rows|, m);
      if |members| >= 2 then front[m := Entries(rows, members, sim)] else front
  }

  /**
   * A group is listed iff it has at least two members, and then with one
   * entry per member (groups of one produce no category).
   */
  lemma {:induction false} CategoriesSpec(rows: seq<Row>, keys: seq<string>, sim: (nat, nat) -> real)
    requires HasMid(rows)
    ensures forall m :: m in Listed(rows, keys) <==> m in keys && |Members(rows, |rows|, m)| >= 2
    ensures forall m :: m in Categories(rows, keys, sim) <==> m in Listed(rows, keys)
    ensures forall m :: m in Categories(rows, keys, sim) ==>
      Categories(rows, keys, sim)[m] == Entries(rows, Members(rows, |rows|, m), sim)
  {
    if keys != [] {
      CategoriesSpec(rows, keys[..|keys| - 1], sim);
      assert keys == keys[..|keys| - 1] + [keys[|keys| - 1]];
    }
  }

  lemma CategoriesStep(rows: seq<Row>, keys: seq<string>, k: nat, sim: (nat, nat) -> real)
    requires HasMid(rows) && k < |keys|
    ensures var m := keys[k];
      var members := Members(rows, |rows|, m);
      && Listed(rows, keys[..k + 1]) == Listed(rows, keys[..k]) + (if |members| >= 2 then [m] else [])
      && Categories(rows, keys[..k + 1], sim) ==
         if |members| >= 2 then Categories(rows, keys[..k], sim)[m := Entries(rows, members, sim)]
         else Categories(rows, keys[..k], sim)
  {
    assert keys[..k + 1][..k] == keys[..k];
  }

  /** One iteration over the groups: a group of fewer than two members is skipped. */
  method AddCategory(rows: seq<Row>, mid: string, members: seq<nat>, sim: (nat, nat) -> real,
                     categories0: map<string, seq<Entry>>, order0: seq<string>)
    returns (categories: map<string, seq<Entry>>, order: seq<string>)
    requires forall k :: 0 <= k < |members| ==> members[k] < |rows|
    ensures categories == if |members| >= 2 then categories0[mid := Entries(rows, members, sim)] else categories0
    ensures order == order0 + (if |members| >= 2 then [mid] else [])
  {
    categories, order := categories0, order0;
    if |members| >= 2 {
      var entries := CategoryEntries(rows, members, sim);
      categories := categories[mid := entries];
      order := order + [mid];
    }
  }

  /**
   * compute_similarities: groups the rows, skips groups of fewer than two
   * members and lists the entries of every other group.
   */
  method ComputeSimilarities(rows: seq<Row>, sim: (nat, nat) -> real) returns (categories: map<string, seq<Entry>>, order: seq<string>)
    requires HasMid(rows)
    ensures order == Listed(rows, Keys(rows, |rows|))
    ensures categories == Categories(rows, Keys(rows, |rows|), sim)
  {
    var grouped, keys := GroupRows(rows);
    categories := map[];
    order := [];
    var k := 0;
    while k < |keys|
      invariant 0 <= k <= |keys|
      invariant order == Listed(rows, keys[..k])
      invariant categories == Categories(rows, keys[..k], sim)
    {
      CategoriesStep(rows, keys, k, sim);
      categories, order := AddCategory(rows, keys[k], grouped[keys[k]], sim, categories, order);
      k := k + 1;
    }
    assert keys[..k] == keys;
  }

  /** The filter only drops candidates. */
  lemma {:induction false} KeptSubset(s: seq<Candidate>)
    ensures forall c :: c in Kept(s) ==> c in s
  {
    if s != [] {
      KeptSubset(s[..|s| - 1]);
    }
  }

  /**
   * The similar problems of a focal row never include it and all come from
   * its group: rows with a vector and the same middle category, scored
   * against the focal row.
   */
  lemma EntryFromGroup(rows: seq<Row>, m: string, i: nat, sim: (nat, nat) -> real)
    requires HasMid(rows) && i < |Members(rows, |rows|, m)|
    ensures var members := Members(rows, |rows|, m);
      var e := EntryFor(rows, members, i, sim);
      && e.main == Select(rows[members[i]].data)
      && forall c :: c in e.similar ==>
           && c.row != members[i] && c.row < |rows| && HasVector(rows[c.row]) && rows[c.row].data[MidKey] == m
           && c.similarity == sim(members[i], c.row) && c.data == Select(rows[c.row].data)
  {
    var members := Members(rows, |rows|, m);
    MembersSpec(rows, |rows|, m);
    var cands := Candidates(rows, members, i, |members|, sim);
    CandidatesSpec(rows, members, i, |members|, sim);
    var sorted := SortDesc(cands);
    SortDescPerm(cands);
    KeptSubset(sorted);
    forall c | c in Kept(sorted)
      ensures c in cands && c.row in members
    {
      assert c in multiset(sorted);
      assert members[..|members|] == members;
    }
  }

  /**
   * The similar problems of a focal row are ordered by score (highest
   * first, ties in group order) and are the first
   * max(min(5, n - 1), #scores >= 0.9) of the group's other members.
   */
  lemma EntryOrder(rows: seq<Row>, m: string, i: nat, sim: (nat, nat) -> real)
    requires HasMid(rows) && i < |Members(rows, |rows|, m)|
    ensures var members := Members(rows, |rows|, m);
      var e := EntryFor(rows, members, i, sim);
      var sorted := SortDesc(Candidates(rows, members, i, |members|, sim));
      && SortedDesc(e.similar)
      && |sorted| == |members| - 1
      && e.similar == sorted[..RetainLen(|sorted|, CountHigh(sorted))]
  {
    var members := Members(rows, |rows|, m);
    MembersSpec(rows, |rows|, m);
    var cands := Candidates(rows, members, i, |members|, sim);
    CandidatesSpec(rows, members, i, |members|, sim);
    SortDescSpec(cands);
    var sorted := SortDesc(cands);
    assert NonIncreasing(sorted);
    KeptIsPrefix(sorted);
    assert |sorted| == |members| - 1 by {
      assert |multiset(sorted)| == |multiset(cands)|;
    }
  }

  /** A row without a vector is in no group, so it is neither a focal item nor a candidate. */
  lemma NoVectorNoEntry(rows: seq<Row>, p: nat, m: string)
    requires HasMid(rows) && p < |rows| && !HasVector(rows[p])
    ensures p !in Members(rows, |rows|, m)
  {
    MembersSpec(rows, |rows|, m);
  }

  /** The first required column missing from the table, in the order main checks them. */
  function FirstMissing(required: seq<string>, columns: set<string>): (r: Option<string>)
    ensures r.None? <==> forall k :: 0 <= k < |required| ==> required[k] in columns
    ensures r.Some? ==> exists k :: 0 <= k < |required| && required[k] == r.value && r.value !in columns &&
                                    forall k' :: 0 <= k' < k ==> required[k'] in columns
  {
    if required == [] then None
    else if required[0] !in columns then Some(required[0])
    else
      var r := FirstMissing(required[1..], columns);
      if r.Some? then
        var k :| 0 <= k < |required[1..]| && required[1..][k] == r.value && r.value !in columns &&
          forall k' :: 0 <= k' < k ==> required[1..][k'] in columns;
        assert required[k + 1] == r.value;
        r
      else r
  }

  /**
   * main: a missing required column stops the run before any similarity is
   * computed; otherwise the results of compute_similarities with the model
   * name set.
   */
  method Run(columns: set<string>, rows: seq<Row>, sim: (nat, nat) -> real) returns (r: Result<Results>)
    requires forall row :: row in rows ==> row.data.Keys == columns
    ensures r.Err? <==> exists k :: 0 <= k < |RequiredKeys| && RequiredKeys[k] !in columns
    ensures r.Ok? ==> HasMid(rows) && r.value.model == "embeddinggemma"
    ensures r.Ok? ==> HasMid(rows) && r.value.order == Listed(rows, Keys(rows, |rows|))
    ensures r.Ok? ==> HasMid(rows) && r.value.categories == Categories(rows, Keys(rows, |rows|), sim)
  {
    var missing := FirstMissing(RequiredKeys, columns);
    if missing.Some? {
      return Err("missing column: " + missing.value);
    }
    assert RequiredKeys[1] == MidKey;
    forall i | 0 <= i < |rows|
      ensures MidKey in rows[i].data
    {
      assert rows[i] in rows;
    }
    var categories, order := ComputeSimilarities(rows, sim);
    r := Ok(Results("embeddinggemma", categories, order));
  }
}
