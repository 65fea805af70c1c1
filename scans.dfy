/**
 * The nested loop shape of the pairwise conflict checks, over any item
 * type: for i < j, in row-major order, every pair that clashes.
 */
module Scans {
  import opened Seqs

  /** The pairs the inner loop finds in row `i`, columns i+1 .. j-1. */
  function RowScan<S>(ss: seq<S>, clash: (S, S) -> bool, i: nat, j: nat): seq<(S, S)>
    requires i < |ss| && j <= |ss|
    decreases j
  {
    if j <= i + 1 then []
    else RowScan(ss, clash, i, j - 1) + (if clash(ss[i], ss[j - 1]) then [(ss[i], ss[j - 1])] else [])
  }

  /** The pairs the nested loops find in rows 0 .. n-1. */
  function PairScan<S>(ss: seq<S>, clash: (S, S) -> bool, n: nat): seq<(S, S)>
    requires n <= |ss|
    decreases n
  {
    if n == 0 then [] else PairScan(ss, clash, n - 1) + RowScan(ss, clash, n - 1, |ss|)
  }

  /** Every clashing pair i < j in rows below `n` is found. */
  lemma {:induction false} PairScanFinds<S>(ss: seq<S>, clash: (S, S) -> bool, n: nat, i: nat, j: nat)
    requires n <= |ss| && i < n && i < j < |ss| && clash(ss[i], ss[j])
    ensures (ss[i], ss[j]) in PairScan(ss, clash, n)
    decreases n
  {
    if i < n - 1 {
      PairScanFinds(ss, clash, n - 1, i, j);
    } else {
      RowScanFinds(ss, clash, i, |ss|, j);
      assert PairScan(ss, clash, i + 1) == PairScan(ss, clash, i) + RowScan(ss, clash, i, |ss|);
    }
  }

  lemma {:induction false} RowScanFinds<S>(ss: seq<S>, clash: (S, S) -> bool, i: nat, n: nat, j: nat)
    requires i < |ss| && n <= |ss| && i < j < n && clash(ss[i], ss[j])
    ensures (ss[i], ss[j]) in RowScan(ss, clash, i, n)
    decreases n
  {
    if j < n - 1 {
      RowScanFinds(ss, clash, i, n - 1, j);
    }
  }

  /** The items `i < j` of `ss` clash and form the pair `p`. */
  predicate ClashAt<S(==)>(ss: seq<S>, clash: (S, S) -> bool, i: int, j: int, p: (S, S)) {
    0 <= i < j < |ss| && clash(ss[i], ss[j]) && p == (ss[i], ss[j])
  }

  /** Only clashing pairs i < j in rows below `n` are found: the lemma names the row and column. */
  lemma {:induction false} PairScanOnly<S>(ss: seq<S>, clash: (S, S) -> bool, n: nat, p: (S, S)) returns (i: nat, j: nat)
    requires n <= |ss| && p in PairScan(ss, clash, n)
    ensures i < n && ClashAt(ss, clash, i, j, p)
    decreases n
  {
    assert PairScan(ss, clash, n) == PairScan(ss, clash, n - 1) + RowScan(ss, clash, n - 1, |ss|);
    if p in RowScan(ss, clash, n - 1, |ss|) {
      j := RowScanOnly(ss, clash, n - 1, |ss|, p);
      i := n - 1;
    } else {
      i, j := PairScanOnly(ss, clash, n - 1, p);
    }
  }

  lemma {:induction false} RowScanOnly<S>(ss: seq<S>, clash: (S, S) -> bool, i: nat, n: nat, p: (S, S)) returns (j: nat)
    requires i < |ss| && n <= |ss| && p in RowScan(ss, clash, i, n)
    ensures i < j < n && clash(ss[i], ss[j]) && p == (ss[i], ss[j])
    decreases n
  {
    if p in RowScan(ss, clash, i, n - 1) {
      j := RowScanOnly(ss, clash, i, n - 1, p);
    } else {
      j := n - 1;
    }
  }

  /** One row finds at most one pair per later item. */
  lemma {:induction false} RowScanLength<S>(ss: seq<S>, clash: (S, S) -> bool, i: nat, j: nat)
    requires i < |ss| && j <= |ss|
    ensures |RowScan(ss, clash, i, j)| <= if j <= i + 1 then 0 else j - i - 1
    decreases j
  {
    if j > i + 1 {
      RowScanLength(ss, clash, i, j - 1);
    }
  }

  /** One more column of row `i` adds that pair's record exactly when it clashes. */
  lemma RowRecordsStep<S, R>(prefix: seq<R>, ss: seq<S>, clash: (S, S) -> bool, record: ((S, S)) -> R, i: nat, j: nat)
    requires i < j < |ss|
    ensures prefix + Map(RowScan(ss, clash, i, j + 1), record)
      == prefix + Map(RowScan(ss, clash, i, j), record) + (if clash(ss[i], ss[j]) then [record((ss[i], ss[j]))] else [])
  {
    var found := RowScan(ss, clash, i, j);
    if clash(ss[i], ss[j]) {
      MapSnoc(found, (ss[i], ss[j]), record);
      AppendAssoc(prefix, Map(found, record), [record((ss[i], ss[j]))]);
    } else {
      assert RowScan(ss, clash, i, j + 1) == found + [] == found;
    }
  }

  /** One more row adds that row's records after the earlier rows'. */
  lemma PairRecordsStep<S, R>(prefix: seq<R>, ss: seq<S>, clash: (S, S) -> bool, record: ((S, S)) -> R, i: nat)
    requires i < |ss|
    ensures prefix + Map(PairScan(ss, clash, i + 1), record)
      == prefix + Map(PairScan(ss, clash, i), record) + Map(RowScan(ss, clash, i, |ss|), record)
  {
    var before := PairScan(ss, clash, i);
    var row := RowScan(ss, clash, i, |ss|);
    MapConcat(before, row, record);
    AppendAssoc(prefix, Map(before, record), Map(row, record));
  }
}
