/** Scan results: Python dicts `ssid -> {"signal": int, "security": str}`.
    A dict is a sequence of rows with distinct SSIDs in insertion order;
    assigning to an existing key keeps its position, a new key goes last. */
module ScanTable {
  import opened Wrappers
  import opened Seqs

  datatype ScanInfo = ScanInfo(signal: int, security: string)
  datatype Row = Row(ssid: string, info: ScanInfo)

  function Keys(t: seq<Row>): (ks: seq<string>)
    ensures |ks| == |t|
    ensures forall i :: 0 <= i < |t| ==> ks[i] == t[i].ssid
  {
    seq(|t|, i requires 0 <= i < |t| => t[i].ssid)
  }

  lemma KeysSnoc(t: seq<Row>, r: Row)
    ensures Keys(t + [r]) == Keys(t) + [r.ssid]
  {
  }

  predicate Distinct(ks: seq<string>) {
    forall i, j :: 0 <= i < j < |ks| ==> ks[i] != ks[j]
  }

  /** One row per SSID. */
  predicate IsDict(t: seq<Row>) {
    Distinct(Keys(t))
  }

  /** Position of the first row for `k` at or after `i`, or `|t|`. */
  function FindFrom(t: seq<Row>, k: string, i: nat): (j: nat)
    requires i <= |t|
    ensures i <= j <= |t|
    ensures j < |t| ==> t[j].ssid == k
    ensures forall m :: i <= m < j ==> t[m].ssid != k
    decreases |t| - i
  {
    if i == |t| || t[i].ssid == k then i else FindFrom(t, k, i + 1)
  }

  /** Position of the first row for `k`, or `|t|` when there is none. */
  function IndexOf(t: seq<Row>, k: string): (i: nat)
    ensures i <= |t|
    ensures i < |t| <==> k in Keys(t)
    ensures i < |t| ==> t[i].ssid == k
    ensures forall j :: 0 <= j < i ==> t[j].ssid != k
  {
    FindFrom(t, k, 0)
  }

  /** In a dict, the row for `k` is the only one. */
  lemma IndexOfUnique(t: seq<Row>, k: string, j: nat)
    requires IsDict(t) && j < |t| && t[j].ssid == k
    ensures k in Keys(t) && IndexOf(t, k) == j
  {
    assert Keys(t)[j] == k;
  }

  /** `d.get(k)`. */
  function Get(t: seq<Row>, k: string): (r: Option<ScanInfo>)
    ensures r.Some? <==> k in Keys(t)
  {
    var i := IndexOf(t, k);
    if i < |t| then Some(t[i].info) else None
  }

  /** `d[k] = v`. */
  function Put(t: seq<Row>, k: string, v: ScanInfo): (u: seq<Row>)
    ensures k in Keys(t) ==> |u| == |t| && Keys(u) == Keys(t)
    ensures k !in Keys(t) ==> Keys(u) == Keys(t) + [k]
  {
    var i := IndexOf(t, k);
    if i < |t| then t[i := Row(k, v)] else t + [Row(k, v)]
  }

  /** Assignment keeps one row per key. */
  lemma PutKeepsDict(t: seq<Row>, k: string, v: ScanInfo)
    requires IsDict(t)
    ensures IsDict(Put(t, k, v))
  {
  }

  /** After `d[k] = v`, `d.get(k)` is `v` and every other key reads as before. */
  lemma GetPut(t: seq<Row>, k: string, v: ScanInfo, k': string)
    requires IsDict(t)
    ensures Get(Put(t, k, v), k') == if k' == k then Some(v) else Get(t, k')
  {
    var u := Put(t, k, v);
    PutKeepsDict(t, k, v);
    if k' in Keys(u) {
      var j := IndexOf(u, k');
      if k in Keys(t) {
        var p := IndexOf(t, k);
        if k' != k {
          IndexOfUnique(t, k', j);
        }
      } else if j < |t| {
        IndexOfUnique(t, k', j);
      }
    }
  }

  /** The update every scan parser and the merge apply for one row:
      `if ssid not in d or signal > d[ssid]["signal"]: d[ssid] = info`. */
  function Upsert(t: seq<Row>, r: Row): seq<Row> {
    if r.ssid !in Keys(t) || r.info.signal > Get(t, r.ssid).value.signal
    then Put(t, r.ssid, r.info)
    else t
  }

  /** Applying `step` for each row, first to last, starting from an empty dict. */
  function Fold(rs: seq<Row>, step: (seq<Row>, Row) -> seq<Row>): seq<Row> {
    if rs == [] then [] else step(Fold(rs[..|rs| - 1], step), rs[|rs| - 1])
  }

  /** Merging rows into an empty dict with the update rule, one row after another. */
  function MergedTable(rs: seq<Row>): seq<Row> {
    Fold(rs, Upsert)
  }

  /** A merged table has one row per SSID. */
  lemma {:induction false} MergedTableIsDict(rs: seq<Row>)
    ensures IsDict(MergedTable(rs))
  {
    if rs != [] {
      var r := rs[|rs| - 1];
      MergedTableIsDict(rs[..|rs| - 1]);
      PutKeepsDict(MergedTable(rs[..|rs| - 1]), r.ssid, r.info);
    }
  }

  // ---------------------------------------------------------------------
  // Reference: what the update rule computes, stated without the fold
  // ---------------------------------------------------------------------

  /** The keys in order of first appearance. */
  function Dedup(ks: seq<string>): (d: seq<string>)
    ensures Distinct(d)
    ensures forall k :: k in d <==> k in ks
  {
    if ks == [] then []
    else
      var p := Dedup(ks[..|ks| - 1]);
      var x := ks[|ks| - 1];
      assert forall k :: k in ks <==> k in ks[..|ks| - 1] || k == x by {
        assert ks == ks[..|ks| - 1] + [x];
      }
      if x in p then p else p + [x]
  }

  /** The largest signal among the rows for `k`. */
  function PeakSignal(rs: seq<Row>, k: string): (m: int)
    requires k in Keys(rs)
    ensures forall i :: 0 <= i < |rs| && rs[i].ssid == k ==> rs[i].info.signal <= m
    ensures exists i :: 0 <= i < |rs| && rs[i].ssid == k && rs[i].info.signal == m
  {
    var init := rs[..|rs| - 1];
    var last := rs[|rs| - 1];
    assert rs == init + [last];
    KeysSnoc(init, last);
    if last.ssid != k then PeakSignal(init, k)
    else if k !in Keys(init) then last.info.signal
    else
      var m := PeakSignal(init, k);
      if last.info.signal > m then last.info.signal else m
  }

  predicate Hits(r: Row, k: string, m: int) {
    r.ssid == k && r.info.signal == m
  }

  /** Position of the first row for `k` with signal `m`, or `|rs|`. */
  function FirstHit(rs: seq<Row>, k: string, m: int): (i: nat)
    ensures i <= |rs|
    ensures i < |rs| ==> Hits(rs[i], k, m)
    ensures forall j :: 0 <= j < i ==> !Hits(rs[j], k, m)
  {
    if rs == [] then 0
    else if Hits(rs[0], k, m) then 0
    else 1 + FirstHit(rs[1..], k, m)
  }

  /** Position of the earliest row for `k` that carries its peak signal. */
  function FirstPeak(rs: seq<Row>, k: string): (i: nat)
    requires k in Keys(rs)
    ensures i < |rs| && rs[i].ssid == k && rs[i].info.signal == PeakSignal(rs, k)
    ensures forall j :: 0 <= j < i && rs[j].ssid == k ==> rs[j].info.signal < PeakSignal(rs, k)
  {
    FirstHit(rs, k, PeakSignal(rs, k))
  }

  /** What merging yields, stated without the fold: one row per SSID, in order
      of first appearance, holding the info of the earliest row with that
      SSID's largest signal. */
  function MergedReference(rs: seq<Row>): (t: seq<Row>)
    ensures Keys(t) == Dedup(Keys(rs))
    ensures IsDict(t)
    ensures forall i :: 0 <= i < |t| ==> t[i].ssid in Keys(rs) && t[i].info == rs[FirstPeak(rs, t[i].ssid)].info
  {
    var d := Dedup(Keys(rs));
    seq(|d|, i requires 0 <= i < |d| => Row(d[i], rs[FirstPeak(rs, d[i])].info))
  }

  lemma FirstHitSnoc(rs: seq<Row>, r: Row, k: string, m: int)
    ensures FirstHit(rs + [r], k, m) ==
      if FirstHit(rs, k, m) < |rs| then FirstHit(rs, k, m)
      else if Hits(r, k, m) then |rs| else |rs| + 1
  {
    if rs != [] {
      assert (rs + [r])[1..] == rs[1..] + [r];
      FirstHitSnoc(rs[1..], r, k, m);
    }
  }

  /** The peak and its first position for a key the new row does not touch. */
  lemma PeakSnocOther(rs: seq<Row>, r: Row, k: string)
    requires k in Keys(rs) && r.ssid != k
    ensures k in Keys(rs + [r])
    ensures PeakSignal(rs + [r], k) == PeakSignal(rs, k)
    ensures FirstPeak(rs + [r], k) == FirstPeak(rs, k)
  {
    KeysSnoc(rs, r);
    assert (rs + [r])[..|rs|] == rs;
    FirstHitSnoc(rs, r, k, PeakSignal(rs, k));
  }

  /** Rows of the merged table for SSIDs other than the new row's do not move. */
  lemma MergedReferenceSnocOther(rs: seq<Row>, r: Row, i: nat)
    requires i < |MergedReference(rs)| && MergedReference(rs)[i].ssid != r.ssid
    ensures i < |MergedReference(rs + [r])| && MergedReference(rs + [r])[i] == MergedReference(rs)[i]
  {
    KeysSnoc(rs, r);
    var d := Dedup(Keys(rs));
    var d' := Dedup(Keys(rs + [r]));
    assert Keys(rs + [r])[..|rs|] == Keys(rs);
    assert d'[..|d|] == d;
    PeakSnocOther(rs, r, d[i]);
  }

  /** A row for an SSID already seen adds no key. */
  lemma DedupSnocKnown(rs: seq<Row>, r: Row)
    requires r.ssid in Keys(rs)
    ensures Dedup(Keys(rs + [r])) == Dedup(Keys(rs))
  {
    KeysSnoc(rs, r);
    assert Keys(rs + [r])[..|rs|] == Keys(rs);
  }

  /** A row for an SSID not seen yet adds its key at the end. */
  lemma DedupSnocNew(rs: seq<Row>, r: Row)
    requires r.ssid !in Keys(rs)
    ensures Dedup(Keys(rs + [r])) == Dedup(Keys(rs)) + [r.ssid]
  {
    KeysSnoc(rs, r);
    assert Keys(rs + [r])[..|rs|] == Keys(rs);
  }

  /** The peak of the new row's SSID, when it was already present. */
  lemma PeakSnocSame(rs: seq<Row>, r: Row)
    requires r.ssid in Keys(rs)
    ensures r.ssid in Keys(rs + [r])
    ensures PeakSignal(rs + [r], r.ssid) ==
      if r.info.signal > PeakSignal(rs, r.ssid) then r.info.signal else PeakSignal(rs, r.ssid)
  {
    KeysSnoc(rs, r);
    assert (rs + [r])[..|rs|] == rs;
  }

  /** Where the peak of the new row's SSID first occurs, when it was already present. */
  lemma FirstPeakSnocSame(rs: seq<Row>, r: Row)
    requires r.ssid in Keys(rs)
    ensures r.ssid in Keys(rs + [r])
    ensures FirstPeak(rs + [r], r.ssid) ==
      if r.info.signal > PeakSignal(rs, r.ssid) then |rs| else FirstPeak(rs, r.ssid)
  {
    PeakSnocSame(rs, r);
    FirstHitSnoc(rs, r, r.ssid, PeakSignal(rs + [r], r.ssid));
    if r.info.signal > PeakSignal(rs, r.ssid) {
      var m := r.info.signal;
      assert FirstHit(rs, r.ssid, m) == |rs|;
    }
  }

  /** The row of the new row's SSID, when it was already present. */
  lemma MergedReferenceSnocSame(rs: seq<Row>, r: Row)
    requires r.ssid in Keys(rs)
    ensures r.ssid in Keys(MergedReference(rs))
    ensures var p := IndexOf(MergedReference(rs), r.ssid);
      p < |MergedReference(rs + [r])| &&
      MergedReference(rs + [r])[p] ==
        if r.info.signal > MergedReference(rs)[p].info.signal then Row(r.ssid, r.info) else MergedReference(rs)[p]
  {
    var k := r.ssid;
    var rs' := rs + [r];
    var M := MergedReference(rs);
    assert k in Keys(M);
    var p := IndexOf(M, k);
    DedupSnocKnown(rs, r);
    FirstPeakSnocSame(rs, r);
    assert M[p].info == rs[FirstPeak(rs, k)].info;
    assert rs'[FirstPeak(rs, k)] == rs[FirstPeak(rs, k)];
  }

  lemma UpdatedAt<T>(a: seq<T>, b: seq<T>, p: nat, x: T)
    requires |a| == |b| && p < |a| && b[p] == x
    requires forall i :: 0 <= i < |a| && i != p ==> b[i] == a[i]
    ensures b == a[p := x]
  {
  }

  /** The update rule on a table that already holds the SSID. */
  lemma UpsertKnown(t: seq<Row>, r: Row)
    requires r.ssid in Keys(t)
    ensures var p := IndexOf(t, r.ssid);
      Upsert(t, r) == if r.info.signal > t[p].info.signal then t[p := Row(r.ssid, r.info)] else t
  {
  }

  /** The update rule on a table that does not hold the SSID yet. */
  lemma UpsertNew(t: seq<Row>, r: Row)
    requires r.ssid !in Keys(t)
    ensures Upsert(t, r) == t + [Row(r.ssid, r.info)]
  {
  }

  /** The merged table after a row whose SSID is already present. */
  lemma MergedReferenceSnocKnown(rs: seq<Row>, r: Row)
    requires r.ssid in Keys(rs)
    ensures MergedReference(rs + [r]) == Upsert(MergedReference(rs), r)
  {
    var k := r.ssid;
    var M := MergedReference(rs);
    var M' := MergedReference(rs + [r]);
    MergedReferenceSnocSame(rs, r);
    var p := IndexOf(M, k);
    assert |M'| == |M| by {
      KeysSnoc(rs, r);
      assert Keys(rs + [r])[..|rs|] == Keys(rs);
    }
    forall i | 0 <= i < |M| && i != p ensures M'[i] == M[i] {
      IndexOfUnique(M, M[i].ssid, i);
      MergedReferenceSnocOther(rs, r, i);
    }
    UpsertKnown(M, r);
    if r.info.signal > M[p].info.signal {
      UpdatedAt(M, M', p, Row(k, r.info));
    } else {
      UpdatedAt(M, M', p, M[p]);
      assert M[p := M[p]] == M;
    }
  }

  /** The merged table after a row with a new SSID. */
  lemma MergedReferenceSnocNew(rs: seq<Row>, r: Row)
    requires r.ssid !in Keys(rs)
    ensures MergedReference(rs + [r]) == Upsert(MergedReference(rs), r)
  {
    var rs' := rs + [r];
    var k := r.ssid;
    var M := MergedReference(rs);
    var M' := MergedReference(rs');
    DedupSnocNew(rs, r);
    forall i | 0 <= i < |M| ensures M'[i] == M[i] {
      MergedReferenceSnocOther(rs, r, i);
    }
    assert FirstPeak(rs', k) == |rs| by {
      KeysSnoc(rs, r);
      FirstHitSnoc(rs, r, k, r.info.signal);
    }
    assert M'[|M|] == Row(k, r.info);
    assert M' == M + [Row(k, r.info)];
    assert k !in Keys(M);
    UpsertNew(M, r);
  }

  /** Appending a row and merging equals merging and then applying the update rule. */
  lemma MergedReferenceSnoc(rs: seq<Row>, r: Row)
    ensures MergedReference(rs + [r]) == Upsert(MergedReference(rs), r)
  {
    if r.ssid in Keys(rs) {
      MergedReferenceSnocKnown(rs, r);
    } else {
      MergedReferenceSnocNew(rs, r);
    }
  }

  /** The fold computes the reference table. */
  lemma {:induction false} MergedTableIsReference(rs: seq<Row>)
    ensures MergedTable(rs) == MergedReference(rs)
  {
    if rs != [] {
      var init := rs[..|rs| - 1];
      assert rs == init + [rs[|rs| - 1]];
      MergedTableIsReference(init);
      MergedReferenceSnoc(init, rs[|rs| - 1]);
    }
  }

  /** One more row is one more step. */
  lemma FoldSnoc(rs: seq<Row>, r: Row, step: (seq<Row>, Row) -> seq<Row>)
    ensures Fold(rs + [r], step) == step(Fold(rs, step), r)
  {
    assert (rs + [r])[..|rs|] == rs;
  }

  /** Folding the rows read from `lines[lo..n]`, one line at a time by index
      (the rows are what `f` yields for each line; `None` lines are skipped). */
  function FoldRange<L>(lines: seq<L>, lo: nat, n: nat, f: L -> Option<Row>, step: (seq<Row>, Row) -> seq<Row>): seq<Row>
    requires lo <= n <= |lines|
    decreases n
  {
    if n == lo then []
    else
      var t := FoldRange(lines, lo, n - 1, f, step);
      match f(lines[n - 1])
      case Some(r) => step(t, r)
      case None => t
  }

  /** Folding a range of lines is folding the rows read from them. */
  lemma {:induction false} FoldRangeRows<L>(lines: seq<L>, lo: nat, n: nat, f: L -> Option<Row>, step: (seq<Row>, Row) -> seq<Row>)
    requires lo <= n <= |lines|
    ensures FoldRange(lines, lo, n, f, step) == Fold(FilterMap(lines, lo, n, f), step)
    decreases n
  {
    if n > lo {
      FoldRangeRows(lines, lo, n - 1, f, step);
      if f(lines[n - 1]).Some? {
        FoldSnoc(FilterMap(lines, lo, n - 1, f), f(lines[n - 1]).value, step);
      }
    }
  }

  /** What the scan parsers' loops build from `lines[lo..n]`. */
  function MergeRange<L>(lines: seq<L>, lo: nat, n: nat, f: L -> Option<Row>): seq<Row>
    requires lo <= n <= |lines|
  {
    FoldRange(lines, lo, n, f, Upsert)
  }

  /** The parser loops merge exactly the rows read from the lines. */
  lemma MergeRangeRows<L>(lines: seq<L>, lo: nat, n: nat, f: L -> Option<Row>)
    requires lo <= n <= |lines|
    ensures MergeRange(lines, lo, n, f) == MergedTable(FilterMap(lines, lo, n, f))
  {
    FoldRangeRows(lines, lo, n, f, Upsert);
  }

  /** The merged table has one row per SSID of the input, in order of first
      appearance, each holding the info of the earliest row with the largest
      signal for that SSID. */
  lemma MergedTableRows(rs: seq<Row>)
    ensures Keys(MergedTable(rs)) == Dedup(Keys(rs))
    ensures forall i :: 0 <= i < |MergedTable(rs)| ==>
      MergedTable(rs)[i].ssid in Keys(rs) &&
      MergedTable(rs)[i].info == rs[FirstPeak(rs, MergedTable(rs)[i].ssid)].info
  {
    MergedTableIsReference(rs);
  }

  /** An existing dict, merged row by row into an empty one, comes out unchanged. */
  lemma {:induction false} MergedTableOfDict(t: seq<Row>)
    requires IsDict(t)
    ensures MergedTable(t) == t
  {
    if t != [] {
      var init := t[..|t| - 1];
      var last := t[|t| - 1];
      assert t == init + [last];
      KeysSnoc(init, last);
      assert IsDict(init) by {
        assert forall i :: 0 <= i < |init| ==> Keys(init)[i] == Keys(t)[i];
      }
      assert last.ssid !in Keys(init) by {
        assert forall i :: 0 <= i < |init| ==> Keys(t)[i] != Keys(t)[|t| - 1];
      }
      MergedTableOfDict(init);
    }
  }

  /** What `d.get(k)` returns on a merged table. */
  lemma GetMergedTable(rs: seq<Row>, k: string)
    ensures Get(MergedTable(rs), k) == if k in Keys(rs) then Some(rs[FirstPeak(rs, k)].info) else None
  {
    MergedTableIsReference(rs);
    var M := MergedReference(rs);
    if k in Keys(rs) {
      assert k in Keys(M);
    }
  }
  /** In the concatenation of two dicts, the rows for `k` are the row of `a`
      and the row of `b`. */
  lemma RowOfTwoScans(a: seq<Row>, b: seq<Row>, k: string, j: nat)
    requires IsDict(a) && IsDict(b) && j < |a + b| && (a + b)[j].ssid == k
    ensures j < |a| ==> k in Keys(a) && j == IndexOf(a, k) && (a + b)[j] == a[j]
    ensures j >= |a| ==> k in Keys(b) && j - |a| == IndexOf(b, k) && (a + b)[j] == b[j - |a|]
  {
    if j < |a| {
      IndexOfUnique(a, k, j);
    } else {
      IndexOfUnique(b, k, j - |a|);
    }
  }

  /** The row of `a` for `k`, seen in the concatenation. */
  lemma RowOfFirstScan(a: seq<Row>, b: seq<Row>, k: string)
    requires k in Keys(a)
    ensures k in Keys(a + b) && IndexOf(a, k) < |a + b| && (a + b)[IndexOf(a, k)] == a[IndexOf(a, k)]
  {
    assert Keys(a + b)[IndexOf(a, k)] == k;
  }

  /** The row of `b` for `k`, seen in the concatenation. */
  lemma RowOfSecondScan(a: seq<Row>, b: seq<Row>, k: string)
    requires k in Keys(b)
    ensures k in Keys(a + b) && |a| + IndexOf(b, k) < |a + b| && (a + b)[|a| + IndexOf(b, k)] == b[IndexOf(b, k)]
  {
    assert Keys(a + b)[|a| + IndexOf(b, k)] == k;
  }

  /** Merging a first scan `a` and then a second scan `b`: the signal kept for an
      SSID seen by both is the larger one, and on equal signals the entry of `a`
      (security included) is kept. */
  lemma MergeTwoScans(a: seq<Row>, b: seq<Row>, k: string)
    requires IsDict(a) && IsDict(b)
    ensures Get(MergedTable(a + b), k) ==
      match (Get(a, k), Get(b, k))
      case (None, None) => None
      case (Some(x), None) => Some(x)
      case (None, Some(y)) => Some(y)
      case (Some(x), Some(y)) => Some(if y.signal > x.signal then y else x)
  {
    var rs := a + b;
    GetMergedTable(rs, k);
    if k in Keys(a) {
      RowOfFirstScan(a, b, k);
    }
    if k in Keys(b) {
      RowOfSecondScan(a, b, k);
    }
    if k in Keys(rs) {
      RowOfTwoScans(a, b, k, FirstPeak(rs, k));
    } else {
      assert k !in Keys(a) && k !in Keys(b);
    }
  }
}
