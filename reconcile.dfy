/** The reconciliation `refresh_networks` runs in the background: which
    saved networks are in range (current one first, then strongest), and
    which saved networks are out of range. The saved sets and the two scan
    tables are parameters; `nm` is the empty table when nmcli is missing. */
module Reconcile {
  import opened Wrappers
  import opened PyStr
  import opened ScanTable

  /** An `in_range` entry: `{"ssid", "signal", "security", "current"}`. */
  datatype Entry = Entry(ssid: string, signal: int, security: string, current: bool)

  // ---------------------------------------------------------------------
  // The saved set
  // ---------------------------------------------------------------------

  /** `{s.strip() for s in saved_wpa} | {s.strip() for s in saved_nm}`. */
  function SavedUnion(wpa: set<string>, nm: set<string>): (saved: set<string>)
    ensures forall s :: s in wpa || s in nm ==> Strip(s) in saved
  {
    (set s | s in wpa :: Strip(s)) + (set s | s in nm :: Strip(s))
  }

  /** Every saved name is already stripped, and comes from one of the sources. */
  lemma SavedUnionStripped(wpa: set<string>, nm: set<string>, s: string)
    requires s in SavedUnion(wpa, nm)
    ensures Strip(s) == s
    ensures exists t :: (t in wpa || t in nm) && Strip(t) == s
  {
    var t :| (t in wpa || t in nm) && Strip(t) == s;
    StripIdempotent(t);
  }

  // ---------------------------------------------------------------------
  // Merging the two scans
  // ---------------------------------------------------------------------

  /** Taking in one more row is one more update. */
  lemma MergedSnoc(pre: seq<Row>, src: seq<Row>, j: nat)
    requires j < |src|
    ensures MergedTable(pre + src[..j + 1]) == Upsert(MergedTable(pre + src[..j]), src[j])
  {
    assert pre + src[..j + 1] == (pre + src[..j]) + [src[j]];
    FoldSnoc(pre + src[..j], src[j], Upsert);
  }

  /** One `for ssid, info in src.items()` loop, continuing a merge that has
      already taken in the rows `pre`. */
  method MergeSource(ghost pre: seq<Row>, merged: seq<Row>, src: seq<Row>) returns (merged': seq<Row>)
    requires merged == MergedTable(pre)
    ensures merged' == MergedTable(pre + src)
  {
    merged' := merged;
    var j := 0;
    assert pre + src[..0] == pre;
    while j < |src|
      invariant 0 <= j <= |src|
      invariant merged' == MergedTable(pre + src[..j])
    {
      var r := src[j];
      MergedSnoc(pre, src, j);
      if r.ssid !in Keys(merged') || r.info.signal > Get(merged', r.ssid).value.signal {
        merged' := Put(merged', r.ssid, r.info);
      }
      j := j + 1;
    }
    assert src[..j] == src;
  }

  /** `for src in (nm, wp): …`: the nmcli rows first, then the wpa_cli rows. */
  method MergeScans(nm: seq<Row>, wp: seq<Row>) returns (merged: seq<Row>)
    ensures merged == MergedTable(nm + wp)
  {
    assert [] + nm == nm;
    merged := MergeSource([], [], nm);
    merged := MergeSource(nm, merged, wp);
  }

  // ---------------------------------------------------------------------
  // Keeping the saved networks and tagging the current one
  // ---------------------------------------------------------------------

  /** The entry a merged row contributes: its stripped SSID must be non-empty
      and saved; it is current when it equals the current SSID. */
  function EntryOf(r: Row, saved: set<string>, current: string): Option<Entry> {
    var s := Strip(r.ssid);
    if s != [] && s in saved then Some(Entry(s, r.info.signal, r.info.security, s == current))
    else None
  }

  /** The entries of the first `n` merged rows, in the table's order. */
  function Tagged(merged: seq<Row>, n: nat, saved: set<string>, current: string): seq<Entry>
    requires n <= |merged|
  {
    if n == 0 then []
    else
      var init := Tagged(merged, n - 1, saved, current);
      match EntryOf(merged[n - 1], saved, current)
      case Some(e) => init + [e]
      case None => init
  }

  /** An entry is present exactly when some row contributes it. */
  lemma {:induction false} TaggedMember(merged: seq<Row>, n: nat, saved: set<string>, current: string, e: Entry)
    requires n <= |merged|
    ensures e in Tagged(merged, n, saved, current) <==>
      exists i :: 0 <= i < n && EntryOf(merged[i], saved, current) == Some(e)
  {
    if n > 0 {
      TaggedMember(merged, n - 1, saved, current, e);
      if e in Tagged(merged, n, saved, current) && e !in Tagged(merged, n - 1, saved, current) {
        assert EntryOf(merged[n - 1], saved, current) == Some(e);
      }
    }
  }

  method TagRow(r: Row, saved: set<string>, current: string) returns (e: Option<Entry>)
    ensures e == EntryOf(r, saved, current)
  {
    var s := Strip(r.ssid);
    if s != [] && s in saved {
      e := Some(Entry(s, r.info.signal, r.info.security, s == current));
    } else {
      e := None;
    }
  }

  /** The `for ssid, info in merged.items()` loop that fills `in_range`. */
  method CollectInRange(merged: seq<Row>, saved: set<string>, current: string) returns (entries: seq<Entry>)
    ensures entries == Tagged(merged, |merged|, saved, current)
  {
    entries := [];
    var i := 0;
    while i < |merged|
      invariant 0 <= i <= |merged|
      invariant entries == Tagged(merged, i, saved, current)
    {
      var e := TagRow(merged[i], saved, current);
      match e {
        case Some(x) =>
          entries := entries + [x];
        case None =>
      }
      i := i + 1;
    }
  }

  // ---------------------------------------------------------------------
  // Sorting by (not current, -signal), stably
  // ---------------------------------------------------------------------

  /** The sort key `(x["current"] is False, -x["signal"])`. */
  function Key(e: Entry): (bool, int) {
    (!e.current, -e.signal)
  }

  /** `a`'s key is strictly smaller than `b`'s: `a` is current and `b` is not,
      or both agree on `current` and `a` is stronger. */
  predicate Precedes(a: Entry, b: Entry) {
    (a.current && !b.current) || (a.current == b.current && a.signal > b.signal)
  }

  /** No entry comes after one it precedes. */
  predicate Ordered(xs: seq<Entry>) {
    forall i, j :: 0 <= i < j < |xs| ==> !Precedes(xs[j], xs[i])
  }

  /** The entries whose key is `k`, in order. */
  function KeyFilter(xs: seq<Entry>, k: (bool, int)): seq<Entry> {
    if xs == [] then []
    else KeyFilter(xs[..|xs| - 1], k) + (if Key(xs[|xs| - 1]) == k then [xs[|xs| - 1]] else [])
  }

  /** Inserting `x` behind every entry it does not precede. */
  function Insert(xs: seq<Entry>, x: Entry): seq<Entry> {
    if xs == [] || !Precedes(x, xs[|xs| - 1]) then xs + [x]
    else Insert(xs[..|xs| - 1], x) + [xs[|xs| - 1]]
  }

  /** Insertion sort, taking the entries in their list order. */
  function SortEntries(xs: seq<Entry>): seq<Entry> {
    if xs == [] then [] else Insert(SortEntries(xs[..|xs| - 1]), xs[|xs| - 1])
  }

  lemma KeyFilterSnoc(xs: seq<Entry>, x: Entry, k: (bool, int))
    ensures KeyFilter(xs + [x], k) == KeyFilter(xs, k) + (if Key(x) == k then [x] else [])
  {
    assert (xs + [x])[..|xs|] == xs;
  }

  lemma {:induction false} InsertMultiset(xs: seq<Entry>, x: Entry)
    ensures multiset(Insert(xs, x)) == multiset(xs) + multiset{x}
    decreases |xs|
  {
    if xs != [] && Precedes(x, xs[|xs| - 1]) {
      var init, last := xs[..|xs| - 1], xs[|xs| - 1];
      InsertMultiset(init, x);
      assert xs == init + [last];
    }
  }

  lemma {:induction false} InsertOrdered(xs: seq<Entry>, x: Entry)
    requires Ordered(xs)
    ensures Ordered(Insert(xs, x))
    decreases |xs|
  {
    if xs != [] && Precedes(x, xs[|xs| - 1]) {
      var init, last := xs[..|xs| - 1], xs[|xs| - 1];
      assert Ordered(init);
      InsertOrdered(init, x);
      InsertMultiset(init, x);
      var ins := Insert(init, x);
      forall i | 0 <= i < |ins|
        ensures !Precedes(last, ins[i])
      {
        assert ins[i] in multiset(ins);
        if ins[i] != x {
          assert ins[i] in multiset(init);
        }
      }
    }
  }

  /** Inserting `x` appends it to the entries of its own key and leaves the
      entries of every other key as they were. */
  lemma {:induction false} InsertKeyFilter(xs: seq<Entry>, x: Entry, k: (bool, int))
    ensures KeyFilter(Insert(xs, x), k) == KeyFilter(xs, k) + (if Key(x) == k then [x] else [])
    decreases |xs|
  {
    if xs == [] || !Precedes(x, xs[|xs| - 1]) {
      KeyFilterSnoc(xs, x, k);
    } else {
      var init, last := xs[..|xs| - 1], xs[|xs| - 1];
      InsertKeyFilter(init, x, k);
      KeyFilterSnoc(Insert(init, x), last, k);
      assert xs == init + [last];
      KeyFilterSnoc(init, last, k);
    }
  }

  /** The sorted list is ordered. */
  lemma {:induction false} SortEntriesOrdered(xs: seq<Entry>)
    ensures Ordered(SortEntries(xs))
  {
    if xs != [] {
      var init := xs[..|xs| - 1];
      SortEntriesOrdered(init);
      InsertOrdered(SortEntries(init), xs[|xs| - 1]);
    }
  }

  /** The sorted list is a permutation of its input. */
  lemma {:induction false} SortEntriesPermutes(xs: seq<Entry>)
    ensures multiset(SortEntries(xs)) == multiset(xs)
  {
    if xs != [] {
      var init, last := xs[..|xs| - 1], xs[|xs| - 1];
      SortEntriesPermutes(init);
      InsertMultiset(SortEntries(init), last);
      assert xs == init + [last];
    }
  }

  /** The sort is stable: the entries of each key keep their relative order. */
  lemma {:induction false} SortEntriesStable(xs: seq<Entry>, k: (bool, int))
    ensures KeyFilter(SortEntries(xs), k) == KeyFilter(xs, k)
  {
    if xs != [] {
      var init, last := xs[..|xs| - 1], xs[|xs| - 1];
      SortEntriesStable(init, k);
      InsertKeyFilter(SortEntries(init), last, k);
      assert xs == init + [last];
      KeyFilterSnoc(init, last, k);
    }
  }

  /** An entry is in the sorted list exactly when it is in the input. */
  lemma SortEntriesMember(xs: seq<Entry>, e: Entry)
    ensures e in SortEntries(xs) <==> e in xs
  {
    SortEntriesPermutes(xs);
    assert e in SortEntries(xs) <==> e in multiset(SortEntries(xs));
  }

  /** One step of the shift: `ys[k - 1]` moves right of `x`. */
  lemma InsertShift(ys: seq<Entry>, x: Entry, k: nat)
    requires 0 < k <= |ys| && Precedes(x, ys[k - 1])
    ensures Insert(ys[..k], x) + ys[k..] == Insert(ys[..k - 1], x) + ys[k - 1..]
  {
    assert ys[..k][..k - 1] == ys[..k - 1];
    assert [ys[k - 1]] + ys[k..] == ys[k - 1..];
  }

  /** Moving `x` left past the entries it precedes. */
  method InsertEntry(ys: seq<Entry>, x: Entry) returns (zs: seq<Entry>)
    ensures zs == Insert(ys, x)
  {
    var k := |ys|;
    assert ys[..k] == ys && ys[k..] == [];
    while k > 0 && Precedes(x, ys[k - 1])
      invariant 0 <= k <= |ys|
      invariant Insert(ys, x) == Insert(ys[..k], x) + ys[k..]
      decreases k
    {
      InsertShift(ys, x, k);
      k := k - 1;
    }
    zs := ys[..k] + [x] + ys[k..];
  }

  /** `in_range.sort(key=lambda x: (x["current"] is False, -x["signal"]))`. */
  method SortInRange(xs: seq<Entry>) returns (ys: seq<Entry>)
    ensures ys == SortEntries(xs)
  {
    ys := [];
    var i := 0;
    while i < |xs|
      invariant 0 <= i <= |xs|
      invariant ys == SortEntries(xs[..i])
    {
      assert xs[..i + 1][..i] == xs[..i];
      ys := InsertEntry(ys, xs[i]);
      i := i + 1;
    }
    assert xs[..i] == xs;
  }

  // ---------------------------------------------------------------------
  // The out-of-range list and the whole task
  // ---------------------------------------------------------------------

  /** `{x["ssid"] for x in in_range}`. */
  function Names(entries: seq<Entry>): set<string> {
    set e | e in entries :: e.ssid
  }

  /** `(saved - in_range_names) - ({current_ssid} if current_ssid else set())`. */
  function OutOfRange(saved: set<string>, entries: seq<Entry>, current: string): set<string> {
    (saved - Names(entries)) - (if current != [] then {current} else {})
  }

  /** The `in_range` list the task returns. */
  function InRange(saved: set<string>, nm: seq<Row>, wp: seq<Row>, current: string): seq<Entry> {
    var merged := MergedTable(nm + wp);
    SortEntries(Tagged(merged, |merged|, saved, current))
  }

  /** `sorted(list(...))` of the out-of-range set. */
  method ListOutOfRange(saved: set<string>, inRange: seq<Entry>, current: string) returns (outOfRange: seq<string>)
    ensures StrictlySorted(outOfRange)
    ensures forall s :: s in outOfRange <==> s in OutOfRange(saved, inRange, current)
    ensures forall s :: s in outOfRange ==> s !in Names(inRange)
    ensures current != [] ==> current !in outOfRange
    ensures forall s :: s in saved ==> s in outOfRange || s in Names(inRange) || s == current
  {
    outOfRange := SortedList(OutOfRange(saved, inRange, current));
  }

  /** `refresh_networks`' `_task` after the four tool queries; `current` is
      the stripped client SSID. */
  method Reconcile(savedWpa: set<string>, savedNm: set<string>, nm: seq<Row>, wp: seq<Row>, current: string)
    returns (inRange: seq<Entry>, outOfRange: seq<string>)
    ensures inRange == InRange(SavedUnion(savedWpa, savedNm), nm, wp, current)
    ensures StrictlySorted(outOfRange)
    ensures forall s :: s in outOfRange <==> s in OutOfRange(SavedUnion(savedWpa, savedNm), inRange, current)
    ensures forall s :: s in outOfRange ==> s !in Names(inRange)
    ensures current != [] ==> current !in outOfRange
    ensures forall s :: s in SavedUnion(savedWpa, savedNm) ==>
      s in outOfRange || s in Names(inRange) || s == current
  {
    var saved := SavedUnion(savedWpa, savedNm);
    var merged := MergeScans(nm, wp);
    var tagged := CollectInRange(merged, saved, current);
    inRange := SortInRange(tagged);
    outOfRange := ListOutOfRange(saved, inRange, current);
  }

  /** What a row's entry says about the row. */
  lemma EntryOfSome(r: Row, saved: set<string>, current: string, e: Entry)
    requires EntryOf(r, saved, current) == Some(e)
    ensures e.ssid == Strip(r.ssid) && e.ssid != [] && e.ssid in saved
    ensures e.current <==> e.ssid == current
    ensures r.info == ScanInfo(e.signal, e.security)
  {
  }

  /** Every in-range entry names a saved network, non-empty, and is tagged
      current exactly when it is the current network; it carries the signal
      and security of a merged row whose stripped SSID it is. */
  lemma InRangeEntries(saved: set<string>, nm: seq<Row>, wp: seq<Row>, current: string, e: Entry)
    requires e in InRange(saved, nm, wp, current)
    ensures e.ssid != [] && e.ssid in saved
    ensures e.current <==> e.ssid == current
    ensures exists i :: 0 <= i < |MergedTable(nm + wp)| && FromRow(MergedTable(nm + wp)[i], e)
  {
    var merged := MergedTable(nm + wp);
    var tagged := Tagged(merged, |merged|, saved, current);
    SortEntriesMember(tagged, e);
    TaggedMember(merged, |merged|, saved, current, e);
    var i :| 0 <= i < |merged| && EntryOf(merged[i], saved, current) == Some(e);
    EntryOfSome(merged[i], saved, current, e);
    assert FromRow(merged[i], e);
  }

  /** `e` is the entry of row `r`: its stripped SSID, signal and security. */
  predicate FromRow(r: Row, e: Entry) {
    Strip(r.ssid) == e.ssid && r.info == ScanInfo(e.signal, e.security)
  }

  /** A saved SSID seen in either scan is listed in range. */
  lemma SavedInRangeListed(saved: set<string>, nm: seq<Row>, wp: seq<Row>, current: string, k: string)
    requires k in Keys(nm + wp) && Strip(k) != [] && Strip(k) in saved
    ensures Strip(k) in Names(InRange(saved, nm, wp, current))
  {
    var rs := nm + wp;
    var merged := MergedTable(rs);
    GetMergedTable(rs, k);
    var i := ScanTable.IndexOf(merged, k);
    var e := EntryOf(merged[i], saved, current).value;
    TaggedMember(merged, |merged|, saved, current, e);
    SortEntriesMember(Tagged(merged, |merged|, saved, current), e);
  }

  /** The in-range list is ordered current first, then by non-increasing
      signal, and entries with equal keys keep the merged table's order. */
  lemma InRangeOrder(saved: set<string>, nm: seq<Row>, wp: seq<Row>, current: string)
    ensures var r := InRange(saved, nm, wp, current);
      forall i, j :: 0 <= i < j < |r| ==>
        (r[j].current ==> r[i].current) &&
        (r[i].current == r[j].current ==> r[i].signal >= r[j].signal)
    ensures var merged := MergedTable(nm + wp);
      forall k :: KeyFilter(InRange(saved, nm, wp, current), k) ==
        KeyFilter(Tagged(merged, |merged|, saved, current), k)
  {
    var merged := MergedTable(nm + wp);
    var tagged := Tagged(merged, |merged|, saved, current);
    SortEntriesOrdered(tagged);
    forall k ensures KeyFilter(SortEntries(tagged), k) == KeyFilter(tagged, k) {
      SortEntriesStable(tagged, k);
    }
  }
}
