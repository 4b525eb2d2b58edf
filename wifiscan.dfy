/** Scanning for access points: `dbm_to_percent`, `scan_nmcli` and
    `scan_wpa_cli`, taking the tool outputs as parameters (each is what
    `run_cmd` returns: the stripped stdout, or "" on failure). */
module WifiScan {
  import opened Wrappers
  import opened PyStr
  import opened Seqs
  import opened ScanTable

  /** `dbm_to_percent`: `max(0, min(100, 2 * (dbm + 100)))`, and 0 for `None`. */
  function DbmToPercent(dbm: Option<int>): (pct: int)
    ensures 0 <= pct <= 100
  {
    match dbm
    case None => 0
    case Some(d) =>
      var pct := 2 * (d + 100);
      var capped := if pct < 100 then pct else 100;
      if capped > 0 then capped else 0
  }

  /** The percentage piece by piece: 0 at or below -100 dBm and for a missing
      level, 100 at or above -50 dBm, and linear with slope 2 in between. */
  lemma DbmToPercentPieces(dbm: Option<int>)
    ensures dbm.None? ==> DbmToPercent(dbm) == 0
    ensures dbm.Some? && dbm.value <= -100 ==> DbmToPercent(dbm) == 0
    ensures dbm.Some? && dbm.value >= -50 ==> DbmToPercent(dbm) == 100
    ensures dbm.Some? && -100 < dbm.value < -50 ==> DbmToPercent(dbm) == 2 * (dbm.value + 100)
  {
  }

  /** A stronger signal never gives a smaller percentage. */
  lemma DbmToPercentMonotone(a: int, b: int)
    requires a <= b
    ensures DbmToPercent(Some(a)) <= DbmToPercent(Some(b))
  {
  }

  // ---------------------------------------------------------------------
  // nmcli -t --escape no -f SSID,SIGNAL,SECURITY device wifi list
  // ---------------------------------------------------------------------

  /** One line of the nmcli listing: fields split on every `:`, the SSID
      stripped, a signal that `int()` rejects read as 0, the security field
      optional. */
  function NmcliScanRow(line: string): Option<Row> {
    if line == [] then None
    else
      var parts := Split(line, ':');
      if |parts| < 2 then None
      else
        var ssid := Strip(parts[0]);
        if ssid == [] then None
        else
          var security := if |parts| > 2 then parts[2] else "";
          Some(Row(ssid, ScanInfo(ParseInt(parts[1]).GetOr(0), security)))
  }

  /** The table `scan_nmcli` builds from its listing. */
  function NmcliScanTable(out: string): seq<Row> {
    var lines := SplitLines(out);
    MergeRange(lines, 0, |lines|, NmcliScanRow)
  }

  /** `scan_nmcli`: the lines are merged with the scan update rule. */
  method ScanNmcli(out: string) returns (results: seq<Row>)
    ensures results == NmcliScanTable(out)
  {
    results := [];
    if out == [] {
      return;
    }
    var lines := SplitLines(out);
    var i := 0;
    while i < |lines|
      invariant 0 <= i <= |lines|
      invariant results == MergeRange(lines, 0, i, NmcliScanRow)
    {
      var line := lines[i];
      if line != [] {
        var parts := Split(line, ':');
        if |parts| >= 2 {
          var ssid := Strip(parts[0]);
          if ssid != [] {
            var signal := 0;
            match ParseInt(parts[1]) {
              case Some(n) => signal := n;
              case None =>
            }
            var security := if |parts| > 2 then parts[2] else "";
            assert NmcliScanRow(line) == Some(Row(ssid, ScanInfo(signal, security)));
            if ssid !in Keys(results) || signal > Get(results, ssid).value.signal {
              results := Put(results, ssid, ScanInfo(signal, security));
            }
          }
        }
      }
      i := i + 1;
    }
  }

  /** The row read from a line whose three `:` fields are known. */
  lemma NmcliScanRowOfParts(line: string, ssid: string, signal: string, security: string)
    requires line != [] && Split(line, ':') == [ssid, signal, security] && Strip(ssid) != []
    ensures NmcliScanRow(line) == Some(Row(Strip(ssid), ScanInfo(ParseInt(signal).GetOr(0), security)))
  {
  }

  /** The `:`-separated line of three fields. */
  function Fields3(a: string, b: string, c: string): string {
    a + [':'] + (b + [':'] + c)
  }

  /** A line of three fields splits into them when none of them holds a colon. */
  lemma SplitThree(a: string, b: string, c: string)
    requires ':' !in a && ':' !in b && ':' !in c
    ensures Split(Fields3(a, b, c), ':') == [a, b, c]
  {
    SplitCons(b, c, ':');
    IndexOfAbsent(c, ':');
    SplitCons(a, b + [':'] + c, ':');
  }

  /** A well-formed `SSID:SIGNAL:SECURITY` line reads back as its fields. */
  lemma NmcliScanRowOfFields(ssid: string, signal: int, security: string)
    requires ssid != [] && !IsSpace(ssid[0]) && !IsSpace(ssid[|ssid| - 1])
    requires ':' !in ssid && ':' !in security
    ensures NmcliScanRow(Fields3(ssid, Decimal(signal), security)) ==
      Some(Row(ssid, ScanInfo(signal, security)))
  {
    var d := Decimal(signal);
    assert ':' !in d by {
      var m: nat := if signal < 0 then -signal else signal;
      assert forall i :: 0 <= i < |Digits(m)| ==> IsDigit(Digits(m)[i]);
    }
    var line := Fields3(ssid, d, security);
    SplitThree(ssid, d, security);
    StripTrimmed(ssid);
    ParseIntDecimal(signal);
    NmcliScanRowOfParts(line, ssid, d, security);
  }

  /** An SSID holding a `:` is cut at it: the text after the colon is read as
      the signal and the signal's text lands in the security field. */
  lemma NmcliColonSsidMangled(head: string, tail: string, signal: string)
    requires Strip(head) != []
    requires ':' !in head && ':' !in tail && ':' !in signal
    ensures NmcliScanRow(Fields3(head, tail, signal)) ==
      Some(Row(Strip(head), ScanInfo(ParseInt(tail).GetOr(0), signal)))
  {
    SplitThree(head, tail, signal);
    NmcliScanRowOfParts(Fields3(head, tail, signal), head, tail, signal);
  }

  // ---------------------------------------------------------------------
  // wpa_cli scan_results
  // ---------------------------------------------------------------------

  /** The number of `scan_results` reads `scan_wpa_cli` makes. */
  const ScanAttempts := 4

  /** One line of `scan_results` (bssid, frequency, level, flags, ssid, tab
      separated): lines with fewer than five fields are skipped, a level that
      `int()` rejects is read as -90 dBm, the signal is the percentage of the
      level and the security is the flags field. */
  function WpaScanRow(line: string): Option<Row> {
    var parts := Split(line, '\t');
    if |parts| < 5 then None
    else
      var ssid := Strip(parts[4]);
      if ssid == [] then None
      else Some(Row(ssid, ScanInfo(DbmToPercent(Some(ParseInt(parts[2]).GetOr(-90))), parts[3])))
  }

  /** The table one `scan_results` output gives. */
  function WpaScanTable(out: string): seq<Row> {
    var lines := SplitLines(out);
    if lines == [] then [] else MergeRange(lines, 1, |lines|, WpaScanRow)
  }

  /** Every signal in a `scan_results` table is a percentage. */
  lemma {:induction false} WpaScanSignalsArePercent(out: string)
    ensures forall i :: 0 <= i < |WpaScanTable(out)| ==> 0 <= WpaScanTable(out)[i].info.signal <= 100
  {
    var lines := SplitLines(out);
    if lines != [] {
      var rows := FilterMap(lines, 1, |lines|, WpaScanRow);
      var t := WpaScanTable(out);
      MergeRangeRows(lines, 1, |lines|, WpaScanRow);
      MergedTableRows(rows);
      forall i | 0 <= i < |t| ensures 0 <= t[i].info.signal <= 100 {
        var j := FirstPeak(rows, t[i].ssid);
        FilterMapMember(lines, 1, |lines|, WpaScanRow, rows[j]);
      }
    }
  }

  /** Parsing one `scan_results` output (the body of one attempt of
      `scan_wpa_cli`, starting from an empty table). */
  method ParseScanResults(out: string) returns (results: seq<Row>)
    ensures results == WpaScanTable(out)
  {
    results := [];
    if out == [] {
      return;
    }
    var lines := SplitLines(out);
    if lines == [] {
      return;
    }
    var i := 1;
    while i < |lines|
      invariant 1 <= i <= |lines|
      invariant results == MergeRange(lines, 1, i, WpaScanRow)
    {
      var line := lines[i];
      var parts := Split(line, '\t');
      if |parts| >= 5 {
        var levelDbm := -90;
        match ParseInt(parts[2]) {
          case Some(n) => levelDbm := n;
          case None =>
        }
        var flags := parts[3];
        var ssid := Strip(parts[4]);
        if ssid != [] {
          var pct := DbmToPercent(Some(levelDbm));
          assert WpaScanRow(line) == Some(Row(ssid, ScanInfo(pct, flags)));
          if ssid !in Keys(results) || pct > Get(results, ssid).value.signal {
            results := Put(results, ssid, ScanInfo(pct, flags));
          }
        }
      }
      i := i + 1;
    }
  }

  /** `scan_wpa_cli` over the outputs of its successive `scan_results` reads:
      the table of the first read that yields an entry, or an empty table. */
  method ScanWpaCli(outputs: seq<string>) returns (results: seq<Row>)
    requires |outputs| == ScanAttempts
    ensures results == [] <==> forall a :: 0 <= a < |outputs| ==> WpaScanTable(outputs[a]) == []
    ensures results != [] ==>
      exists a :: 0 <= a < |outputs| && results == WpaScanTable(outputs[a]) &&
        forall b :: 0 <= b < a ==> WpaScanTable(outputs[b]) == []
  {
    results := [];
    var a := 0;
    while a < |outputs|
      invariant 0 <= a <= |outputs|
      invariant results == []
      invariant forall b :: 0 <= b < a ==> WpaScanTable(outputs[b]) == []
    {
      results := ParseScanResults(outputs[a]);
      if results != [] {
        ghost var first := a;
        assert 0 <= first < |outputs| && results == WpaScanTable(outputs[first]);
        return;
      }
      a := a + 1;
    }
  }
}
