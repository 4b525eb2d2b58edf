/** `parse_hostapd_conf`: the access point's SSID and interface read from
    hostapd.conf. The file's contents are a parameter. */
module Hostapd {
  import opened Wrappers
  import opened PyStr
  import opened Seqs

  /** What the `if`/`elif` chain makes of one line of hostapd.conf. */
  datatype HostapdLine = SsidLine(ssid: string) | InterfaceLine(iface: string) | OtherLine

  /** The chain on the stripped line; a value is `line.split("=", 1)[1]`. */
  function ClassifyHostapd(raw: string): HostapdLine {
    var line := Strip(raw);
    if StartsWith(line, "ssid=") then
      ValueAfterKey(line, "ssid");
      SsidLine(SplitOnce(line, '=')[1])
    else if StartsWith(line, "interface=") then
      ValueAfterKey(line, "interface");
      InterfaceLine(SplitOnce(line, '=')[1])
    else OtherLine
  }

  function SsidOf(k: HostapdLine): Option<string> {
    if k.SsidLine? then Some(k.ssid) else None
  }

  function InterfaceOf(k: HostapdLine): Option<string> {
    if k.InterfaceLine? then Some(k.iface) else None
  }

  /** The value `pick` finds on the last of the first `n` lines that has one. */
  function Last(ks: seq<HostapdLine>, n: nat, pick: HostapdLine -> Option<string>): Option<string>
    requires n <= |ks|
  {
    if n == 0 then None
    else if pick(ks[n - 1]).Some? then pick(ks[n - 1])
    else Last(ks, n - 1, pick)
  }

  /** Line `i` carries `v` and no later line before `n` carries a value. */
  predicate LastAt(ks: seq<HostapdLine>, n: nat, pick: HostapdLine -> Option<string>, i: nat, v: string)
    requires n <= |ks|
  {
    i < n && pick(ks[i]) == Some(v) && forall j :: i < j < n ==> pick(ks[j]).None?
  }

  /** The last line with a value wins; with no such line there is none. */
  lemma {:induction false} LastWins(ks: seq<HostapdLine>, n: nat, pick: HostapdLine -> Option<string>, v: string)
    requires n <= |ks|
    ensures Last(ks, n, pick) == Some(v) <==> exists i :: LastAt(ks, n, pick, i, v)
    ensures Last(ks, n, pick).None? <==> forall i :: 0 <= i < n ==> pick(ks[i]).None?
  {
    if n > 0 {
      LastWins(ks, n - 1, pick, v);
      if pick(ks[n - 1]).Some? {
        if pick(ks[n - 1]) == Some(v) {
          assert LastAt(ks, n, pick, n - 1, v);
        }
        if exists i :: LastAt(ks, n, pick, i, v) {
          var i :| LastAt(ks, n, pick, i, v);
          assert i == n - 1;
        }
      } else {
        if Last(ks, n, pick) == Some(v) {
          var i :| LastAt(ks, n - 1, pick, i, v);
          assert LastAt(ks, n, pick, i, v);
        }
        if exists i :: LastAt(ks, n, pick, i, v) {
          var i :| LastAt(ks, n, pick, i, v);
          assert LastAt(ks, n - 1, pick, i, v);
        }
      }
    }
  }

  /** The classified lines of the file, in the order `for line in f` reads them. */
  function HostapdKinds(c: string): seq<HostapdLine> {
    Map(FileLines(c), ClassifyHostapd)
  }

  /** The pair `parse_hostapd_conf` returns; `content` is `None` when the file
      cannot be opened. */
  function HostapdConf(content: Option<string>): (Option<string>, Option<string>) {
    match content
    case None => (None, None)
    case Some(c) =>
      var ks := HostapdKinds(c);
      (Last(ks, |ks|, SsidOf), Last(ks, |ks|, InterfaceOf))
  }

  /** The classification of line `i`. */
  method ClassifyHostapdLine(lines: seq<string>, i: nat) returns (kind: HostapdLine)
    requires i < |lines|
    ensures kind == Map(lines, ClassifyHostapd)[i]
  {
    MapAt(lines, ClassifyHostapd, i);
    kind := ClassifyHostapd(lines[i]);
  }

  /** The body of the loop for one classified line. */
  method ReadHostapdLine(ssid: Option<string>, iface: Option<string>, kind: HostapdLine)
    returns (ssid': Option<string>, iface': Option<string>)
    ensures ssid' == if SsidOf(kind).Some? then SsidOf(kind) else ssid
    ensures iface' == if InterfaceOf(kind).Some? then InterfaceOf(kind) else iface
  {
    ssid', iface' := ssid, iface;
    match kind {
      case SsidLine(v) =>
        ssid' := Some(v);
      case InterfaceLine(v) =>
        iface' := Some(v);
      case OtherLine =>
    }
  }

  /** The loop over the file's lines. */
  method ReadHostapd(lines: seq<string>) returns (ssid: Option<string>, iface: Option<string>)
    ensures var ks := Map(lines, ClassifyHostapd);
      ssid == Last(ks, |ks|, SsidOf) && iface == Last(ks, |ks|, InterfaceOf)
  {
    ghost var ks := Map(lines, ClassifyHostapd);
    ssid, iface := None, None;
    var i := 0;
    while i < |lines|
      invariant 0 <= i <= |lines|
      invariant ssid == Last(ks, i, SsidOf)
      invariant iface == Last(ks, i, InterfaceOf)
    {
      var kind := ClassifyHostapdLine(lines, i);
      ssid, iface := ReadHostapdLine(ssid, iface, kind);
      i := i + 1;
    }
  }

  /** `parse_hostapd_conf`. */
  method ParseHostapdConf(content: Option<string>) returns (ssid: Option<string>, iface: Option<string>)
    ensures (ssid, iface) == HostapdConf(content)
  {
    ssid, iface := None, None;
    if content.None? {
      return;
    }
    ssid, iface := ReadHostapd(FileLines(content.value));
  }

  /** An `ssid=` line gives the text after `ssid=` on the stripped line. */
  lemma HostapdSsidValue(raw: string)
    requires StartsWith(Strip(raw), "ssid=")
    ensures ClassifyHostapd(raw) == SsidLine(Strip(raw)[5..])
  {
    var line := Strip(raw);
    ValueAfterKey(line, "ssid");
    assert SplitOnce(line, '=')[1] == line[5..];
  }

  /** An `interface=` line gives the text after `interface=`. */
  lemma HostapdInterfaceValue(raw: string)
    requires StartsWith(Strip(raw), "interface=")
    ensures ClassifyHostapd(raw) == InterfaceLine(Strip(raw)[10..])
  {
    var line := Strip(raw);
    assert line[0] == 'i';
    assert !StartsWith(line, "ssid=");
    ValueAfterKey(line, "interface");
    assert SplitOnce(line, '=')[1] == line[10..];
  }

  /** Line `i` of the file gives `v` and no later line gives a value. */
  ghost predicate LastGives(c: string, pick: HostapdLine -> Option<string>, v: string) {
    var ks := HostapdKinds(c);
    exists i :: LastAt(ks, |ks|, pick, i, v)
  }

  /** Of several `ssid=` lines the last one wins: the SSID is `v` exactly when
      some line gives `v` and no later line gives an SSID. */
  lemma HostapdSsidIsLast(c: string, v: string)
    ensures HostapdConf(Some(c)).0 == Some(v) <==> LastGives(c, SsidOf, v)
  {
    var ks := HostapdKinds(c);
    assert HostapdConf(Some(c)).0 == Last(ks, |ks|, SsidOf);
    LastWins(ks, |ks|, SsidOf, v);
  }

  /** The same for `interface=` lines. */
  lemma HostapdInterfaceIsLast(c: string, v: string)
    ensures HostapdConf(Some(c)).1 == Some(v) <==> LastGives(c, InterfaceOf, v)
  {
    var ks := HostapdKinds(c);
    assert HostapdConf(Some(c)).1 == Last(ks, |ks|, InterfaceOf);
    LastWins(ks, |ks|, InterfaceOf, v);
  }
}
