/** The saved networks the panel knows about: `wpa_cli list_networks`, the
    `network={ ... }` blocks of wpa_supplicant.conf, and NetworkManager's Wi-Fi
    connections. Tool output and file contents are parameters. */
module WifiSaved {
  import opened Wrappers
  import opened PyStr
  import opened Seqs

  // ---------------------------------------------------------------------
  // wpa_cli list_networks
  // ---------------------------------------------------------------------

  /** A saved network as `get_saved_networks_wpa_cli` records it: the stripped
      SSID and the network id. */
  datatype Listed = Listed(ssid: string, id: string)

  /** One line `id \t ssid \t bssid \t flags`: at least two fields and a
      non-empty SSID field. The field is tested before it is stripped, so an
      all-blank SSID is recorded as the empty string. */
  function ListedNetwork(line: string): Option<Listed> {
    var parts := Split(line, '\t');
    if |parts| >= 2 && parts[1] != [] then Some(Listed(Strip(parts[1]), parts[0])) else None
  }

  /** The line lists a network whose recorded SSID is `s`. */
  predicate Names(line: string, s: string) {
    ListedNetwork(line).Some? && ListedNetwork(line).value.ssid == s
  }

  /** `ssid_to_id` after the lines `lo..n-1`; `setdefault` keeps the first id. */
  function ListedIds(lines: seq<string>, lo: nat, n: nat): map<string, string>
    requires lo <= n <= |lines|
    decreases n
  {
    if n == lo then map[]
    else
      var m := ListedIds(lines, lo, n - 1);
      match ListedNetwork(lines[n - 1])
      case Some(l) => if l.ssid in m then m else m[l.ssid := l.id]
      case None => m
  }

  /** The first line in `i..n-1` naming `s`, or `n`. */
  function FirstNaming(lines: seq<string>, i: nat, n: nat, s: string): (j: nat)
    requires i <= n <= |lines|
    ensures i <= j <= n
    ensures j < n ==> Names(lines[j], s)
    ensures forall m :: i <= m < j ==> !Names(lines[m], s)
    decreases n - i
  {
    if i == n || Names(lines[i], s) then i else FirstNaming(lines, i + 1, n, s)
  }

  /** Extending the range by one line moves the first naming line only when
      there was none. */
  lemma FirstNamingSnoc(lines: seq<string>, lo: nat, n: nat, s: string)
    requires lo < n <= |lines|
    ensures FirstNaming(lines, lo, n, s) ==
      var j := FirstNaming(lines, lo, n - 1, s);
      if j < n - 1 then j else if Names(lines[n - 1], s) then n - 1 else n
  {
    var j := FirstNaming(lines, lo, n - 1, s);
    var j' := FirstNaming(lines, lo, n, s);
    if j < n - 1 {
      assert Names(lines[j], s);
    }
  }

  /** An SSID is in the id map exactly when some line names it, and its id is
      the one on the first such line. */
  lemma {:induction false} ListedIdsFirst(lines: seq<string>, lo: nat, n: nat, s: string)
    requires lo <= n <= |lines|
    ensures var j := FirstNaming(lines, lo, n, s);
      (s in ListedIds(lines, lo, n) <==> j < n) &&
      (j < n ==> ListedIds(lines, lo, n)[s] == ListedNetwork(lines[j]).value.id)
    decreases n
  {
    if n > lo {
      ListedIdsFirst(lines, lo, n - 1, s);
      FirstNamingSnoc(lines, lo, n, s);
    }
  }

  /** The id map `get_saved_networks_wpa_cli` returns for its output: the
      header line is skipped. */
  function WpaSavedIds(out: string): map<string, string> {
    var lines := SplitLines(out);
    if lines == [] then map[] else ListedIds(lines, 1, |lines|)
  }

  /** `get_saved_networks_wpa_cli`: the SSID set and the SSID-to-id map. */
  method SavedNetworksWpaCli(out: string) returns (ssids: set<string>, ids: map<string, string>)
    ensures ids == WpaSavedIds(out)
    ensures ssids == ids.Keys
  {
    ssids := {};
    ids := map[];
    if out == [] {
      return;
    }
    var lines := SplitLines(out);
    assert lines != [];
    var i := 1;
    while i < |lines|
      invariant 1 <= i <= |lines|
      invariant ids == ListedIds(lines, 1, i)
      invariant ssids == ids.Keys
    {
      var parts := Split(lines[i], '\t');
      if |parts| >= 2 {
        var nid, ssid := parts[0], parts[1];
        if ssid != [] {
          var s := Strip(ssid);
          ssids := ssids + {s};
          if s !in ids {
            ids := ids[s := nid];
          }
        }
      }
      i := i + 1;
    }
  }

  /** A saved SSID of the listing is one that some line after the header
      names, with the id of the first such line. */
  lemma WpaSavedIdsFirst(out: string, s: string)
    requires SplitLines(out) != []
    ensures var lines := SplitLines(out); var j := FirstNaming(lines, 1, |lines|, s);
      (s in WpaSavedIds(out) <==> j < |lines|) &&
      (j < |lines| ==> WpaSavedIds(out)[s] == ListedNetwork(lines[j]).value.id)
  {
    var lines := SplitLines(out);
    ListedIdsFirst(lines, 1, |lines|, s);
  }

  /** An SSID field of blanks passes the emptiness test and is recorded as `""`. */
  lemma BlankSsidRecordedEmpty(id: string, blanks: string)
    requires '\t' !in id && '\t' !in blanks
    requires blanks != [] && AllSpace(blanks)
    ensures ListedNetwork(id + "\t" + blanks) == Some(Listed("", id))
  {
    SplitCons(id, blanks, '\t');
    IndexOfAbsent(blanks, '\t');
    StripEmpty(blanks);
  }

  // ---------------------------------------------------------------------
  // wpa_supplicant.conf
  // ---------------------------------------------------------------------

  /** What the parser's `if`/`elif` chain makes of one line, judged on the
      stripped line: a `network={` line, a `}` line, an `ssid=` line with the
      SSID it yields (if any), or anything else. */
  datatype ConfLine = Opener | Closer | SsidSetting(ssid: Option<string>) | Other

  /** `val[1:-1]` for a value that starts and ends with `"`: a lone `"` gives
      the empty string. */
  function Unquote(v: string): string {
    if StartsWith(v, "\"") && EndsWith(v, "\"") then (if |v| >= 2 then v[1..|v| - 1] else []) else v
  }

  /** The tests of the chain, in order. For an `ssid=` line the value is the
      text after the first `=` (`line.split("=", 1)[1]`, which is the text
      after the prefix, see `ValueAfterKey`), stripped, unquoted, and kept
      (stripped again) only when not empty. A `}` line outside a block
      changes nothing, so it needs no case of its own. */
  function Classify(raw: string): ConfLine {
    var line := Strip(raw);
    if StartsWith(line, "network={") then Opener
    else if StartsWith(line, "}") then Closer
    else if StartsWith(line, "ssid=") then
      var v := Unquote(Strip(line[5..]));
      SsidSetting(if v != [] then Some(Strip(v)) else None)
    else Other
  }

  /** The classified lines of a file. */
  function Kinds(lines: seq<string>): (ks: seq<ConfLine>) {
    Map(lines, Classify)
  }

  /** The classification of line `i`. */
  method ClassifyLine(lines: seq<string>, i: nat) returns (kind: ConfLine)
    requires i < |lines|
    ensures kind == Kinds(lines)[i]
  {
    MapAt(lines, Classify, i);
    kind := Classify(lines[i]);
  }

  /** The `block` flag after the first `n` lines. */
  function InBlock(ks: seq<ConfLine>, n: nat): bool
    requires n <= |ks|
  {
    if n == 0 then false
    else
      match ks[n - 1]
      case Opener => true
      case Closer => false
      case _ => InBlock(ks, n - 1)
  }

  /** Some line before `n` opened a block and no line since has closed it. */
  predicate OpenedBefore(ks: seq<ConfLine>, n: nat)
    requires n <= |ks|
  {
    exists j :: 0 <= j < n && ks[j] == Opener && forall m :: j < m < n ==> ks[m] != Closer
  }

  /** Reading `n` lines leaves the parser inside a block exactly when some
      earlier line opened one and no line since has closed it. */
  lemma {:induction false} InBlockIff(ks: seq<ConfLine>, n: nat)
    requires n <= |ks|
    ensures InBlock(ks, n) <==> OpenedBefore(ks, n)
  {
    if n > 0 {
      InBlockIff(ks, n - 1);
      if ks[n - 1] == Opener {
        assert 0 <= n - 1 < n && ks[n - 1] == Opener;
      } else if ks[n - 1] != Closer && InBlock(ks, n) {
        var j :| 0 <= j < n - 1 && ks[j] == Opener && forall m :: j < m < n - 1 ==> ks[m] != Closer;
        assert forall m :: j < m < n ==> ks[m] != Closer;
      }
    }
  }

  /** The SSIDs read from the first `n` lines: those of `ssid=` lines read
      inside a block. */
  function SsidsIn(ks: seq<ConfLine>, n: nat): set<string>
    requires n <= |ks|
  {
    if n == 0 then {}
    else
      var prev := SsidsIn(ks, n - 1);
      match ks[n - 1]
      case SsidSetting(Some(s)) => if InBlock(ks, n - 1) then prev + {s} else prev
      case _ => prev
  }

  lemma {:induction false} SsidsInMember(ks: seq<ConfLine>, n: nat, s: string)
    requires n <= |ks|
    ensures s in SsidsIn(ks, n) <==>
      exists i :: 0 <= i < n && InBlock(ks, i) && ks[i] == SsidSetting(Some(s))
  {
    if n > 0 {
      SsidsInMember(ks, n - 1, s);
    }
  }

  /** One more line: how the flag and the set move on. */
  lemma ConfStep(ks: seq<ConfLine>, i: nat)
    requires i < |ks|
    ensures InBlock(ks, i + 1) == match ks[i]
      case Opener => true
      case Closer => false
      case _ => InBlock(ks, i)
    ensures SsidsIn(ks, i + 1) == match ks[i]
      case SsidSetting(Some(s)) => if InBlock(ks, i) then SsidsIn(ks, i) + {s} else SsidsIn(ks, i)
      case _ => SsidsIn(ks, i)
  {
  }

  /** The set `get_saved_networks_from_conf` returns; `content` is `None` when
      the file is missing or cannot be read. */
  function ConfSavedSsids(content: Option<string>): set<string> {
    match content
    case None => {}
    case Some(c) =>
      var ks := Kinds(SplitLines(c));
      SsidsIn(ks, |ks|)
  }

  /** The body of the parser's loop for one classified line: the new
      `block` flag and the SSIDs it adds. */
  method ReadConfLine(block: bool, kind: ConfLine) returns (block': bool, found: set<string>)
    ensures block' == match kind
      case Opener => true
      case Closer => false
      case _ => block
    ensures found == match kind
      case SsidSetting(Some(s)) => if block then {s} else {}
      case _ => {}
  {
    block', found := block, {};
    match kind {
      case Opener =>
        block' := true;
      case Closer =>
        if block {
          block' := false;
        }
      case SsidSetting(val) =>
        if block && val.Some? {
          found := {val.value};
        }
      case Other =>
    }
  }

  /** The loop of `get_saved_networks_from_conf` over the file's lines: the
      `if`/`elif` chain is taken through `Classify`, in the same order. */
  method ReadConf(lines: seq<string>) returns (ssids: set<string>)
    ensures ssids == SsidsIn(Kinds(lines), |lines|)
  {
    ghost var ks := Kinds(lines);
    ssids := {};
    var block := false;
    var i := 0;
    while i < |lines|
      invariant 0 <= i <= |lines|
      invariant block == InBlock(ks, i)
      invariant ssids == SsidsIn(ks, i)
    {
      var kind := ClassifyLine(lines, i);
      ConfStep(ks, i);
      var found;
      block, found := ReadConfLine(block, kind);
      ssids := ssids + found;
      i := i + 1;
    }
  }

  /** `get_saved_networks_from_conf`. */
  method SavedNetworksFromConf(content: Option<string>) returns (ssids: set<string>)
    ensures ssids == ConfSavedSsids(content)
  {
    ssids := {};
    if content.None? {
      return;
    }
    ssids := ReadConf(SplitLines(content.value));
  }

  /** Some `ssid=` line yields `s` while a block opened earlier is still open. */
  predicate SetsInBlock(ks: seq<ConfLine>, s: string) {
    exists i :: 0 <= i < |ks| && ks[i] == SsidSetting(Some(s)) && OpenedBefore(ks, i)
  }

  /** Over classified lines: an SSID is collected exactly when an `ssid=`
      line yields it while a block opened earlier is still open. */
  lemma SsidsInOpen(ks: seq<ConfLine>, s: string)
    ensures s in SsidsIn(ks, |ks|) <==> SetsInBlock(ks, s)
  {
    SsidsInMember(ks, |ks|, s);
    if s in SsidsIn(ks, |ks|) {
      var i :| 0 <= i < |ks| && InBlock(ks, i) && ks[i] == SsidSetting(Some(s));
      InBlockIff(ks, i);
    }
    if exists i :: 0 <= i < |ks| && ks[i] == SsidSetting(Some(s)) && OpenedBefore(ks, i) {
      var i :| 0 <= i < |ks| && ks[i] == SsidSetting(Some(s)) && OpenedBefore(ks, i);
      InBlockIff(ks, i);
    }
  }

  /** An SSID is read from the file exactly when some `ssid=` line yields it
      while a block opened earlier is still open. */
  lemma ConfSavedMember(c: string, s: string)
    ensures s in ConfSavedSsids(Some(c)) <==> SetsInBlock(Kinds(SplitLines(c)), s)
  {
    var ks := Kinds(SplitLines(c));
    assert ConfSavedSsids(Some(c)) == SsidsIn(ks, |ks|);
    SsidsInOpen(ks, s);
  }

  /** A stripped `ssid=` line is classified by its value alone. */
  lemma ClassifySetting(t: string)
    requires Strip(t) == t && StartsWith(t, "ssid=")
    ensures Classify(t) == var v := Unquote(Strip(t[5..]));
      SsidSetting(if v != [] then Some(Strip(v)) else None)
  {
    assert t[0] == 's';
  }

  /** The text between the quotes of `ssid="name"` is the SSID (stripped). */
  lemma QuotedConfSsid(name: string)
    requires name != []
    ensures Classify("ssid=\"" + name + "\"") == SsidSetting(Some(Strip(name)))
  {
    var t := "ssid=\"" + name + "\"";
    var q := "\"" + name + "\"";
    StripTrimmed(t);
    assert t[..5] == "ssid=";
    ClassifySetting(t);
    assert t[5..] == q;
    StripTrimmed(q);
    assert q[..1] == "\"" && q[|q| - 1..] == "\"";
    assert Unquote(q) == name by {
      assert q[1..|q| - 1] == name;
    }
  }

  /** A value of a single `"` unquotes to nothing and is dropped. */
  lemma LoneQuoteDropped()
    ensures Classify("ssid=\"") == SsidSetting(None)
  {
    var t := "ssid=\"";
    StripTrimmed(t);
    assert t[..5] == "ssid=";
    ClassifySetting(t);
    assert t[5..] == "\"";
    StripTrimmed("\"");
  }

  // ---------------------------------------------------------------------
  // nmcli -t -f NAME,TYPE connection show
  // ---------------------------------------------------------------------

  /** A finished `subprocess.run`. */
  datatype Completed = Completed(returncode: int, stdout: string)

  /** One line `name:type`: the name, when the type (after the first `:`)
      is a Wi-Fi type. */
  function WifiConnectionName(line: string): Option<string> {
    if line == [] then None
    else
      var (name, typ) := Partition(line, ':');
      if typ == "wifi" || typ == "802-11-wireless" then Some(name) else None
  }

  /** A connection line built from a colon-free name and a Wi-Fi type yields
      that name; any other type yields nothing. */
  lemma WifiConnectionNameOf(name: string, typ: string)
    requires ':' !in name
    ensures WifiConnectionName(name + ":" + typ) ==
      if typ == "wifi" || typ == "802-11-wireless" then Some(name) else None
  {
    var line := name + ":" + typ;
    assert line == name + (":" + typ);
    IndexOfAt(name, ":" + typ, ':');
    assert line[..|name|] == name;
    assert line[|name| + 1..] == typ;
  }

  /** The names of the Wi-Fi connections in a listing, in order. */
  method WifiConnectionNames(stdout: string) returns (names: seq<string>)
    ensures var lines := SplitLines(stdout); names == FilterMap(lines, 0, |lines|, WifiConnectionName)
  {
    var lines := SplitLines(stdout);
    names := [];
    var i := 0;
    while i < |lines|
      invariant 0 <= i <= |lines|
      invariant names == FilterMap(lines, 0, i, WifiConnectionName)
    {
      var line := lines[i];
      if line != [] {
        var (name, typ) := Partition(line, ':');
        if typ == "wifi" || typ == "802-11-wireless" {
          names := names + [name];
        }
      }
      i := i + 1;
    }
  }

  /** The stripped non-empty SSIDs `ssidOf` reports for `names[..n]`. */
  function NamedSsids(names: seq<string>, n: nat, ssidOf: string -> string): set<string>
    requires n <= |names|
  {
    if n == 0 then {}
    else
      var prev := NamedSsids(names, n - 1, ssidOf);
      var s := ssidOf(names[n - 1]);
      if s != [] then prev + {Strip(s)} else prev
  }

  lemma {:induction false} NamedSsidsMember(names: seq<string>, n: nat, ssidOf: string -> string, s: string)
    requires n <= |names|
    ensures s in NamedSsids(names, n, ssidOf) <==>
      exists j :: 0 <= j < n && ssidOf(names[j]) != [] && Strip(ssidOf(names[j])) == s
  {
    if n > 0 {
      NamedSsidsMember(names, n - 1, ssidOf, s);
    }
  }

  /** The set `get_saved_networks_nmcli` returns. `listing` is the run of the
      connection listing (`None` when it raised); `ssidOf(name)` is what the
      per-connection SSID query prints. */
  function NmcliSavedSsids(hasNmcli: bool, listing: Option<Completed>, ssidOf: string -> string): set<string> {
    if !hasNmcli || listing.None? || listing.value.returncode != 0 || listing.value.stdout == [] then {}
    else
      var lines := SplitLines(listing.value.stdout);
      var names := FilterMap(lines, 0, |lines|, WifiConnectionName);
      NamedSsids(names, |names|, ssidOf)
  }

  /** The loop asking for the SSID of each Wi-Fi connection. */
  method QuerySsids(names: seq<string>, ssidOf: string -> string) returns (ssids: set<string>)
    ensures ssids == NamedSsids(names, |names|, ssidOf)
  {
    ssids := {};
    var i := 0;
    while i < |names|
      invariant 0 <= i <= |names|
      invariant ssids == NamedSsids(names, i, ssidOf)
    {
      var ssid := ssidOf(names[i]);
      if ssid != [] {
        ssids := ssids + {Strip(ssid)};
      }
      i := i + 1;
    }
  }

  /** `get_saved_networks_nmcli`. */
  method SavedNetworksNmcli(hasNmcli: bool, listing: Option<Completed>, ssidOf: string -> string)
    returns (ssids: set<string>)
    ensures ssids == NmcliSavedSsids(hasNmcli, listing, ssidOf)
  {
    ssids := {};
    if !hasNmcli || listing.None? {
      return;
    }
    var cp := listing.value;
    if cp.returncode != 0 || cp.stdout == [] {
      return;
    }
    var names := WifiConnectionNames(cp.stdout);
    ssids := QuerySsids(names, ssidOf);
  }

  /** The line is a Wi-Fi connection whose SSID query reports `s`. */
  predicate Reports(line: string, ssidOf: string -> string, s: string) {
    WifiConnectionName(line).Some? &&
    ssidOf(WifiConnectionName(line).value) != [] && Strip(ssidOf(WifiConnectionName(line).value)) == s
  }

  /** For any line filter `name`: `s` is among the SSIDs of the names kept
      exactly when some line is kept under a name whose SSID is `s`. */
  lemma NamedSsidsOfLines(lines: seq<string>, name: string -> Option<string>, ssidOf: string -> string, s: string)
    ensures var names := FilterMap(lines, 0, |lines|, name);
      s in NamedSsids(names, |names|, ssidOf) <==>
      exists i :: 0 <= i < |lines| && name(lines[i]).Some? &&
        ssidOf(name(lines[i]).value) != [] && Strip(ssidOf(name(lines[i]).value)) == s
  {
    var names := FilterMap(lines, 0, |lines|, name);
    NamedSsidsMember(names, |names|, ssidOf, s);
    if s in NamedSsids(names, |names|, ssidOf) {
      var j :| 0 <= j < |names| && ssidOf(names[j]) != [] && Strip(ssidOf(names[j])) == s;
      FilterMapMember(lines, 0, |lines|, name, names[j]);
      var i :| 0 <= i < |lines| && name(lines[i]) == Some(names[j]);
      assert name(lines[i]).value == names[j];
    }
    if exists i :: 0 <= i < |lines| && name(lines[i]).Some? &&
        ssidOf(name(lines[i]).value) != [] && Strip(ssidOf(name(lines[i]).value)) == s {
      var i :| 0 <= i < |lines| && name(lines[i]).Some? &&
        ssidOf(name(lines[i]).value) != [] && Strip(ssidOf(name(lines[i]).value)) == s;
      FilterMapMember(lines, 0, |lines|, name, name(lines[i]).value);
      var j :| 0 <= j < |names| && names[j] == name(lines[i]).value;
    }
  }

  /** An SSID is saved in NetworkManager exactly when some Wi-Fi connection
      of a successful listing reports it (stripped, and not empty). */
  lemma NmcliSavedMember(hasNmcli: bool, cp: Completed, ssidOf: string -> string, s: string)
    requires hasNmcli && cp.returncode == 0 && cp.stdout != []
    ensures var lines := SplitLines(cp.stdout);
      s in NmcliSavedSsids(hasNmcli, Some(cp), ssidOf) <==>
      exists i :: 0 <= i < |lines| && Reports(lines[i], ssidOf, s)
  {
    var lines := SplitLines(cp.stdout);
    NamedSsidsOfLines(lines, WifiConnectionName, ssidOf, s);
    assert forall i :: 0 <= i < |lines| ==>
      (Reports(lines[i], ssidOf, s) <==>
        WifiConnectionName(lines[i]).Some? && ssidOf(WifiConnectionName(lines[i]).value) != [] &&
        Strip(ssidOf(WifiConnectionName(lines[i]).value)) == s);
  }
}
