/** Connecting to and disconnecting from a client network: the commands
    `connect_wpa_cli`, `connect_nmcli` and `disconnect_client_wifi` issue,
    worked out from the tool output they read. Every command goes to the
    same interface, so the interface is left out of `Command`. */
module WifiConnect {
  import opened Wrappers
  import opened PyStr
  import opened Seqs

  /** A command the panel runs: `wpa_cli select_network/enable_network/
      save_config/disable_network/disconnect`, `nmcli device wifi connect`,
      `nmcli device disconnect`, `ip addr flush`. */
  datatype Command =
    | SelectNetwork(id: string)
    | EnableNetwork(id: string)
    | SaveConfig
    | DisableNetwork(id: string)
    | WpaDisconnect
    | NmcliConnect(ssid: string)
    | NmcliDisconnect
    | FlushAddresses

  // ---------------------------------------------------------------------
  // connect_wpa_cli
  // ---------------------------------------------------------------------

  /** The network id on a `list_networks` line whose SSID field is exactly
      `ssid` (not stripped). */
  function NetworkIdOf(line: string, ssid: string): Option<string> {
    var parts := Split(line, '\t');
    if |parts| >= 2 && parts[1] == ssid then Some(parts[0]) else None
  }

  /** The id of the first line from `i` on that matches. */
  function FirstNetworkId(lines: seq<string>, i: nat, ssid: string): Option<string>
    decreases |lines| - i
  {
    if i >= |lines| then None
    else if NetworkIdOf(lines[i], ssid).Some? then NetworkIdOf(lines[i], ssid)
    else FirstNetworkId(lines, i + 1, ssid)
  }

  /** The id `connect_wpa_cli` finds in the listing, after the header line. */
  function WpaConnectId(out: string, ssid: string): Option<string> {
    if out == [] then None else FirstNetworkId(SplitLines(out), 1, ssid)
  }

  /** `if not nid: return False`: no line matched, or its id is empty. */
  predicate WpaConnectOk(out: string, ssid: string) {
    WpaConnectId(out, ssid).Some? && WpaConnectId(out, ssid).value != []
  }

  /** The commands that make network `id` the active one and save it. */
  function SelectCommands(id: string): seq<Command> {
    [SelectNetwork(id), EnableNetwork(id), SaveConfig]
  }

  /** `connect_wpa_cli`: `out` is the `list_networks` output. */
  method ConnectWpaCli(out: string, ssid: string) returns (ok: bool, cmds: seq<Command>)
    ensures ok == WpaConnectOk(out, ssid)
    ensures cmds == if ok then SelectCommands(WpaConnectId(out, ssid).value) else []
  {
    cmds := [];
    if out == [] {
      return false, cmds;
    }
    var lines := SplitLines(out);
    var nid: Option<string> := None;
    var i := 1;
    while i < |lines|
      invariant 1 <= i
      invariant FirstNetworkId(lines, i, ssid) == FirstNetworkId(lines, 1, ssid)
    {
      var parts := Split(lines[i], '\t');
      if |parts| >= 2 && parts[1] == ssid {
        nid := Some(parts[0]);
        break;
      }
      i := i + 1;
    }
    if nid.None? || nid.value == [] {
      return false, cmds;
    }
    cmds := SelectCommands(nid.value);
    return true, cmds;
  }

  /** The first matching line wins: the id found is `id` exactly when some
      line from `i` on matches with id `id` and no earlier one matches. */
  /** No line in `i..j-1` matches. */
  predicate NoMatchBetween(lines: seq<string>, i: nat, j: nat, ssid: string)
    requires j <= |lines|
  {
    forall m :: i <= m < j ==> NetworkIdOf(lines[m], ssid).None?
  }

  /** The first matching line at or after `i` is the one whose id is found. */
  lemma {:induction false} FirstNetworkIdAt(lines: seq<string>, i: nat, ssid: string, j: nat)
    requires i <= j < |lines| && NetworkIdOf(lines[j], ssid).Some? && NoMatchBetween(lines, i, j, ssid)
    ensures FirstNetworkId(lines, i, ssid) == NetworkIdOf(lines[j], ssid)
    decreases j - i
  {
    if i < j {
      assert NoMatchBetween(lines, i + 1, j, ssid);
      FirstNetworkIdAt(lines, i + 1, ssid, j);
    }
  }

  /** A found id comes from the first matching line at or after `i`. */
  lemma {:induction false} FirstNetworkIdLine(lines: seq<string>, i: nat, ssid: string) returns (j: nat)
    requires FirstNetworkId(lines, i, ssid).Some?
    ensures i <= j < |lines| && NetworkIdOf(lines[j], ssid) == FirstNetworkId(lines, i, ssid)
    ensures NoMatchBetween(lines, i, j, ssid)
    decreases |lines| - i
  {
    if NetworkIdOf(lines[i], ssid).Some? {
      j := i;
    } else {
      j := FirstNetworkIdLine(lines, i + 1, ssid);
    }
  }

  lemma FirstNetworkIdIsFirst(lines: seq<string>, i: nat, ssid: string, id: string)
    ensures FirstNetworkId(lines, i, ssid) == Some(id) <==>
      exists j :: i <= j < |lines| && NetworkIdOf(lines[j], ssid) == Some(id) && NoMatchBetween(lines, i, j, ssid)
  {
    if FirstNetworkId(lines, i, ssid) == Some(id) {
      var j := FirstNetworkIdLine(lines, i, ssid);
    }
    if exists j :: i <= j < |lines| && NetworkIdOf(lines[j], ssid) == Some(id) && NoMatchBetween(lines, i, j, ssid) {
      var j :| i <= j < |lines| && NetworkIdOf(lines[j], ssid) == Some(id) && NoMatchBetween(lines, i, j, ssid);
      FirstNetworkIdAt(lines, i, ssid, j);
    }
  }

  /** Nothing is found exactly when no line from `i` on matches. */
  lemma {:induction false} FirstNetworkIdNone(lines: seq<string>, i: nat, ssid: string)
    ensures FirstNetworkId(lines, i, ssid).None? <==>
      forall j :: i <= j < |lines| ==> NetworkIdOf(lines[j], ssid).None?
    decreases |lines| - i
  {
    if i < |lines| {
      FirstNetworkIdNone(lines, i + 1, ssid);
    }
  }

  /** The SSID is compared unstripped: a line whose SSID field has a leading
      blank never matches the bare name, although the saved-network list
      records that name for the same line. */
  lemma PaddedSsidNotMatched(id: string, name: string)
    requires '\t' !in id && '\t' !in name
    requires name != [] && !IsSpace(name[0]) && !IsSpace(name[|name| - 1])
    ensures NetworkIdOf(id + "\t " + name, name).None?
    ensures Strip(Split(id + "\t " + name, '\t')[1]) == name
  {
    var field := " " + name;
    FieldsOfPaddedLine(id, name);
    assert |field| != |name|;
    StripOfBlankThenTrimmed(name);
  }

  /** The fields of `id \t name` with a blank before the name. */
  lemma FieldsOfPaddedLine(id: string, name: string)
    requires '\t' !in id && '\t' !in name
    ensures Split(id + "\t " + name, '\t') == [id, " " + name]
  {
    var field := " " + name;
    assert id + "\t " + name == id + ['\t'] + field;
    SplitCons(id, field, '\t');
    assert '\t' !in field;
    IndexOfAbsent(field, '\t');
  }

  /** A single leading blank before a trimmed string is stripped away. */
  lemma StripOfBlankThenTrimmed(name: string)
    requires name != [] && !IsSpace(name[0]) && !IsSpace(name[|name| - 1])
    ensures Strip(" " + name) == name
  {
    var t := " " + name;
    assert t[1..] == name;
    assert LStrip(t) == LStrip(name);
    StripTrimmed(name);
    assert LStrip(name) == name;
  }

  /** A matching line with an empty id field makes the connect fail. */
  lemma EmptyIdFails(name: string)
    requires '\t' !in name
    ensures NetworkIdOf("\t" + name, name) == Some("")
  {
    assert "\t" + name == [] + "\t" + name;
    SplitCons([], name, '\t');
    IndexOfAbsent(name, '\t');
  }

  // ---------------------------------------------------------------------
  // _connect_to's background task
  // ---------------------------------------------------------------------

  /** The commands `_connect_to`'s task issues: wpa_cli's select, enable and
      save when it finds the network; otherwise one `nmcli device wifi
      connect` when nmcli is installed, and nothing when it is not. */
  function ConnectCommands(out: string, ssid: string, hasNmcli: bool): seq<Command> {
    if WpaConnectOk(out, ssid) then SelectCommands(WpaConnectId(out, ssid).value)
    else if hasNmcli then [NmcliConnect(ssid)]
    else []
  }

  /** The task of `_connect_to`: wpa_cli first; nmcli only when that failed
      and nmcli is installed. `nmcliRun` is the return code of
      `nmcli device wifi connect`, `None` when the call raised. */
  method ConnectTask(out: string, ssid: string, hasNmcli: bool, nmcliRun: Option<int>)
    returns (ok: bool, cmds: seq<Command>)
    ensures ok <==> WpaConnectOk(out, ssid) || (hasNmcli && nmcliRun == Some(0))
    ensures NmcliConnect(ssid) in cmds <==> !WpaConnectOk(out, ssid) && hasNmcli
    ensures WpaConnectOk(out, ssid) ==> cmds == SelectCommands(WpaConnectId(out, ssid).value)
    ensures cmds == ConnectCommands(out, ssid, hasNmcli)
  {
    ok, cmds := ConnectWpaCli(out, ssid);
    if !ok && hasNmcli {
      cmds := cmds + [NmcliConnect(ssid)];
      ok := nmcliRun == Some(0);
    }
  }

  // ---------------------------------------------------------------------
  // disconnect_client_wifi
  // ---------------------------------------------------------------------

  /** `disable_network` for a `list_networks` line whose first field is all
      digits. */
  function DisableCommand(line: string): Option<Command> {
    var parts := Split(line, '\t');
    if |parts| > 0 && IsDigits(parts[0]) then Some(DisableNetwork(parts[0])) else None
  }

  /** The `disable_network` commands for a listing, header skipped. */
  function DisableCommands(out: string): seq<Command> {
    var lines := SplitLines(out);
    if out == [] || lines == [] then [] else FilterMap(lines, 1, |lines|, DisableCommand)
  }

  /** What `disconnect_client_wifi` runs: with nmcli a device disconnect;
      without it a wpa_cli disconnect, a `disable_network` per listed id and
      a `save_config`; in both cases the addresses are flushed last.
      `out` is the `list_networks` output read between. */
  function DisconnectPlan(hasNmcli: bool, out: string): seq<Command> {
    if hasNmcli then [NmcliDisconnect, FlushAddresses]
    else [WpaDisconnect] + DisableCommands(out) + [SaveConfig, FlushAddresses]
  }

  /** The loop over the listing's lines after the header. */
  method DisableListed(out: string) returns (cmds: seq<Command>)
    ensures cmds == DisableCommands(out)
  {
    cmds := [];
    var lines := SplitLines(out);
    if out == [] || lines == [] {
      return;
    }
    var i := 1;
    while i < |lines|
      invariant 1 <= i <= |lines|
      invariant cmds == FilterMap(lines, 1, i, DisableCommand)
    {
      var parts := Split(lines[i], '\t');
      if |parts| > 0 && IsDigits(parts[0]) {
        cmds := cmds + [DisableNetwork(parts[0])];
      }
      i := i + 1;
    }
  }

  /** `disconnect_client_wifi`. */
  method DisconnectClientWifi(hasNmcli: bool, out: string) returns (cmds: seq<Command>)
    ensures cmds == DisconnectPlan(hasNmcli, out)
  {
    if hasNmcli {
      cmds := [NmcliDisconnect];
    } else {
      var disable := DisableListed(out);
      cmds := [WpaDisconnect] + disable + [SaveConfig];
    }
    cmds := cmds + [FlushAddresses];
  }

  /** The shape of the plan: the flush always comes last; without nmcli the
      plan opens with the wpa_cli disconnect, saves the configuration just
      before the flush, and disables exactly the networks listed under an
      all-digit id. */
  lemma DisconnectPlanShape(hasNmcli: bool, out: string, id: string)
    ensures var p := DisconnectPlan(hasNmcli, out);
      |p| >= 2 && p[|p| - 1] == FlushAddresses &&
      (hasNmcli ==> p == [NmcliDisconnect, FlushAddresses]) &&
      (!hasNmcli ==>
        p[0] == WpaDisconnect && p[|p| - 2] == SaveConfig &&
        (DisableNetwork(id) in p <==> DisableNetwork(id) in DisableCommands(out)))
  {
  }

  /** A network is disabled exactly when a line after the header has `id`,
      all digits, as its first field. */
  lemma DisableCommandsMember(out: string, id: string)
    requires out != []
    ensures var lines := SplitLines(out);
      DisableNetwork(id) in DisableCommands(out) <==>
      exists i :: 1 <= i < |lines| && DisableCommand(lines[i]) == Some(DisableNetwork(id))
  {
    var lines := SplitLines(out);
    if lines != [] {
      FilterMapMember(lines, 1, |lines|, DisableCommand, DisableNetwork(id));
    }
  }

  /** Every `disable_network` id is all digits. */
  lemma DisabledIdsAreDigits(out: string, c: Command)
    requires c in DisableCommands(out)
    ensures c.DisableNetwork? && IsDigits(c.id)
  {
    var lines := SplitLines(out);
    FilterMapMember(lines, 1, |lines|, DisableCommand, c);
  }
}
