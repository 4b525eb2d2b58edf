/** The Wi-Fi screen's control logic: the `_connecting` re-entry guard of
    `_connect_to`, the same guard in front of `refresh_networks` and
    `on_disconnect`, the busy indicator each of them raises and lowers, what
    each completion does, and the rows `refresh_networks` lays out from the
    reconciled lists. The background thread between a start and its
    completion is not modelled: a completion is a separate call. */
module WifiScreen {
  import opened Wrappers
  import opened PyStr
  import opened Seqs
  import opened WifiConnect
  import Busy
  import Reconcile
  import ScanTable

  /** The delay of the geoip lookup scheduled after a successful connect. */
  const GeoipAfterConnectMs := 1000

  /** What a completion does: show an error message, or refresh the state,
      possibly schedule a geoip lookup after a delay, and go back to the
      main screen. */
  datatype Outcome =
    | ShowError(message: string)
    | BackToMain(geoipDelayMs: Option<int>)

  /** The completion of `_connect_to`: the task raised exactly when neither
      tool connected. */
  function ConnectOutcome(ssid: string, ok: bool): (o: Outcome)
    ensures o.ShowError? <==> !ok
    ensures o.ShowError? ==> o.message == "Failed to connect to:\n" + ssid
    ensures o.BackToMain? ==> o.geoipDelayMs == Some(GeoipAfterConnectMs)
  {
    if ok then BackToMain(Some(GeoipAfterConnectMs)) else ShowError("Failed to connect to:\n" + ssid)
  }

  /** The completion of `on_disconnect`; `failed` says whether its task raised. */
  function DisconnectOutcome(failed: bool): (o: Outcome)
    ensures o.ShowError? <==> failed
    ensures o.BackToMain? ==> o.geoipDelayMs.None?
  {
    if failed then ShowError("Failed to disconnect") else BackToMain(None)
  }

  // ---------------------------------------------------------------------
  // The rows refresh_networks lays out
  // ---------------------------------------------------------------------

  /** Python's `sub in s` on strings. */
  function Contains(s: string, sub: string): bool
    decreases |s|
  {
    StartsWith(s, sub) || (s != [] && Contains(s[1..], sub))
  }

  /** `sub` occurs in `s` exactly when some suffix of `s` starts with it. */
  lemma {:induction false} ContainsAt(s: string, sub: string)
    ensures Contains(s, sub) <==> exists i :: 0 <= i <= |s| && StartsWith(s[i..], sub)
    decreases |s|
  {
    assert s[0..] == s;
    if s != [] {
      ContainsAt(s[1..], sub);
      forall i | 1 <= i <= |s|
        ensures s[i..] == s[1..][i - 1..]
      {
      }
      if exists i :: 0 <= i <= |s| && StartsWith(s[i..], sub) {
        var i :| 0 <= i <= |s| && StartsWith(s[i..], sub);
        if i > 0 {
          assert StartsWith(s[1..][i - 1..], sub);
        }
      }
    }
  }

  /** The padlock icon: the security field names WPA, WEP or SAE. */
  predicate Secure(security: string) {
    Contains(security, "WPA") || Contains(security, "WEP") || Contains(security, "SAE")
  }

  /** Nothing longer than `s` occurs in it. */
  lemma {:induction false} ContainsShort(s: string, sub: string)
    requires |s| < |sub|
    ensures !Contains(s, sub)
    decreases |s|
  {
    if s != [] {
      ContainsShort(s[1..], sub);
    }
  }

  /** `t` starts with one of the three names. */
  predicate NamesSecurity(t: string) {
    StartsWith(t, "WPA") || StartsWith(t, "WEP") || StartsWith(t, "SAE")
  }

  /** The padlock is shown exactly when `WPA`, `WEP` or `SAE` starts at some
      position of the security field. */
  lemma SecureAt(security: string)
    ensures Secure(security) <==> (exists i :: 0 <= i <= |security| && NamesSecurity(security[i..]))
  {
    ContainsAt(security, "WPA");
    ContainsAt(security, "WEP");
    ContainsAt(security, "SAE");
  }

  /** More flags around a secure field never take the padlock away. */
  lemma {:induction false} SecureExtended(pre: string, security: string, post: string)
    requires Secure(security)
    ensures Secure(pre + security + post)
  {
    SecureAt(security);
    var i :| 0 <= i <= |security| && NamesSecurity(security[i..]);
    var w := pre + security + post;
    assert w[|pre| + i..] == security[i..] + post;
    SecureAt(w);
  }

  /** wpa_cli's `[WPA2-PSK-CCMP][ESS]` flags get the padlock, an open
      network's `[ESS]` does not. */
  lemma SecureFlags()
    ensures Secure("[WPA2-PSK-CCMP][ESS]")
    ensures !Secure("[ESS]")
  {
    var w := "[WPA2-PSK-CCMP][ESS]";
    assert StartsWith(w[1..], "WPA");
    var e := "[ESS]";
    assert e[..3][0] == '[' && e[1..][..3][0] == 'E' && e[2..][..3][1] == 'S';
    assert e[1..][1..] == e[2..] && e[2..][1..] == e[3..];
    ContainsShort(e[3..], "WPA");
    ContainsShort(e[3..], "WEP");
    ContainsShort(e[3..], "SAE");
  }

  /** A row of the network list: an information line, a button for a
      network in range (disabled for the current one, which is the only one
      that does not connect on release), or a disabled button for a saved
      network out of range. */
  datatype ListRow =
    | Info(text: string)
    | InRangeButton(ssid: string, signal: int, secure: bool, enabled: bool)
    | OutOfRangeButton(ssid: string)

  function EntryRow(e: Reconcile.Entry): ListRow {
    InRangeButton(e.ssid, e.signal, Secure(e.security), !e.current)
  }

  function OutOfRangeRow(ssid: string): ListRow {
    OutOfRangeButton(ssid)
  }

  /** The rows `refresh_networks`' completion lays out; `err` is the
      message of an exception raised by the task. */
  function RefreshRows(err: Option<string>, inRange: seq<Reconcile.Entry>, outOfRange: seq<string>): seq<ListRow> {
    if err.Some? then [Info("Scan failed: " + err.value)]
    else if inRange == [] && outOfRange == [] then [Info("No saved networks found in range.")]
    else
      Map(inRange, EntryRow) +
      (if outOfRange == [] then [] else [Info("Saved (out of range):")] + Map(outOfRange, OutOfRangeRow))
  }

  /** A successful refresh with something to show lists the in-range networks
      first, in order, each enabled exactly when it is not the current one,
      then, when there are any, a heading and the out-of-range networks in
      order. */
  lemma RefreshRowsLayout(inRange: seq<Reconcile.Entry>, outOfRange: seq<string>)
    requires inRange != [] || outOfRange != []
    ensures var rows := RefreshRows(None, inRange, outOfRange);
      |rows| == |inRange| + (if outOfRange == [] then 0 else 1 + |outOfRange|) &&
      (forall i :: 0 <= i < |inRange| ==>
        rows[i].InRangeButton? && rows[i].ssid == inRange[i].ssid &&
        rows[i].signal == inRange[i].signal && (rows[i].enabled <==> !inRange[i].current)) &&
      (outOfRange != [] ==>
        rows[|inRange|] == Info("Saved (out of range):") &&
        forall j :: 0 <= j < |outOfRange| ==> rows[|inRange| + 1 + j] == OutOfRangeButton(outOfRange[j]))
  {
    var rows := RefreshRows(None, inRange, outOfRange);
    var head := Map(inRange, EntryRow);
    forall i | 0 <= i < |inRange|
      ensures rows[i] == EntryRow(inRange[i])
    {
      MapAt(inRange, EntryRow, i);
    }
    if outOfRange != [] {
      var tail := Map(outOfRange, OutOfRangeRow);
      assert rows == head + [Info("Saved (out of range):")] + tail;
      forall j | 0 <= j < |outOfRange|
        ensures rows[|inRange| + 1 + j] == OutOfRangeButton(outOfRange[j])
      {
        MapAt(outOfRange, OutOfRangeRow, j);
      }
    }
  }

  /** For the reconciled list of any two scan tables, a network's button is
      disabled exactly when its SSID is the current one. */
  lemma OnlyCurrentDisabled(saved: set<string>, nm: seq<ScanTable.Row>, wp: seq<ScanTable.Row>,
                            current: string, outOfRange: seq<string>, i: nat)
    requires i < |Reconcile.InRange(saved, nm, wp, current)|
    ensures var inRange := Reconcile.InRange(saved, nm, wp, current);
      var rows := RefreshRows(None, inRange, outOfRange);
      rows[i].InRangeButton? && (rows[i].enabled <==> inRange[i].ssid != current)
  {
    var inRange := Reconcile.InRange(saved, nm, wp, current);
    RefreshRowsLayout(inRange, outOfRange);
    Reconcile.InRangeEntries(saved, nm, wp, current, inRange[i]);
  }

  // ---------------------------------------------------------------------
  // The screen
  // ---------------------------------------------------------------------

  class WifiScreen {
    /** `_connecting`: a connect is under way. */
    var connecting: bool
    /** The app-wide busy indicator. */
    const busy: Busy.BusyIndicator

    constructor(busy: Busy.BusyIndicator)
      ensures !connecting && this.busy == busy
    {
      connecting := false;
      this.busy := busy;
    }

    /** The start of `_connect_to`: ignored while a connect is under way,
        otherwise the guard is set and the busy indicator raised. */
    method ConnectTo() returns (started: bool)
      modifies this, busy
      ensures started <==> !old(connecting)
      ensures connecting
      ensures busy.State() == if started then Busy.AfterShow(old(busy.State())) else old(busy.State())
    {
      if connecting {
        return false;
      }
      connecting := true;
      var _ := busy.Show();
      started := true;
    }

    /** The completion of `_connect_to`: the indicator is lowered and the
        guard cleared whatever the task's result. */
    method ConnectDone(ssid: string, ok: bool) returns (outcome: Outcome)
      modifies this, busy
      ensures !connecting
      ensures busy.State() == Busy.AfterHide(old(busy.State()))
      ensures outcome == ConnectOutcome(ssid, ok)
    {
      var _ := busy.Hide();
      connecting := false;
      outcome := ConnectOutcome(ssid, ok);
    }

    /** A tap on a network's button run to completion: `out` is the
        `list_networks` output the task reads, `hasNmcli` whether nmcli is
        installed and `nmcliRun` what `nmcli device wifi connect` returned.
        A tap while a connect is under way does nothing; otherwise the
        connect succeeds exactly when wpa_cli or, failing that, nmcli does,
        the guard is cleared afterwards and the busy indicator is back where
        it was. */
    method Connect(ssid: string, out: string, hasNmcli: bool, nmcliRun: Option<int>)
      returns (outcome: Option<Outcome>, cmds: seq<Command>)
      modifies this, busy
      ensures old(connecting) ==>
        outcome.None? && cmds == [] && connecting && busy.State() == old(busy.State())
      ensures !old(connecting) ==>
        outcome.Some? && !connecting &&
        (outcome.value.BackToMain? <==> WpaConnectOk(out, ssid) || (hasNmcli && nmcliRun == Some(0))) &&
        cmds == ConnectCommands(out, ssid, hasNmcli) &&
        (NmcliConnect(ssid) in cmds <==> !WpaConnectOk(out, ssid) && hasNmcli) &&
        (Busy.Consistent(old(busy.State())) ==> busy.State() == old(busy.State()))
    {
      ghost var before := busy.State();
      var started := ConnectTo();
      if !started {
        return None, [];
      }
      var ok;
      ok, cmds := ConnectTask(out, ssid, hasNmcli, nmcliRun);
      var o := ConnectDone(ssid, ok);
      if Busy.Consistent(before) {
        Busy.ShowThenHide(before);
      }
      outcome := Some(o);
    }

    /** The start of `refresh_networks`: ignored while a connect is under
        way, otherwise the busy indicator is raised. */
    method StartRefresh() returns (started: bool)
      modifies busy
      ensures started <==> !connecting
      ensures busy.State() == if started then Busy.AfterShow(old(busy.State())) else old(busy.State())
    {
      if connecting {
        return false;
      }
      var _ := busy.Show();
      started := true;
    }

    /** The completion of `refresh_networks`: the indicator is lowered and
        the list laid out. */
    method RefreshDone(err: Option<string>, inRange: seq<Reconcile.Entry>, outOfRange: seq<string>)
      returns (rows: seq<ListRow>)
      modifies busy
      ensures busy.State() == Busy.AfterHide(old(busy.State()))
      ensures rows == RefreshRows(err, inRange, outOfRange)
    {
      var _ := busy.Hide();
      rows := RefreshRows(err, inRange, outOfRange);
    }

    /** The start of `on_disconnect`: ignored while a connect is under way,
        otherwise the busy indicator is raised. */
    method StartDisconnect() returns (started: bool)
      modifies busy
      ensures started <==> !connecting
      ensures busy.State() == if started then Busy.AfterShow(old(busy.State())) else old(busy.State())
    {
      if connecting {
        return false;
      }
      var _ := busy.Show();
      started := true;
    }

    /** The completion of `on_disconnect`. */
    method DisconnectDone(failed: bool) returns (outcome: Outcome)
      modifies busy
      ensures busy.State() == Busy.AfterHide(old(busy.State()))
      ensures outcome == DisconnectOutcome(failed)
    {
      var _ := busy.Hide();
      outcome := DisconnectOutcome(failed);
    }

    /** The disconnect button run to completion: ignored while a connect is
        under way; otherwise the plan `disconnect_client_wifi` runs, and the
        busy indicator is back where it was. */
    method Disconnect(hasNmcli: bool, out: string, failed: bool)
      returns (outcome: Option<Outcome>, cmds: seq<Command>)
      modifies busy
      ensures connecting ==> outcome.None? && cmds == [] && busy.State() == old(busy.State())
      ensures !connecting ==>
        outcome == Some(DisconnectOutcome(failed)) && cmds == DisconnectPlan(hasNmcli, out) &&
        (Busy.Consistent(old(busy.State())) ==> busy.State() == old(busy.State()))
    {
      ghost var before := busy.State();
      var started := StartDisconnect();
      if !started {
        return None, [];
      }
      cmds := DisconnectClientWifi(hasNmcli, out);
      var o := DisconnectDone(failed);
      if Busy.Consistent(before) {
        Busy.ShowThenHide(before);
      }
      outcome := Some(o);
    }
  }
}
