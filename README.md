# RaspAP touch panel: a verified model of its decision logic

This project is a Dafny model of the logic in `raspap_touch_kivy.py` that
decides something. That file is the Kivy touch front-end of a RaspAP access
point. Every external call becomes a parameter: a tool's output string, a
file's contents, a bool saying whether `nmcli` is installed, an optional
return code.

The modules follow the program's pieces:

- `PyStr` (pystr.dfy): the Python string semantics the code relies on.
  - `str.strip`, `splitlines` and `for line in f` line splitting.
  - `split`, `split("=", 1)`, `partition` and `startswith`.
  - `int()` as an optional decimal parse, `isdigit` over ASCII digits, `replace`.
  - String ordering and `sorted()` of a set.
- `Seqs` (seqs.dfy) and `Wrappers` (wrappers.dfy): generic helpers.
  - `Seqs` has the filter-map and map over a sequence.
  - `Wrappers` has `Option`.
- `ScanTable` (scantable.dfy): a Python dict from SSID to `{signal, security}`.
  - It is a sequence of rows with distinct keys, in insertion order.
  - It has the update rule "insert if absent or if the signal is strictly higher".
  - A reference definition gives the result of merging a row sequence: one row per SSID, in first-seen order, holding the first row with the peak signal.
- `WifiScan` (wifiscan.dfy): `dbm_to_percent`, the `scan_nmcli` parse and the `scan_wpa_cli` parse and retry.
- `WifiSaved` (wifisaved.dfy): the saved networks.
  - `get_saved_networks_wpa_cli`.
  - The `network={ … }` block parser of `get_saved_networks_from_conf`.
  - `get_saved_networks_nmcli`.
- `Hostapd` (hostapd.dfy): `parse_hostapd_conf`, where the last `ssid=` and the last `interface=` win.
- `WifiConnect` (wificonnect.dfy): the commands `connect_wpa_cli`, the nmcli fallback and `disconnect_client_wifi` issue.
- `Reconcile` (reconcile.dfy): the background task of `refresh_networks`.
  - The saved union, the merge of two scans and the in-range entries.
  - The stable sort: current first, then by signal.
  - The sorted out-of-range list.
- `Busy` (busy.dfy): `show_busy_indicator` and `hide_busy_indicator` as a class over the depth and the overlay flag.
- `Timers` (timers.dfy): the scheduler and the timers built on it.
  - An abstract clock in integer milliseconds, with explicit timer handles.
  - `StatePoller`.
  - The geoip debounce `_trigger_geoip_soon` and the periodic geoip timer.
  - The app's `on_start` and `on_stop`.
- `UiState` (uistate.dfy): the `UiState` object.
  - Its property defaults.
  - The mtime cache of `_read_hostapd_cached`.
  - `_determine_interfaces`, `collect_snapshot` and `apply_snapshot`.
- `WifiScreen` (wifiscreen.dfy): the Wi-Fi screen.
  - The `_connecting` guard.
  - The busy indicator around connect, refresh and disconnect.
  - What each completion does.
  - The rows the refresh lays out.

Quirks of the code that the model keeps:

- An SSID field of blanks only passes the non-empty test of
  `get_saved_networks_wpa_cli` and is recorded as `""`.
- A conf `ssid="` strips to empty and is dropped.
- `connect_wpa_cli` compares SSIDs unstripped, while the saved set is stripped.
- `scan_nmcli` splits on every `:`, so SSIDs with colons come out mangled.
- `on_stop` cancels the geoip timers but leaves the state poller running.

## Model

| member | source | states |
|---|---|---|
| WifiScan.DbmToPercent | raspap_touch_kivy.py:344-348 | the percentage is always within 0..100 |
| WifiScan.DbmToPercentPieces | raspap_touch_kivy.py:344-348 | `None` gives 0; at or below -100 dBm gives 0; at or above -50 dBm gives 100; in between it is exactly `2*(dbm+100)` |
| WifiScan.DbmToPercentMonotone | raspap_touch_kivy.py:347-348 | a stronger level never gives a smaller percentage |
| WifiScan.ScanNmcli | raspap_touch_kivy.py:415-438 | the loop's table equals the lines' rows merged under the scan update rule (higher signal replaces; ties keep the first) |
| WifiScan.NmcliScanRowOfParts | raspap_touch_kivy.py:422-435 | a three-field line gives the stripped SSID; the signal is `int()` of the field or 0 when it is rejected; the security is the third field |
| WifiScan.SplitThree | raspap_touch_kivy.py:425 | colon-free fields joined by colons split back into exactly those fields |
| WifiScan.NmcliScanRowOfFields | raspap_touch_kivy.py:422-435 | a well-formed nmcli line with a decimal signal parses back to its SSID, signal and security |
| WifiScan.NmcliColonSsidMangled | raspap_touch_kivy.py:425-435 | an SSID `a:b` is cut at the colon: its tail is read as the signal and the signal field as the security |
| WifiScan.WpaScanSignalsArePercent | raspap_touch_kivy.py:453-463 | every signal in a `scan_results` table is within 0..100 |
| WifiScan.ParseScanResults | raspap_touch_kivy.py:448-463 | one output's loop equals the merge, header skipped, of its rows; a row is skipped below five fields or with a blank SSID; a bad level counts as -90 dBm |
| WifiScan.ScanWpaCli | raspap_touch_kivy.py:442-466 | over the four attempts: the result is empty iff every attempt's table is, and otherwise it is the table of the first non-empty attempt |
| WifiScan.NmcliScanRow | raspap_touch_kivy.py:422-435 | definition: a non-empty nmcli line becomes a row when it splits into at least two `:` fields and the stripped SSID is non-empty; a missing third field gives an empty security |
| WifiScan.NmcliScanTable | raspap_touch_kivy.py:415-438 | definition: the update rule folded over the nmcli rows |
| WifiScan.WpaScanRow | raspap_touch_kivy.py:453-463 | definition: one `scan_results` line becomes a row when it has at least five tab fields and its stripped SSID is non-empty |
| WifiScan.WpaScanTable | raspap_touch_kivy.py:448-463 | definition: the update rule folded over one output's rows, header skipped |
| WifiSaved.FirstNaming | raspap_touch_kivy.py:356-363 | the index returned is the first line in range that names the SSID, or the end of the range |
| WifiSaved.ListedIdsFirst | raspap_touch_kivy.py:356-363 | an SSID is in `ssid_to_id` iff some line names it, and its id is that of the first such line (`setdefault`) |
| WifiSaved.SavedNetworksWpaCli | raspap_touch_kivy.py:350-364 | the loop's map is the reference id map over the lines after the header, and the SSID set equals its keys |
| WifiSaved.WpaSavedIdsFirst | raspap_touch_kivy.py:354-364 | for a whole listing, header skipped: the SSID is present iff some line names it, with the first line's id |
| WifiSaved.BlankSsidRecordedEmpty | raspap_touch_kivy.py:358-363 | an SSID field made only of blanks is recorded as the empty SSID |
| WifiSaved.ClassifyLine | raspap_touch_kivy.py:376-385 | loop-body step: the classification of line i: opener, closer, `ssid=` setting with its cleaned value, or other |
| WifiSaved.InBlockIff | raspap_touch_kivy.py:374-380 | the `block` flag before line n is set iff a `network={` line came before and no `}` line came after it |
| WifiSaved.SsidsInMember | raspap_touch_kivy.py:381-386 | an SSID is collected iff an `ssid=` line yields it while `block` is set |
| WifiSaved.ConfStep | raspap_touch_kivy.py:377-386 | loop-body step: one line's effect on the flag and on the set, case by case |
| WifiSaved.ReadConfLine | raspap_touch_kivy.py:377-386 | loop-body step: the new flag and the SSIDs found are exactly the one-line step's |
| WifiSaved.ReadConf | raspap_touch_kivy.py:374-387 | the loop's set equals the SSIDs collected over all lines |
| WifiSaved.SavedNetworksFromConf | raspap_touch_kivy.py:366-387 | a missing or unreadable file gives the empty set; otherwise the set the block parser collects |
| WifiSaved.SsidsInOpen | raspap_touch_kivy.py:374-386 | an SSID is collected iff some `ssid=` line yields it after an opener that is still open |
| WifiSaved.ConfSavedMember | raspap_touch_kivy.py:374-387 | the same for the whole file contents |
| WifiSaved.ClassifySetting | raspap_touch_kivy.py:381-385 | a stripped `ssid=` line's value is its text after `=`, stripped and unquoted; it is kept, stripped again, only when non-empty |
| WifiSaved.QuotedConfSsid | raspap_touch_kivy.py:382-386 | `ssid="name"` yields the stripped name |
| WifiSaved.LoneQuoteDropped | raspap_touch_kivy.py:383-385 | `ssid="` strips to empty and yields nothing |
| WifiSaved.WifiConnectionNameOf | raspap_touch_kivy.py:401-406 | a `name:type` line is kept with its name iff the type is `wifi` or `802-11-wireless` |
| WifiSaved.WifiConnectionNames | raspap_touch_kivy.py:400-406 | the names the loop gathers are the line filter's results, in order |
| WifiSaved.NamedSsidsMember | raspap_touch_kivy.py:407-410 | an SSID is found iff some connection name's reply is non-empty and strips to it |
| WifiSaved.QuerySsids | raspap_touch_kivy.py:407-410 | the query loop's set equals those stripped non-empty replies |
| WifiSaved.SavedNetworksNmcli | raspap_touch_kivy.py:389-413 | no nmcli, a failed listing, a non-zero return code or an empty stdout give the empty set; otherwise the stripped SSIDs of the Wi-Fi connections |
| WifiSaved.NamedSsidsOfLines | raspap_touch_kivy.py:400-410 | an SSID comes back iff some listing line is kept under a name whose reply strips to it |
| WifiSaved.NmcliSavedMember | raspap_touch_kivy.py:398-410 | for a successful listing, an SSID is saved iff some Wi-Fi line's connection reports it |
| WifiSaved.ListedNetwork | raspap_touch_kivy.py:357-362 | definition: a `list_networks` line with at least two fields and a non-empty SSID field |
| WifiSaved.ListedIds | raspap_touch_kivy.py:356-363 | definition: the reference SSID-to-id map, where `setdefault` keeps the first id |
| WifiSaved.Unquote | raspap_touch_kivy.py:384-385 | definition: the value between a leading and a trailing `"` |
| WifiSaved.Classify | raspap_touch_kivy.py:376-385 | definition: a conf line after stripping: `network={`, `}`, an `ssid=` setting or anything else |
| WifiSaved.InBlock | raspap_touch_kivy.py:374-380 | definition: the `block` flag after a prefix of the lines |
| WifiSaved.SsidsIn | raspap_touch_kivy.py:381-386 | definition: the SSIDs of the `ssid=` settings read while `block` is set |
| WifiSaved.ConfSavedSsids | raspap_touch_kivy.py:366-387 | definition: the set `get_saved_networks_from_conf` returns |
| WifiSaved.WifiConnectionName | raspap_touch_kivy.py:401-406 | definition: the name of a `name:type` line whose type is a Wi-Fi type |
| WifiSaved.NamedSsids | raspap_touch_kivy.py:407-410 | definition: the stripped non-empty SSIDs reported for the connection names |
| WifiSaved.NmcliSavedSsids | raspap_touch_kivy.py:389-413 | definition: the set `get_saved_networks_nmcli` returns |
| Hostapd.LastWins | raspap_touch_kivy.py:327-332 | the value kept is `v` iff some line gives `v` and no later line gives one; it is absent iff no line gives one |
| Hostapd.ClassifyHostapdLine | raspap_touch_kivy.py:328-332 | loop-body step: line i is classified after stripping as an `ssid=` line, an `interface=` line or other |
| Hostapd.ReadHostapdLine | raspap_touch_kivy.py:329-332 | loop-body step: a matching line overwrites its variable; every other line leaves both unchanged |
| Hostapd.ReadHostapd | raspap_touch_kivy.py:324-335 | the loop ends with the last SSID value and the last interface value |
| Hostapd.ParseHostapdConf | raspap_touch_kivy.py:323-335 | a missing file gives `(None, None)`; otherwise the pair the reference parse gives |
| Hostapd.HostapdSsidValue | raspap_touch_kivy.py:328-330 | the SSID is everything after the first `ssid=` of the stripped line |
| Hostapd.HostapdInterfaceValue | raspap_touch_kivy.py:328-332 | the interface is everything after `interface=` of the stripped line |
| Hostapd.HostapdSsidIsLast | raspap_touch_kivy.py:323-335 | the parsed SSID is `v` iff some line gives `v` and no later line gives an SSID |
| Hostapd.HostapdInterfaceIsLast | raspap_touch_kivy.py:323-335 | the same for the interface |
| Hostapd.ClassifyHostapd | raspap_touch_kivy.py:328-332 | definition: the `if`/`elif` chain on the stripped line, the value being the text after the first `=` |
| Hostapd.Last | raspap_touch_kivy.py:327-332 | definition: the value found on the last line that has one |
| Hostapd.HostapdConf | raspap_touch_kivy.py:323-335 | definition: the pair `parse_hostapd_conf` returns |
| WifiConnect.ConnectWpaCli | raspap_touch_kivy.py:468-483 | success iff a listing line after the header has the unstripped SSID as its second field and the first such line's id is non-empty; then select, enable and save for that id; otherwise no command |
| WifiConnect.FirstNetworkIdIsFirst | raspap_touch_kivy.py:473-477 | the id found is `id` iff some line matches with `id` and no earlier line matches |
| WifiConnect.FirstNetworkIdNone | raspap_touch_kivy.py:473-478 | no id is found iff no line matches |
| WifiConnect.PaddedSsidNotMatched | raspap_touch_kivy.py:475 | a line whose SSID field has a leading blank never matches the bare name, although the saved list records that bare name for it |
| WifiConnect.EmptyIdFails | raspap_touch_kivy.py:476-479 | a matching line with an empty id field gives the empty id, which makes the connect fail |
| WifiConnect.ConnectTask | raspap_touch_kivy.py:1248-1253 | success iff wpa_cli succeeds, or nmcli is installed and returns 0; the commands are exactly wpa_cli's select, enable and save, or else one nmcli connect when nmcli is installed, or else none |
| WifiConnect.ConnectCommands | raspap_touch_kivy.py:1248-1251 | definition: the commands the connect task issues, by which tool succeeds or is installed |
| WifiConnect.DisableListed | raspap_touch_kivy.py:504-508 | the loop disables, in order, each id after the header whose first field is all digits |
| WifiConnect.DisconnectClientWifi | raspap_touch_kivy.py:493-515 | the commands issued equal the disconnect plan |
| WifiConnect.DisconnectPlanShape | raspap_touch_kivy.py:493-515 | the flush is always last; with nmcli the plan is exactly device disconnect then flush; without it, disconnect first and save just before the flush, disabling exactly the listed ids |
| WifiConnect.DisableCommandsMember | raspap_touch_kivy.py:504-508 | a network is disabled iff some line after the header has it, all digits, as its first field |
| WifiConnect.DisabledIdsAreDigits | raspap_touch_kivy.py:507 | every disabled id is all digits |
| WifiConnect.NetworkIdOf | raspap_touch_kivy.py:474-476 | definition: the id of a listing line whose second tab field is the unstripped SSID |
| WifiConnect.FirstNetworkId | raspap_touch_kivy.py:473-477 | definition: the id of the first matching line |
| WifiConnect.WpaConnectId | raspap_touch_kivy.py:470-477 | definition: the id `connect_wpa_cli` finds, header skipped |
| WifiConnect.WpaConnectOk | raspap_touch_kivy.py:478-479 | definition: `if not nid: return False` negated: a line matched and its id is non-empty |
| WifiConnect.SelectCommands | raspap_touch_kivy.py:480-482 | definition: select, enable and save for one network id |
| WifiConnect.DisableCommand | raspap_touch_kivy.py:506-508 | definition: `disable_network` for a line whose first field is all digits |
| WifiConnect.DisableCommands | raspap_touch_kivy.py:504-508 | definition: the `disable_network` commands for a listing, header skipped |
| WifiConnect.DisconnectPlan | raspap_touch_kivy.py:493-515 | definition: the commands `disconnect_client_wifi` issues |
| ScanTable.IndexOf | raspap_touch_kivy.py:1184 | the position of an SSID's row: found iff the SSID is a key, and it is the first row with that key |
| ScanTable.Put | raspap_touch_kivy.py:1185 | assigning an existing key keeps the key order; a new key is appended |
| ScanTable.PutKeepsDict | raspap_touch_kivy.py:1185 | assignment keeps the keys distinct |
| ScanTable.GetPut | raspap_touch_kivy.py:1185 | after assigning `k`, looking up `k` gives the new value, and every other key keeps its own |
| ScanTable.MergedTableIsDict | raspap_touch_kivy.py:1181-1185 | a merged table has one row per SSID |
| ScanTable.MergedReference | raspap_touch_kivy.py:1181-1185 | the reference merge: keys in first-seen order, each with the info of its first peak-signal row |
| ScanTable.MergedTableIsReference | raspap_touch_kivy.py:1181-1185 | folding the update rule over the rows gives exactly the reference merge |
| ScanTable.MergedTableRows | raspap_touch_kivy.py:1181-1185 | each SSID once, in first-seen order, with the signal and security of the first row at the peak signal |
| ScanTable.MergedTableOfDict | raspap_touch_kivy.py:1182-1185 | merging an already-distinct table changes nothing |
| ScanTable.GetMergedTable | raspap_touch_kivy.py:1181-1185 | looking up an SSID gives the first peak row's info, or nothing when the SSID is in no row |
| ScanTable.MergeTwoScans | raspap_touch_kivy.py:1181-1185 | merging the nmcli and the wpa_cli tables keeps the higher signal per SSID, and nmcli's entry, security included, on a tie |
| Reconcile.SavedUnion | raspap_touch_kivy.py:1178 | every SSID from either source is in the union, stripped |
| Reconcile.SavedUnionStripped | raspap_touch_kivy.py:1178 | every member of the union is stripped and comes from one of the two sources |
| Reconcile.MergeSource | raspap_touch_kivy.py:1183-1185 | the loop over one source extends the merge of what came before by that source |
| Reconcile.MergeScans | raspap_touch_kivy.py:1181-1185 | the in-place merge equals the reference merge of nmcli's rows followed by wpa_cli's |
| Reconcile.TaggedMember | raspap_touch_kivy.py:1187-1195 | an entry is collected iff some merged row gives it |
| Reconcile.TagRow | raspap_touch_kivy.py:1188-1195 | loop-body step: one merged row gives an entry exactly when its stripped SSID is non-empty and saved |
| Reconcile.CollectInRange | raspap_touch_kivy.py:1186-1195 | the append loop collects the tagged entries in table order |
| Reconcile.EntryOfSome | raspap_touch_kivy.py:1188-1195 | an entry's SSID is the row's stripped SSID, non-empty and saved; `current` holds iff it equals the current SSID; its signal and security are the row's |
| Reconcile.InsertMultiset | raspap_touch_kivy.py:1197 | insertion adds exactly the one entry |
| Reconcile.InsertOrdered | raspap_touch_kivy.py:1197 | insertion into an ordered list keeps it ordered by the sort key |
| Reconcile.InsertKeyFilter | raspap_touch_kivy.py:1197 | insertion puts the entry after every entry with the same key |
| Reconcile.SortEntriesOrdered | raspap_touch_kivy.py:1197 | the sorted list is ordered current-first, then by descending signal |
| Reconcile.SortEntriesPermutes | raspap_touch_kivy.py:1197 | the sorted list is a permutation of its input |
| Reconcile.SortEntriesStable | raspap_touch_kivy.py:1197 | the sort is stable: for every key, the entries with that key keep their relative order |
| Reconcile.SortEntriesMember | raspap_touch_kivy.py:1197 | sorting neither adds nor loses entries |
| Reconcile.InsertEntry | raspap_touch_kivy.py:1197 | the insertion loop equals the key-ordered stable insertion |
| Reconcile.SortInRange | raspap_touch_kivy.py:1197 | the sorting loop equals the stable sort by `(not current, -signal)` |
| Reconcile.ListOutOfRange | raspap_touch_kivy.py:1199-1200 | ascending with no repeats; exactly the saved SSIDs that are neither listed in range nor the non-empty current SSID; covers the rest of the saved set |
| Reconcile.Reconcile | raspap_touch_kivy.py:1175-1201 | the in-range list is the sorted tagged merge; the out-of-range list is sorted, disjoint from the in-range names, never the current SSID, and with them covers the saved union |
| Reconcile.InRangeEntries | raspap_touch_kivy.py:1178-1197 | every in-range SSID is non-empty and saved; `current` holds iff it equals the current SSID; each entry comes from a row of the merged table |
| Reconcile.SavedInRangeListed | raspap_touch_kivy.py:1181-1195 | a saved SSID seen, stripped and non-empty, in either scan is listed in range |
| Reconcile.InRangeOrder | raspap_touch_kivy.py:1197 | in the final list, current entries come first and signals do not increase within each group; ties keep table order |
| Reconcile.EntryOf | raspap_touch_kivy.py:1188-1195 | definition: the entry of one merged row: stripped, non-empty and saved, current iff equal to the current SSID |
| Reconcile.Tagged | raspap_touch_kivy.py:1186-1195 | definition: the entries of the merged rows in table order |
| Reconcile.Key | raspap_touch_kivy.py:1197 | definition: the sort key `(not current, -signal)` |
| Reconcile.SortEntries | raspap_touch_kivy.py:1197 | definition: the stable insertion sort by that key |
| Reconcile.OutOfRange | raspap_touch_kivy.py:1200 | definition: the saved SSIDs minus the in-range names and the non-empty current SSID |
| Reconcile.InRange | raspap_touch_kivy.py:1178-1197 | definition: the in-range list the task returns |
| Busy.StepConsistent | raspap_touch_kivy.py:196-232 | each show or hide keeps the depth non-negative, with the overlay present iff the depth is positive |
| Busy.RunConsistent | raspap_touch_kivy.py:196-232 | the same holds after any sequence of calls, and so from the initial state |
| Busy.RunDepthNonNegative | raspap_touch_kivy.py:196-225 | from any state with non-negative depth, the depth never goes negative |
| Busy.ShowThenHide | raspap_touch_kivy.py:234-240 | `with busy():` returns a consistent state to what it was |
| Busy.OverlayTransitions | raspap_touch_kivy.py:198-232 | a show creates the overlay iff the depth was 0; a hide removes it iff the depth was 1 |
| Busy.BusyIndicator.constructor | raspap_touch_kivy.py:193-194 | the depth starts at 0 with no overlay |
| Busy.BusyIndicator.Show | raspap_touch_kivy.py:196-221 | the depth goes up by one and the overlay is present; an overlay is created iff none was |
| Busy.BusyIndicator.Hide | raspap_touch_kivy.py:223-232 | the depth is `max(0, depth-1)`; the overlay is removed iff it was present and the depth is now 0 |
| Busy.AfterShow | raspap_touch_kivy.py:196-221 | definition: the depth goes up by one and an overlay is created if absent |
| Busy.AfterHide | raspap_touch_kivy.py:223-232 | definition: the depth becomes `max(0, depth-1)` and the overlay is removed at depth 0 |
| Busy.Run | raspap_touch_kivy.py:196-232 | definition: the state after a sequence of shows and hides |
| Timers.Clock.ScheduleOnce | raspap_touch_kivy.py:1469 | a fresh handle is added, due `delay` from now, and nothing else changes |
| Timers.Clock.ScheduleInterval | raspap_touch_kivy.py:1486-1489 | a fresh repeating handle is added, first due one period from now |
| Timers.Clock.Cancel | raspap_touch_kivy.py:1466 | only that handle is removed |
| Timers.Clock.Fire | raspap_touch_kivy.py:1469 | a one-shot timer is removed, a repeating one is rescheduled one period on, and time advances to its due time |
| Timers.Truncate | raspap_touch_kivy.py:1369 | Python's `int()` of a float truncates toward zero |
| Timers.PollInterval | raspap_touch_kivy.py:1369 | `max(1, int(interval_sec))`: at least 1, and 1 for every interval below 2 seconds |
| Timers.StatePoller.constructor | raspap_touch_kivy.py:1368-1371 | the interval is `max(1, int(interval_sec))` and no poll timer is scheduled yet |
| Timers.StatePoller.Start | raspap_touch_kivy.py:1373-1376 | idempotent: a running poller changes nothing; otherwise a repeating poll timer of the interval is scheduled |
| Timers.StatePoller.Stop | raspap_touch_kivy.py:1378-1381 | the poll timer is cancelled and the handle cleared; no poll timer remains |
| Timers.GeoipTimers.constructor | raspap_touch_kivy.py:1445-1446 | both geoip handles start cleared |
| Timers.GeoipTimers.TriggerSoon | raspap_touch_kivy.py:1462-1469 | the previous pending lookup is cancelled and one new lookup is due `delay` from now; it is the only pending debounced lookup |
| Timers.GeoipTimers.StartPeriodic | raspap_touch_kivy.py:1486-1489 | a repeating geoip timer is added |
| Timers.GeoipTimers.Stop | raspap_touch_kivy.py:1494-1499 | both geoip timers are cancelled and cleared, and no geoip timer remains |
| Timers.App.constructor | raspap_touch_kivy.py:1444-1447 | the timer part of `build`: an empty clock, both geoip handles cleared and no poller |
| Timers.App.OnStart | raspap_touch_kivy.py:1478-1489 | a poller is created and started with `max(1, int(update_interval))` seconds (2 by default); exactly two repeating timers are added, the poll and the geoip lookup every `geoip_interval` (in ms; 300 s by default); nothing else changes |
| Timers.App.OnStateChange | raspap_touch_kivy.py:1453-1454 | the pending lookup, if any, is cancelled and one new lookup is due 500 ms from now; it is the only debounced lookup, and no other timer changes |
| Timers.App.OnStop | raspap_touch_kivy.py:1491-1501 | exactly the two geoip timers are cancelled and their handles cleared; the time and every other timer stay, so a running state poller stays scheduled |
| Timers.App.Dispatch | raspap_touch_kivy.py:1469 | the clock fires that timer and nothing else: time moves on to its due time, a one-shot timer is dropped, a repeating one is due one period later; every invariant is kept and its action reported |
| Timers.Clock.Advance | raspap_touch_kivy.py:1469 | time passes by the given amount, with no timer due before it is over; no timer changes |
| Timers.App.BurstStep | raspap_touch_kivy.py:1453-1454 | loop-body step of a burst: time passes within the debounce delay, then one more state change replaces the pending lookup; no other timer changes |
| Timers.App.ChangeBurst | raspap_touch_kivy.py:1453-1469 | after a burst of changes, each within 500 ms of the previous one, exactly one debounced lookup is pending, due 500 ms after the last change; every other timer is as it was |
| UiState.Defaults | raspap_touch_kivy.py:522-535 | every property has its declared default |
| UiState.CacheHit | raspap_touch_kivy.py:545-546 | a file no newer than the cache is not read: the cached pair comes back and the cache is kept |
| UiState.CacheMiss | raspap_touch_kivy.py:547-549 | a newer file is parsed, and the cache records its mtime and pair |
| UiState.CachedReadRepeat | raspap_touch_kivy.py:545-549 | a second read at the same mtime gives the same pair, whatever the file now says |
| UiState.InitialCacheIgnoresOldFile | raspap_touch_kivy.py:539-545 | under the initial cache (mtime 0), a file with mtime at most 0 is never parsed |
| UiState.Interfaces | raspap_touch_kivy.py:555-560 | AP `wlan0` gives host `wlan1`; AP `wlan1` gives host `wlan0`; anything else keeps both interfaces |
| UiState.InterfacesDistinct | raspap_touch_kivy.py:555-557 | a detected AP interface is never also the host interface |
| UiState.ClientCount | raspap_touch_kivy.py:575-580 | a non-zero client count comes only from a list or dict of active clients |
| UiState.Snapshot | raspap_touch_kivy.py:562-591 | the snapshot's keys are exactly the probed properties; `cpu_temp` is there only with a thermal reading, and the values are the derivations |
| UiState.SnapshotValueFits | raspap_touch_kivy.py:563-591 | each snapshot value has its property's kind: text, count or temperature |
| UiState.SnapshotFits | raspap_touch_kivy.py:563-591 | the whole snapshot is of the right kinds |
| UiState.SnapshotKeysSet | raspap_touch_kivy.py:563-591 | a property is in the snapshot iff it is not geoip or an interface, and, for `cpu_temp`, the thermal read is non-empty |
| UiState.SnapshotNetStatus | raspap_touch_kivy.py:564-565 | `net_status` is ON iff the host interface has an address |
| UiState.SnapshotClientSsid | raspap_touch_kivy.py:566 | `client_ssid` is the iwgetid output when online, and "Disconnected" otherwise |
| UiState.SnapshotApStatus | raspap_touch_kivy.py:567-568 | `ap_status` is ON iff systemctl reports `active` |
| UiState.SnapshotCpuTemp | raspap_touch_kivy.py:569-571 | a non-empty thermal read that parses gives `cpu_temp` from its integer value |
| UiState.SnapshotDefaults | raspap_touch_kivy.py:572-583 | an empty hostname, AP SSID, AP address or uptime gives "N/A" |
| UiState.SnapshotClients | raspap_touch_kivy.py:575-580 | the client count is 0 iff the reply is not an active list or dict, or that list or dict is empty |
| UiState.SnapshotVpn | raspap_touch_kivy.py:584-590 | with openvpn running, the VPN is ON and its name is kept, or is "ON" when it was "None"; otherwise OFF and "None" |
| UiState.SnapshotVpnStable | raspap_touch_kivy.py:585-587 | while openvpn keeps running, the VPN name carried over stays the same |
| UiState.UiState.constructor | raspap_touch_kivy.py:537-540 | every property starts at its default, and then the interfaces are determined from hostapd.conf |
| UiState.UiState.ReadHostapdCached | raspap_touch_kivy.py:542-551 | the pair and the new cache are the cached read's; no property changes |
| UiState.UiState.DetermineInterfaces | raspap_touch_kivy.py:553-560 | the interfaces become the swap of the AP interface read from hostapd.conf; no other property changes |
| UiState.UiState.CollectSnapshot | raspap_touch_kivy.py:562-591 | a thermal read `int()` rejects raises before the second hostapd read and gives no snapshot; otherwise the snapshot with the old VPN name and the cached AP SSID |
| UiState.UiState.ApplySnapshot | raspap_touch_kivy.py:593-595 | every key in the snapshot is set to its value, and every other property is left as it was |
| UiState.Default | raspap_touch_kivy.py:522-535 | definition: each property's declared default |
| UiState.CachedRead | raspap_touch_kivy.py:542-551 | definition: `_read_hostapd_cached` as the pair it returns and the cache after |
| UiState.ThermalFails | raspap_touch_kivy.py:569-571 | definition: a non-empty thermal reading that `int()` rejects |
| UiState.InSnapshot | raspap_touch_kivy.py:562-591 | definition: the keys `collect_snapshot` sets |
| UiState.SnapshotValue | raspap_touch_kivy.py:563-591 | definition: the value the snapshot gives each key |
| WifiScreen.ConnectOutcome | raspap_touch_kivy.py:1252-1265 | an error message with the SSID iff neither tool connected; otherwise back to the main screen, with a geoip lookup 1000 ms later |
| WifiScreen.DisconnectOutcome | raspap_touch_kivy.py:1155-1162 | an error iff the task raised; otherwise back to the main screen, with no extra geoip lookup |
| WifiScreen.ContainsAt | raspap_touch_kivy.py:1220 | `sub in s` iff some suffix of `s` starts with `sub` |
| WifiScreen.SecureFlags | raspap_touch_kivy.py:1220-1221 | `[WPA2-PSK-CCMP][ESS]` gets the padlock; `[ESS]` does not |
| WifiScreen.SecureAt | raspap_touch_kivy.py:1220 | the padlock is shown iff `WPA`, `WEP` or `SAE` starts at some position of the security field |
| WifiScreen.SecureExtended | raspap_touch_kivy.py:1220 | a field with the padlock keeps it whatever text surrounds it |
| WifiScreen.RefreshRowsLayout | raspap_touch_kivy.py:1212-1238 | the in-range buttons come first, each enabled iff not current; then, if any, a heading and the out-of-range buttons, in order |
| WifiScreen.OnlyCurrentDisabled | raspap_touch_kivy.py:1216-1228 | in the reconciled list, a button is disabled iff its SSID is the current one |
| WifiScreen.WifiScreen.constructor | raspap_touch_kivy.py:1063-1065 | no connect is under way |
| WifiScreen.WifiScreen.ConnectTo | raspap_touch_kivy.py:1242-1246 | ignored while a connect is under way; otherwise it sets the guard and raises the busy indicator |
| WifiScreen.WifiScreen.ConnectDone | raspap_touch_kivy.py:1256-1265 | it lowers the indicator and clears the guard, on success and failure alike |
| WifiScreen.WifiScreen.Connect | raspap_touch_kivy.py:1242-1265 | a second tap while connecting does nothing and issues no command; otherwise the commands are exactly the connect task's, the connect succeeds iff wpa_cli, or failing that nmcli, does, the guard ends cleared and the busy state is as before |
| WifiScreen.WifiScreen.StartRefresh | raspap_touch_kivy.py:1165-1170 | ignored while a connect is under way; otherwise it raises the busy indicator |
| WifiScreen.WifiScreen.RefreshDone | raspap_touch_kivy.py:1203-1238 | it lowers the indicator and lays out the rows |
| WifiScreen.WifiScreen.StartDisconnect | raspap_touch_kivy.py:1147-1150 | ignored while a connect is under way; otherwise it raises the busy indicator |
| WifiScreen.WifiScreen.DisconnectDone | raspap_touch_kivy.py:1155-1162 | it lowers the indicator and reports the outcome |
| WifiScreen.WifiScreen.Disconnect | raspap_touch_kivy.py:1147-1163 | ignored while connecting; otherwise the disconnect plan runs and the busy state is as before |
| WifiScreen.Contains | raspap_touch_kivy.py:1220 | definition: Python `sub in s` on strings |
| WifiScreen.Secure | raspap_touch_kivy.py:1220 | definition: the security field contains `WPA`, `WEP` or `SAE` |
| WifiScreen.EntryRow | raspap_touch_kivy.py:1216-1228 | definition: an in-range button with SSID, signal and padlock, enabled iff not current |
| WifiScreen.OutOfRangeRow | raspap_touch_kivy.py:1233-1237 | definition: a disabled out-of-range button |
| WifiScreen.RefreshRows | raspap_touch_kivy.py:1203-1238 | definition: the rows the completion lays out: error text, the "none in range" text, or the buttons |
| PyStr.StripIdempotent | raspap_touch_kivy.py:1178 | stripping twice is stripping once |
| PyStr.StripEmpty | raspap_touch_kivy.py:360-361 | a string strips to empty iff it is all whitespace |
| PyStr.ParseIntDecimal | raspap_touch_kivy.py:431-434 | `int()` reads back any decimal numeral |
| PyStr.JoinSplit | raspap_touch_kivy.py:425 | `sep.join(s.split(sep)) == s` |
| PyStr.SplitJoin | raspap_touch_kivy.py:425 | splitting separator-free fields joined by the separator gives them back |
| PyStr.LinesOfJoin | raspap_touch_kivy.py:375 | `splitlines` of lines joined by newlines gives them back |
| PyStr.SortedList | raspap_touch_kivy.py:1200 | `sorted(list(s))` of a set is strictly ascending, with exactly the set's elements, each once |
| PyStr.Strip | raspap_touch_kivy.py:1178 | definition: `str.strip()`, dropping Python whitespace from both ends |
| PyStr.SplitLines | raspap_touch_kivy.py:375 | definition: `str.splitlines()`, splitting at every line boundary Python recognises, `\r\n` counting once, with no empty line after a final terminator |
| PyStr.FileLines | raspap_touch_kivy.py:327 | definition: the lines `for line in f` yields, cut at universal newlines |
| PyStr.Split | raspap_touch_kivy.py:425 | definition: `s.split(sep)` for a one-character separator; never an empty list |
| PyStr.SplitOnce | raspap_touch_kivy.py:382 | definition: `s.split("=", 1)`: one field without the separator, otherwise the text before and after its first occurrence |
| PyStr.Partition | raspap_touch_kivy.py:404 | definition: `s.partition(sep)`, the tail empty when the separator is absent |
| PyStr.ParseInt | raspap_touch_kivy.py:431-434 | definition: `int(s)` in base 10, `None` where Python raises: whitespace at either end (only ASCII whitespace when the whole string is ASCII), one optional sign, digit groups joined by single underscores |
| PyStr.IntText | raspap_touch_kivy.py:431-434 | definition: the text `int()` parses: an ASCII string trimmed of ASCII whitespace, any other string stripped as by `strip()` |
| PyStr.IntInformationSeparator | raspap_touch_kivy.py:431-434 | `int("\x1f70")` raises, while `int("\x1f70\xa0")` gives 70 |
| PyStr.IsDigits | raspap_touch_kivy.py:507 | definition: `s.isdigit()` over ASCII digits: non-empty and every character a digit |
| PyStr.RemoveAll | raspap_touch_kivy.py:574 | definition: `s.replace(pat, "")`, removing occurrences left to right without rescanning |
| PyStr.StrLess | raspap_touch_kivy.py:1200 | definition: Python string `<`, lexicographic on code points with a proper prefix first |

## Left out

- I/O and foreign calls are parameters rather than calls.
  - `run_cmd`, `subprocess.run`, `shutil.which`, file reads and `stat`.
  - `raspap_api` and `_get_ip`. The JSON decoding of `_get_ip` is not modelled, and its result is an optional string.
  - A tool's output is the string `run_cmd` returns.
- The geoip HTTP lookup and its completion are not modelled. Neither is the speed test.
- Threads are not modelled.
  - A `run_bg` task and its completion are separate calls.
  - Overlapping poller ticks, where the last writer wins, are not modelled.
- `scan_wpa_cli`'s `time.sleep` calls and the task's `time.sleep` are left out, because they only wait. The four attempts are modelled.
- `scan_nmcli` runs only when nmcli is installed. The reconciliation takes its table as given, so an empty table stands for "not installed".
- An exception raised inside a parser's loop is not modelled. Each parser is a total function of the text.
  - The only modelled raise is `int()` of a bad thermal read, which aborts `collect_snapshot`.
  - The task's exception is also modelled, as the connect and disconnect failure paths.
- `int()` accepts only ASCII digits here. Python also accepts other Unicode decimal digits.
- WifiConnect.DisableCommand: `str.isdigit()` is modelled by `PyStr.IsDigits`, which accepts only `0`..`9`. Python also accepts other Unicode digits, such as Arabic-Indic or superscript digits. A listing line whose first field is made of such digits is therefore not disabled here, although the program would disable it.
- `WifiScreen.DisconnectOutcome`'s failure branch can never happen. `disconnect_client_wifi` catches every exception (lines 494-515), so the disconnect task never raises. The branch is kept because the completion handler has it.
- `_trigger_geoip_soon`'s default delay of 0.75 s is not modelled. The only caller passes 0.5 s.
- Every command goes to the one interface, so the interface is not part of `WifiConnect.Command`.
- The Kivy layer is left out: widgets, labels, themes, fonts, toasts, popups, `paint_black_now` and the screen manager. `WifiScreen.ListRow` keeps only what a row says.
- The "No saved networks found." branch of the refresh completion is not modelled. It is unreachable, because the task always returns a non-empty dict.
- Times are integer milliseconds, so `_trigger_geoip_soon(0.5)` is 500 ms.
- Kivy's clock tolerance is not modelled.
- `Timers.PollInterval` models a numeric `update_interval` only. A string value from the config file, which `int()` would parse differently, is not modelled.
- `UiState.SnapshotCpuTemp` keeps the integer millidegree reading. The float division by 1000 is not modelled.
- `UiState.UiState.ApplySnapshot` sets the properties with no order. Kivy's property-change callbacks are not modelled.
- A property bound to `_trig` sets off the debounce through `Timers.App.OnStateChange`. Which properties are bound is not modelled.
- Reconcile.SortInRange sorts a `seq` value, not the Python list in place: the result and stability are modelled, the in-place mutation is not.
- `busy()`'s exception path is the same hide as its normal path, so `Busy.ShowThenHide` covers both.
- `WifiScreen.WifiScreen.RefreshDone` clears and refills the list, which is modelled as returning the new rows.
