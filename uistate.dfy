/** `UiState`, the shared state object: its properties, the cached read of
    hostapd.conf, the choice of interfaces, and the snapshot a poll collects
    and then applies. Every probe a poll runs is a field of `Probes`. */
module UiState {
  import opened Wrappers
  import opened PyStr
  import opened Hostapd

  /** A property value: text, a count, or the CPU temperature as the integer
      the thermal zone reports (thousandths of a degree). */
  datatype Value = Text(text: string) | Count(count: int) | Temp(milli: int)

  /** The Kivy properties `UiState` declares, by name. */
  datatype Prop =
    | NetStatus | VpnStatus | VpnName | ApStatus | CpuTemp | Geoip | ApSsid
    | IpAddress | ConnectedClients | Uptime | Hostname | ClientSsid | HostIface | ApIface

  /** Each property's declared default. */
  function Default(k: Prop): Value {
    match k
    case NetStatus => Text("INIT")
    case VpnStatus => Text("OFF")
    case VpnName => Text("None")
    case ApStatus => Text("OFF")
    case CpuTemp => Temp(0)
    case Geoip => Text("Unknown")
    case ApSsid => Text("N/A")
    case IpAddress => Text("N/A")
    case ConnectedClients => Count(0)
    case Uptime => Text("N/A")
    case Hostname => Text("N/A")
    case ClientSsid => Text("N/A")
    case HostIface => Text("wlan0")
    case ApIface => Text("wlan1")
  }

  const AllProps: set<Prop> := {
    NetStatus, VpnStatus, VpnName, ApStatus, CpuTemp, Geoip, ApSsid,
    IpAddress, ConnectedClients, Uptime, Hostname, ClientSsid, HostIface, ApIface}

  lemma AllPropsListed(k: Prop)
    ensures k in AllProps
  {
    match k
    case NetStatus => case VpnStatus => case VpnName => case ApStatus =>
    case CpuTemp => case Geoip => case ApSsid => case IpAddress =>
    case ConnectedClients => case Uptime => case Hostname => case ClientSsid =>
    case HostIface => case ApIface =>
  }

  /** The properties as the class declares them. */
  function Defaults(): (m: map<Prop, Value>)
    ensures forall k :: k in m && m[k] == Default(k)
  {
    var m := map k | k in AllProps :: Default(k);
    forall k ensures k in m {
      AllPropsListed(k);
    }
    m
  }

  predicate SameKind(a: Value, b: Value) {
    (a.Text? && b.Text?) || (a.Count? && b.Count?) || (a.Temp? && b.Temp?)
  }

  /** Every value has its property's kind (a `StringProperty` refuses a
      number and the other way round). */
  predicate Fits(m: map<Prop, Value>) {
    forall k :: k in m ==> SameKind(m[k], Default(k))
  }

  // ---------------------------------------------------------------------
  // The hostapd.conf cache
  // ---------------------------------------------------------------------

  /** `self._hostapd_cache`. */
  datatype HostapdCache = HostapdCache(mtime: real, ssid: Option<string>, iface: Option<string>)

  const EmptyCache := HostapdCache(0.0, None, None)

  /** `_read_hostapd_cached` as a function of the cache, the file's mtime
      (`None` when `stat` finds no file) and its contents: the pair it
      returns and the cache after. */
  function CachedRead(c: HostapdCache, mtime: Option<real>, content: Option<string>): ((Option<string>, Option<string>), HostapdCache) {
    match mtime
    case None => ((None, None), c)
    case Some(m) =>
      if m <= c.mtime then ((c.ssid, c.iface), c)
      else
        var r := HostapdConf(content);
        (r, HostapdCache(m, r.0, r.1))
  }

  /** A file no newer than the cache is not read: the cached pair comes back
      whatever the contents, and the cache is kept. */
  lemma CacheHit(c: HostapdCache, m: real, content: Option<string>)
    requires m <= c.mtime
    ensures CachedRead(c, Some(m), content) == ((c.ssid, c.iface), c)
  {
  }

  /** A newer file is parsed, and the cache then holds its mtime and pair. */
  lemma CacheMiss(c: HostapdCache, m: real, content: Option<string>)
    requires m > c.mtime
    ensures CachedRead(c, Some(m), content).0 == HostapdConf(content)
    ensures CachedRead(c, Some(m), content).1 == HostapdCache(m, HostapdConf(content).0, HostapdConf(content).1)
  {
  }

  /** Reading again with the same mtime gives the pair the first read gave,
      without looking at the contents. */
  lemma CachedReadRepeat(c: HostapdCache, m: real, first: Option<string>, later: Option<string>)
    ensures var (r, c') := CachedRead(c, Some(m), first);
      CachedRead(c', Some(m), later) == (r, c')
  {
  }

  /** With the initial cache, a file whose mtime is not after the epoch is
      never parsed. */
  lemma InitialCacheIgnoresOldFile(m: real, content: Option<string>)
    requires m <= 0.0
    ensures CachedRead(EmptyCache, Some(m), content).0 == (None, None)
  {
  }

  // ---------------------------------------------------------------------
  // _determine_interfaces
  // ---------------------------------------------------------------------

  /** The `(host_iface, ap_iface)` pair after `_determine_interfaces`: the AP
      on one of wlan0/wlan1 puts the host on the other; anything else leaves
      the pair as it was. */
  function Interfaces(ap: Option<string>, host: string, apIface: string): (r: (string, string))
    ensures ap == Some("wlan0") ==> r == ("wlan1", "wlan0")
    ensures ap == Some("wlan1") ==> r == ("wlan0", "wlan1")
    ensures ap != Some("wlan0") && ap != Some("wlan1") ==> r == (host, apIface)
  {
    if ap.Some? && (ap.value == "wlan0" || ap.value == "wlan1") then
      (if ap.value == "wlan0" then "wlan1" else "wlan0", ap.value)
    else (host, apIface)
  }

  /** A detected AP interface never coincides with the host interface. */
  lemma InterfacesDistinct(ap: Option<string>, host: string, apIface: string)
    requires ap == Some("wlan0") || ap == Some("wlan1") || host != apIface
    ensures Interfaces(ap, host, apIface).0 != Interfaces(ap, host, apIface).1
  {
  }

  // ---------------------------------------------------------------------
  // collect_snapshot
  // ---------------------------------------------------------------------

  /** What `raspap_api("clients/<ap>")` returned. */
  datatype ClientsReply =
    | NotADict                 // None, or not a dict
    | NoActiveClients          // a dict without "active_clients"
    | ActiveList(length: nat)  // "active_clients" is a list
    | ActiveDict(length: nat)  // "active_clients" is a dict
    | ActiveOther              // "active_clients" is anything else

  /** What the probes of one poll return; each string is what `run_cmd`
      returns (stripped stdout, "" on failure), each `Option` what `_get_ip`
      returns. */
  datatype Probes = Probes(
    hostIp: Option<string>,
    iwgetid: string,
    hostapdStatus: string,
    thermal: string,
    hostname: string,
    uptime: string,
    clients: ClientsReply,
    apIp: Option<string>,
    openvpnPid: string)

  /** Python truthiness of an optional string. */
  predicate Truthy(s: Option<string>) {
    s.Some? && s.value != []
  }

  function OrNA(s: Option<string>): string {
    if Truthy(s) then s.value else "N/A"
  }

  /** `len(active)` for a list or dict, 0 otherwise. */
  function ClientCount(c: ClientsReply): (n: nat)
    ensures n > 0 ==> c.ActiveList? || c.ActiveDict?
  {
    match c
    case ActiveList(n) => n
    case ActiveDict(n) => n
    case _ => 0
  }

  /** `int(raw)` raises: a non-empty thermal reading that is not an integer. */
  predicate ThermalFails(p: Probes) {
    p.thermal != [] && ParseInt(p.thermal).None?
  }

  /** The keys a snapshot sets: every derived property, and `cpu_temp` only
      when the thermal zone gave a reading. */
  predicate InSnapshot(p: Probes, k: Prop) {
    match k
    case Geoip => false
    case HostIface => false
    case ApIface => false
    case CpuTemp => p.thermal != []
    case _ => true
  }

  /** The value the snapshot gives property `k`; `vpnName` is the current
      `vpn_name`, `apSsid` the SSID the cached hostapd read gives. */
  function SnapshotValue(p: Probes, vpnName: string, apSsid: Option<string>, k: Prop): Value
    requires !ThermalFails(p)
  {
    var on := Truthy(p.hostIp);
    match k
    case NetStatus => Text(if on then "ON" else "OFF")
    case ClientSsid => Text(if on then p.iwgetid else "Disconnected")
    case ApStatus => Text(if p.hostapdStatus == "active" then "ON" else "OFF")
    case CpuTemp => Temp(if p.thermal != [] then ParseInt(p.thermal).value else 0)
    case Hostname => Text(if p.hostname != [] then p.hostname else "N/A")
    case Uptime => Text(if p.uptime != [] then RemoveAll(p.uptime, "up ") else "N/A")
    case ConnectedClients => Count(ClientCount(p.clients))
    case ApSsid => Text(OrNA(apSsid))
    case IpAddress => Text(OrNA(p.apIp))
    case VpnStatus => Text(if p.openvpnPid != [] then "ON" else "OFF")
    case VpnName => Text(if p.openvpnPid == [] then "None" else if vpnName != "None" then vpnName else "ON")
    case _ => Default(k)
  }

  /** The snapshot dict `collect_snapshot` builds. */
  function Snapshot(p: Probes, vpnName: string, apSsid: Option<string>): (snap: map<Prop, Value>)
    requires !ThermalFails(p)
    ensures forall k :: k in snap <==> InSnapshot(p, k)
    ensures forall k :: k in snap ==> snap[k] == SnapshotValue(p, vpnName, apSsid, k)
  {
    forall k ensures k in AllProps {
      AllPropsListed(k);
    }
    map k | k in AllProps && InSnapshot(p, k) :: SnapshotValue(p, vpnName, apSsid, k)
  }

  /** The snapshot gives each property a value of its kind. */
  lemma SnapshotValueFits(p: Probes, vpnName: string, apSsid: Option<string>, k: Prop)
    requires !ThermalFails(p)
    ensures SameKind(SnapshotValue(p, vpnName, apSsid, k), Default(k))
  {
    match k
    case NetStatus => case VpnStatus => case VpnName => case ApStatus =>
    case CpuTemp => case Geoip => case ApSsid => case IpAddress =>
    case ConnectedClients => case Uptime => case Hostname => case ClientSsid =>
    case HostIface => case ApIface =>
  }

  /** Every value of a snapshot fits its property. */
  lemma SnapshotFits(p: Probes, vpnName: string, apSsid: Option<string>)
    requires !ThermalFails(p)
    ensures Fits(Snapshot(p, vpnName, apSsid))
  {
    var snap := Snapshot(p, vpnName, apSsid);
    forall k | k in snap ensures SameKind(snap[k], Default(k)) {
      SnapshotValueFits(p, vpnName, apSsid, k);
    }
  }

  /** `cpu_temp` is set only when the thermal zone gave a reading, `geoip`
      and the interfaces are never touched, and every other property is. */
  lemma SnapshotKeysSet(p: Probes, vpnName: string, apSsid: Option<string>, k: Prop)
    requires !ThermalFails(p)
    ensures k in Snapshot(p, vpnName, apSsid) <==>
      (k == CpuTemp ==> p.thermal != []) && k != Geoip && k != HostIface && k != ApIface
  {
  }

  /** The network is ON exactly when the host interface has an address. */
  lemma SnapshotNetStatus(p: Probes, vpnName: string, apSsid: Option<string>)
    requires !ThermalFails(p)
    ensures Snapshot(p, vpnName, apSsid)[NetStatus] == Text("ON") <==> Truthy(p.hostIp)
  {
  }

  /** The client SSID is iwgetid's answer while online, "Disconnected" otherwise. */
  lemma SnapshotClientSsid(p: Probes, vpnName: string, apSsid: Option<string>)
    requires !ThermalFails(p)
    ensures Snapshot(p, vpnName, apSsid)[ClientSsid] == Text(if Truthy(p.hostIp) then p.iwgetid else "Disconnected")
  {
  }

  /** The AP is ON exactly when the service reports "active". */
  lemma SnapshotApStatus(p: Probes, vpnName: string, apSsid: Option<string>)
    requires !ThermalFails(p)
    ensures Snapshot(p, vpnName, apSsid)[ApStatus] == Text("ON") <==> p.hostapdStatus == "active"
  {
  }

  /** A thermal reading is stored as the integer it parses to. */
  lemma SnapshotCpuTemp(p: Probes, vpnName: string, apSsid: Option<string>)
    requires !ThermalFails(p) && p.thermal != []
    ensures ParseInt(p.thermal).Some?
    ensures Snapshot(p, vpnName, apSsid)[CpuTemp] == Temp(ParseInt(p.thermal).value)
  {
  }

  /** Missing values show as "N/A". */
  lemma SnapshotDefaults(p: Probes, vpnName: string, apSsid: Option<string>)
    requires !ThermalFails(p)
    ensures var snap := Snapshot(p, vpnName, apSsid);
      (p.hostname == [] ==> snap[Hostname] == Text("N/A")) &&
      (!Truthy(apSsid) ==> snap[ApSsid] == Text("N/A")) &&
      (!Truthy(p.apIp) ==> snap[IpAddress] == Text("N/A")) &&
      (p.uptime == [] ==> snap[Uptime] == Text("N/A"))
  {
  }

  /** The client count is the length of a list or dict reply and 0 for
      anything else. */
  lemma SnapshotClients(p: Probes, vpnName: string, apSsid: Option<string>)
    requires !ThermalFails(p)
    ensures Snapshot(p, vpnName, apSsid)[ConnectedClients] == Count(0) <==>
      !(p.clients.ActiveList? || p.clients.ActiveDict?) || p.clients.length == 0
  {
  }

  /** The VPN name is carried over while openvpn runs: a known name is kept,
      an unknown one ("None") becomes "ON"; without openvpn both fields are
      reset. */
  lemma SnapshotVpn(p: Probes, vpnName: string, apSsid: Option<string>)
    requires !ThermalFails(p)
    ensures var snap := Snapshot(p, vpnName, apSsid);
      (p.openvpnPid != [] ==>
        snap[VpnStatus] == Text("ON") && snap[VpnName] == Text(if vpnName != "None" then vpnName else "ON")) &&
      (p.openvpnPid == [] ==> snap[VpnStatus] == Text("OFF") && snap[VpnName] == Text("None"))
  {
  }

  /** Polling again with openvpn still running keeps the name the previous
      poll set. */
  lemma SnapshotVpnStable(p: Probes, vpnName: string, apSsid: Option<string>)
    requires !ThermalFails(p) && p.openvpnPid != []
    ensures var name := Snapshot(p, vpnName, apSsid)[VpnName];
      Snapshot(p, name.text, apSsid)[VpnName] == name
  {
  }

  // ---------------------------------------------------------------------
  // The object
  // ---------------------------------------------------------------------

  class UiState {
    /** The Kivy properties. */
    var props: map<Prop, Value>
    /** `self._hostapd_cache`. */
    var cache: HostapdCache

    /** Every property is present with a value of its kind. */
    predicate Valid()
      reads this
    {
      (forall k :: k in props) && Fits(props)
    }

    function HostIfaceName(): string
      requires Valid()
      reads this
    {
      props[HostIface].text
    }

    function ApIfaceName(): string
      requires Valid()
      reads this
    {
      props[ApIface].text
    }

    function CurrentVpnName(): string
      requires Valid()
      reads this
    {
      props[VpnName].text
    }

    /** `__init__`: the defaults, an empty cache, then `_determine_interfaces`
        with hostapd.conf's mtime and contents at that moment. */
    constructor(mtime: Option<real>, content: Option<string>)
      ensures Valid()
      ensures cache == CachedRead(EmptyCache, mtime, content).1
      ensures (HostIfaceName(), ApIfaceName()) == Interfaces(CachedRead(EmptyCache, mtime, content).0.1, "wlan0", "wlan1")
      ensures forall k :: k != HostIface && k != ApIface ==> props[k] == Default(k)
    {
      props := Defaults();
      cache := EmptyCache;
      new;
      DetermineInterfaces(mtime, content);
    }

    /** `_read_hostapd_cached`. */
    method ReadHostapdCached(mtime: Option<real>, content: Option<string>) returns (ssid: Option<string>, iface: Option<string>)
      modifies this
      ensures ((ssid, iface), cache) == CachedRead(old(cache), mtime, content)
      ensures props == old(props)
    {
      if mtime.None? {
        return None, None;
      }
      var m := mtime.value;
      if m <= cache.mtime {
        return cache.ssid, cache.iface;
      }
      ssid, iface := ParseHostapdConf(content);
      cache := HostapdCache(m, ssid, iface);
    }

    /** `_determine_interfaces`. */
    method DetermineInterfaces(mtime: Option<real>, content: Option<string>)
      requires Valid()
      modifies this
      ensures Valid()
      ensures cache == CachedRead(old(cache), mtime, content).1
      ensures (HostIfaceName(), ApIfaceName()) ==
        Interfaces(CachedRead(old(cache), mtime, content).0.1, old(HostIfaceName()), old(ApIfaceName()))
      ensures forall k :: k != HostIface && k != ApIface ==> props[k] == old(props)[k]
    {
      var _, ap := ReadHostapdCached(mtime, content);
      if ap == Some("wlan0") || ap == Some("wlan1") {
        props := props[ApIface := Text(ap.value)];
        props := props[HostIface := Text(if ap.value == "wlan0" then "wlan1" else "wlan0")];
      }
    }

    /** `collect_snapshot`, given the probes and hostapd.conf's mtime and
        contents. `None` is the `ValueError` of `int(raw)`, raised before the
        second cached read. */
    method CollectSnapshot(p: Probes, mtime: Option<real>, content: Option<string>) returns (snap: Option<map<Prop, Value>>)
      requires Valid()
      modifies this
      ensures props == old(props)
      ensures ThermalFails(p) ==> snap.None? && cache == old(cache)
      ensures !ThermalFails(p) ==>
        var (r, c) := CachedRead(old(cache), mtime, content);
        snap == Some(Snapshot(p, old(CurrentVpnName()), r.0)) && cache == c
    {
      if ThermalFails(p) {
        return None;
      }
      var ssid, _ := ReadHostapdCached(mtime, content);
      snap := Some(Snapshot(p, CurrentVpnName(), ssid));
    }

    /** `apply_snapshot`: `setattr` for each key of the snapshot. */
    method ApplySnapshot(snap: map<Prop, Value>)
      requires Valid() && Fits(snap)
      modifies this
      ensures Valid() && cache == old(cache)
      ensures forall k :: k in snap ==> props[k] == snap[k]
      ensures forall k :: k !in snap ==> props[k] == old(props)[k]
    {
      var keys := snap.Keys;
      while keys != {}
        invariant keys <= snap.Keys && cache == old(cache)
        invariant forall k :: k in props
        invariant forall k :: k in snap && k !in keys ==> props[k] == snap[k]
        invariant forall k :: k !in snap || k in keys ==> props[k] == old(props)[k]
        decreases |keys|
      {
        var k :| k in keys;
        props := props[k := snap[k]];
        keys := keys - {k};
      }
      forall k ensures SameKind(props[k], Default(k)) {
        if k in snap {
          assert props[k] == snap[k];
        } else {
          assert props[k] == old(props)[k];
        }
      }
    }
  }
}
