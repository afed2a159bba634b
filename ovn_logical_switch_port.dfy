/** ovn_logical_switch_port.go: logical switch ports from the OVN northbound database,
    their address strings, and the port bindings of the southbound database joined into them. */
module OvnLogicalSwitchPort {
  import opened Wrappers
  import opened Strings
  import opened Rows

  /** net.HardwareAddr and net.IP are byte slices; None is a nil slice, which is what
      net.ParseMAC and net.ParseIP give for text they do not accept. */
  type HardwareAddr = seq<bv8>
  type IP = seq<bv8>

  /** OvnLogicalSwitchPortAddress. A nil IpAddresses slice is the empty sequence. */
  datatype PortAddress = PortAddress(
    mac: Option<HardwareAddr>, ips: seq<Option<IP>>, dynamic: bool, router: bool, unknown: bool)

  /** One net.ParseIP result per token, in order. */
  function ParseIps(tokens: seq<string>, parseIp: string -> Option<IP>): seq<Option<IP>> {
    seq(|tokens|, i requires 0 <= i < |tokens| => parseIp(tokens[i]))
  }

  /** parseLogicalPortAddress: classify an OVN address string by its space-separated tokens.
      `parseMac` and `parseIp` stand for net.ParseMAC and net.ParseIP. The function is total:
      Split always yields a first token and parse failures become nil entries. */
  function ParseLogicalPortAddress(s: string, parseMac: string -> Option<HardwareAddr>, parseIp: string -> Option<IP>)
    : (a: PortAddress)
    ensures var t := Split(s, " ");
            && (a.router <==> t[0] == "router")
            && (a.unknown <==> t[0] == "unknown" || t[0] == "dynamic")
            && (a.dynamic <==> t[0] !in {"router", "unknown", "dynamic"} && |t| > 1 && t[1] == "dynamic")
            && !(a.router && a.unknown) && !(a.router && a.dynamic) && !(a.unknown && a.dynamic)
            && a.mac == (if t[0] in {"router", "unknown", "dynamic"} then None else parseMac(t[0]))
            && |a.ips| == (if t[0] in {"router", "unknown"} || a.dynamic then 0 else |t| - 1)
            && forall i :: 0 <= i < |a.ips| ==> a.ips[i] == parseIp(t[i + 1])
  {
    var addrs := Split(s, " ");
    if addrs[0] == "router" then
      PortAddress(None, [], false, true, false)
    else if addrs[0] == "unknown" then
      PortAddress(None, [], false, false, true)
    else if addrs[0] == "dynamic" then
      // "dynamic" may be followed by IP addresses; the port is then marked unknown, not dynamic
      PortAddress(None, ParseIps(addrs[1..], parseIp), false, false, true)
    else
      var mac := parseMac(addrs[0]);
      if |addrs| > 1 && addrs[1] == "dynamic" then
        PortAddress(mac, [], true, false, false)
      else
        PortAddress(mac, ParseIps(addrs[1..], parseIp), false, false, false)
  }

  /** A leading "dynamic" marks the port unknown, not dynamic, and the tokens after it are
      still parsed as IP addresses. */
  lemma DynamicFirstIsUnknown(rest: string, parseMac: string -> Option<HardwareAddr>, parseIp: string -> Option<IP>)
    ensures ParseLogicalPortAddress("dynamic " + rest, parseMac, parseIp)
         == PortAddress(None, ParseIps(Split(rest, " "), parseIp), false, false, true)
  {
    ContainsChar("dynamic", ' ');
    SplitPieceThenRest("dynamic", " ", rest);
    assert "dynamic " + rest == "dynamic" + " " + rest;
  }

  /** After a MAC, "dynamic" sets Dynamic and whatever follows it is ignored. */
  lemma DynamicAfterMacIgnoresRest(mac: string, rest: string,
                                   parseMac: string -> Option<HardwareAddr>, parseIp: string -> Option<IP>)
    requires !Contains(mac, " ") && mac !in {"router", "unknown", "dynamic"}
    ensures ParseLogicalPortAddress(mac + " dynamic " + rest, parseMac, parseIp)
         == PortAddress(parseMac(mac), [], true, false, false)
  {
    MacThenDynamic(mac, rest);
  }

  /** The tokens of a MAC, a space, "dynamic" and anything: the MAC, then "dynamic". */
  lemma MacThenDynamic(mac: string, rest: string)
    requires !Contains(mac, " ")
    ensures var t := Split(mac + " dynamic " + rest, " "); |t| > 1 && t[0] == mac && t[1] == "dynamic"
  {
    ContainsChar("dynamic", ' ');
    SplitTwoPieces(mac, "dynamic", " ", rest);
    assert " dynamic " == " " + "dynamic" + " ";
    assert mac + " dynamic " + rest == mac + " " + "dynamic" + " " + rest;
  }

  /** Two spaces in a row give an empty token, and so a nil IP entry, not an error
      (net.ParseIP rejects the empty string). */
  lemma DoubleSpaceGivesEmptyToken(mac: string, ip: string,
                                   parseMac: string -> Option<HardwareAddr>, parseIp: string -> Option<IP>)
    requires !Contains(mac, " ") && mac !in {"router", "unknown", "dynamic"} && !Contains(ip, " ")
    requires parseIp("") == None
    ensures ParseLogicalPortAddress(mac + "  " + ip, parseMac, parseIp)
         == PortAddress(parseMac(mac), [None, parseIp(ip)], false, false, false)
  {
    ContainsChar("", ' ');
    SplitWithoutSeparator(ip, " ");
    SplitPieceThenRest("", " ", ip);
    SplitPieceThenRest(mac, " ", "" + " " + ip);
    var t := Split(mac + " " + ("" + " " + ip), " ");
    assert t == [mac, "", ip];
    assert t[1..] == ["", ip];
    assert mac + "  " + ip == mac + " " + ("" + " " + ip);
  }

  /** The value of an OvnLogicalSwitchPort record (the fields the code writes). */
  datatype PortRecord = PortRecord(
    uuid: string, name: string, addresses: seq<PortAddress>, externalIds: Option<map<string, string>>,
    tunnelKey: nat, up: bool, portBindingUuid: string, chassisUuid: string, datapathUuid: string)

  /** OvnLogicalSwitchPort; the Port_Binding join updates it in place through the reference
      kept in the result list. */
  class Port {
    var uuid: string
    var name: string
    var addresses: seq<PortAddress>
    var externalIds: Option<map<string, string>>
    var tunnelKey: nat
    var up: bool
    var portBindingUuid: string
    var chassisUuid: string
    var datapathUuid: string

    function View(): PortRecord
      reads this
    {
      PortRecord(uuid, name, addresses, externalIds, tunnelKey, up, portBindingUuid, chassisUuid, datapathUuid)
    }

    constructor (uuid: string, name: string, addresses: seq<PortAddress>,
                 externalIds: Option<map<string, string>>, up: bool)
      ensures View() == PortRecord(uuid, name, addresses, externalIds, 0, up, "", "", "")
    {
      this.uuid, this.name, this.addresses, this.externalIds, this.up := uuid, name, addresses, externalIds, up;
      tunnelKey, portBindingUuid, chassisUuid, datapathUuid := 0, "", "", "";
    }
  }

  function Views(ps: seq<Port>): seq<PortRecord>
    reads ps
  {
    seq(|ps|, i requires 0 <= i < |ps| reads ps => ps[i].View())
  }

  predicate Distinct(ps: seq<Port>) {
    forall i, j :: 0 <= i < j < |ps| ==> ps[i] != ps[j]
  }

  /** The `addresses` column: one parsed address for a "string", one per element, in order,
      for a "[]string", and none for a failed lookup or any other tag. */
  function AddressesOf(row: Row, parseMac: string -> Option<HardwareAddr>, parseIp: string -> Option<IP>)
    : seq<PortAddress>
  {
    if "addresses" !in row then []
    else match row["addresses"]
      case Str(s) => [ParseLogicalPortAddress(s, parseMac, parseIp)]
      case StrList(l) => seq(|l|, i requires 0 <= i < |l| => ParseLogicalPortAddress(l[i], parseMac, parseIp))
      case _ => []
  }

  /** The `up` column is copied only when it decodes as "bool". */
  function UpOf(row: Row): bool {
    "up" in row && row["up"].Boolean? && row["up"].b
  }

  /** The port a row of "SELECT _uuid, addresses, external_ids, name, up FROM Logical_Switch_Port"
      yields: rows without a string `_uuid` or `name` are skipped. */
  function PortOf(row: Row, parseMac: string -> Option<HardwareAddr>, parseIp: string -> Option<IP>)
    : Option<PortRecord>
  {
    match (StringColumn(row, "_uuid"), StringColumn(row, "name"))
    case (Some(uuid), Some(name)) =>
      Some(PortRecord(uuid, name, AddressesOf(row, parseMac, parseIp), ExternalIds(row), 0, UpOf(row), "", "", ""))
    case _ => None
  }

  /** A row of "SELECT _uuid, chassis, datapath, logical_port, tunnel_key FROM Port_Binding". */
  datatype Binding = Binding(uuid: string, chassis: string, datapath: string, logicalPort: string, tunnelKey: nat)

  /** The binding a row yields: four "string" columns and an "integer" tunnel key, which
      is cast from int64 to uint64; otherwise the row is ignored. */
  function BindingOf(row: Row): Option<Binding> {
    match (StringColumn(row, "_uuid"), StringColumn(row, "chassis"), StringColumn(row, "datapath"),
           StringColumn(row, "logical_port"), IntegerColumn(row, "tunnel_key"))
    case (Some(uuid), Some(chassis), Some(datapath), Some(port), Some(key)) =>
      Some(Binding(uuid, chassis, datapath, port, Uint64(key)))
    case _ => None
  }

  /** The position of the first port with the given name, or |ps| when there is none. */
  function FirstNamed(ps: seq<PortRecord>, name: string): (k: nat)
    ensures k <= |ps|
    ensures k < |ps| ==> ps[k].name == name
    ensures forall j :: 0 <= j < k ==> ps[j].name != name
  {
    if ps == [] || ps[0].name == name then 0 else 1 + FirstNamed(ps[1..], name)
  }

  /** One pass of the inner loop: the first port named by the binding takes its four fields. */
  function Bind(ps: seq<PortRecord>, b: Binding): seq<PortRecord> {
    var k := FirstNamed(ps, b.logicalPort);
    if k == |ps| then ps
    else ps[k := ps[k].(portBindingUuid := b.uuid, chassisUuid := b.chassis,
                        datapathUuid := b.datapath, tunnelKey := b.tunnelKey)]
  }

  /** The outer loop over the Port_Binding rows, in order. */
  function BindAll(ps: seq<PortRecord>, rows: seq<Row>): seq<PortRecord>
    decreases |rows|
  {
    if rows == [] then ps
    else
      var prev := BindAll(ps, rows[..|rows| - 1]);
      match BindingOf(rows[|rows| - 1])
      case None => prev
      case Some(b) => Bind(prev, b)
  }

  /** Fields the join never writes. */
  predicate SameIdentity(p: PortRecord, q: PortRecord) {
    p.uuid == q.uuid && p.name == q.name && p.addresses == q.addresses
    && p.externalIds == q.externalIds && p.up == q.up
  }

  predicate SameIdentities(ps: seq<PortRecord>, qs: seq<PortRecord>) {
    |ps| == |qs| && forall i :: 0 <= i < |ps| ==> SameIdentity(ps[i], qs[i])
  }

  /** Bind writes only the first port with the binding's name, and only its binding fields. */
  lemma BindUpdatesFirstNamedOnly(ps: seq<PortRecord>, b: Binding)
    ensures SameIdentities(Bind(ps, b), ps)
    ensures forall i :: 0 <= i < |ps| && i != FirstNamed(ps, b.logicalPort) ==> Bind(ps, b)[i] == ps[i]
    ensures FirstNamed(ps, b.logicalPort) < |ps| ==>
              var p := Bind(ps, b)[FirstNamed(ps, b.logicalPort)];
              p.portBindingUuid == b.uuid && p.chassisUuid == b.chassis
              && p.datapathUuid == b.datapath && p.tunnelKey == b.tunnelKey
  {
  }

  lemma {:induction false} FirstNamedByIdentity(ps: seq<PortRecord>, qs: seq<PortRecord>, name: string)
    requires SameIdentities(ps, qs)
    ensures FirstNamed(ps, name) == FirstNamed(qs, name)
  {
    if ps != [] && ps[0].name != name {
      FirstNamedByIdentity(ps[1..], qs[1..], name);
    }
  }

  /** The join keeps the list length and every field other than the four binding fields. */
  lemma {:induction false} BindAllKeepsIdentities(ps: seq<PortRecord>, rows: seq<Row>)
    ensures SameIdentities(BindAll(ps, rows), ps)
    decreases |rows|
  {
    if rows != [] {
      BindAllKeepsIdentities(ps, rows[..|rows| - 1]);
      var prev := BindAll(ps, rows[..|rows| - 1]);
      match BindingOf(rows[|rows| - 1])
      case None =>
      case Some(b) => BindUpdatesFirstNamedOnly(prev, b);
    }
  }

  /** A port whose name an earlier port already carries is never bound. */
  lemma {:induction false} ShadowedPortUnbound(ps: seq<PortRecord>, rows: seq<Row>, i: nat, k: nat)
    requires i < k < |ps| && ps[i].name == ps[k].name
    ensures |BindAll(ps, rows)| == |ps| && BindAll(ps, rows)[k] == ps[k]
    decreases |rows|
  {
    BindAllKeepsIdentities(ps, rows);
    if rows != [] {
      var init := rows[..|rows| - 1];
      ShadowedPortUnbound(ps, init, i, k);
      var prev := BindAll(ps, init);
      BindAllKeepsIdentities(ps, init);
      match BindingOf(rows[|rows| - 1])
      case None =>
      case Some(b) =>
        FirstNamedByIdentity(prev, ps, b.logicalPort);
        BindUpdatesFirstNamedOnly(prev, b);
        assert FirstNamed(ps, b.logicalPort) != k by {
          if ps[k].name == b.logicalPort {
            assert ps[i].name == b.logicalPort;
          }
        }
    }
  }

  /** When several bindings name the same port, the last one processed wins. */
  lemma {:induction false} LastBindingWins(ps: seq<PortRecord>, rows: seq<Row>, j: nat, k: nat)
    requires j < |rows| && BindingOf(rows[j]).Some?
    requires k < |ps| && FirstNamed(ps, BindingOf(rows[j]).value.logicalPort) == k
    requires forall m :: j < m < |rows| && BindingOf(rows[m]).Some? ==>
                           FirstNamed(ps, BindingOf(rows[m]).value.logicalPort) != k
    ensures |BindAll(ps, rows)| == |ps|
    ensures var b := BindingOf(rows[j]).value;
            BindAll(ps, rows)[k] == ps[k].(portBindingUuid := b.uuid, chassisUuid := b.chassis,
                                           datapathUuid := b.datapath, tunnelKey := b.tunnelKey)
    decreases |rows|
  {
    BindAllKeepsIdentities(ps, rows);
    var init := rows[..|rows| - 1];
    var prev := BindAll(ps, init);
    BindAllKeepsIdentities(ps, init);
    var b := BindingOf(rows[|rows| - 1]);
    if j == |rows| - 1 {
      FirstNamedByIdentity(prev, ps, b.value.logicalPort);
      BindUpdatesFirstNamedOnly(prev, b.value);
      assert SameIdentity(prev[k], ps[k]);
    } else {
      LastBindingWins(ps, init, j, k);
      match b
      case None =>
      case Some(b') =>
        FirstNamedByIdentity(prev, ps, b'.logicalPort);
        BindUpdatesFirstNamedOnly(prev, b');
    }
  }

  /** The `addresses` column of one port row, parsed entry by entry. */
  method ReadAddresses(row: Row, parseMac: string -> Option<HardwareAddr>, parseIp: string -> Option<IP>)
    returns (addresses: seq<PortAddress>)
    ensures addresses == AddressesOf(row, parseMac, parseIp)
  {
    addresses := [];
    if "addresses" in row {
      match row["addresses"]
      case Str(s) =>
        addresses := [ParseLogicalPortAddress(s, parseMac, parseIp)];
      case StrList(l) =>
        for j := 0 to |l|
          invariant |addresses| == j
          invariant forall k :: 0 <= k < j ==> addresses[k] == ParseLogicalPortAddress(l[k], parseMac, parseIp)
        {
          addresses := addresses + [ParseLogicalPortAddress(l[j], parseMac, parseIp)];
        }
      case _ =>
    }
  }

  /** The body of the first loop of GetLogicalSwitchPorts for one row: the port record the
      row yields, or nothing when the row is skipped. */
  method ReadPortRow(row: Row, parseMac: string -> Option<HardwareAddr>, parseIp: string -> Option<IP>)
    returns (r: Option<PortRecord>)
    ensures r == PortOf(row, parseMac, parseIp)
  {
    if "_uuid" !in row || !row["_uuid"].Str? {
      return None;
    }
    if "name" !in row || !row["name"].Str? {
      return None;
    }
    var up := false;
    if "up" in row && row["up"].Boolean? {
      up := row["up"].b;
    }
    var externalIds: Option<map<string, string>> := None;
    if "external_ids" in row {
      if row["external_ids"].StrMap? {
        externalIds := Some(row["external_ids"].m);
      }
    } else {
      externalIds := Some(map[]);
    }
    var addresses := ReadAddresses(row, parseMac, parseIp);
    return Some(PortRecord(row["_uuid"].s, row["name"].s, addresses, externalIds, 0, up, "", "", ""));
  }

  /** The first loop of GetLogicalSwitchPorts: one fresh port per well-formed row, in row order. */
  method CollectPorts(rows: seq<Row>, parseMac: string -> Option<HardwareAddr>, parseIp: string -> Option<IP>)
    returns (ps: seq<Port>)
    ensures Views(ps) == FilterMap(rows, (row: Row) => PortOf(row, parseMac, parseIp))
    ensures Distinct(ps) && forall i :: 0 <= i < |ps| ==> fresh(ps[i])
  {
    ghost var f := (row: Row) => PortOf(row, parseMac, parseIp);
    ps := [];
    for i := 0 to |rows|
      invariant Views(ps) == FilterMap(rows[..i], f)
      invariant Distinct(ps) && forall m :: 0 <= m < |ps| ==> fresh(ps[m])
    {
      FilterMapSnoc(rows, i, f);
      var rec := ReadPortRow(rows[i], parseMac, parseIp);
      if rec.None? {
        continue;
      }
      var v := rec.value;
      var p := new Port(v.uuid, v.name, v.addresses, v.externalIds, v.up);
      ps := ps + [p];
    }
    assert rows[..|rows|] == rows;
  }

  /** The inner loop of the Port_Binding join: bind the first port with the name, then stop. */
  method BindPort(ps: seq<Port>, b: Binding)
    requires Distinct(ps)
    modifies ps
    ensures Views(ps) == Bind(old(Views(ps)), b)
  {
    ghost var before := Views(ps);
    for j := 0 to |ps|
      invariant Views(ps) == before
      invariant forall m :: 0 <= m < j ==> before[m].name != b.logicalPort
    {
      var p := ps[j];
      assert before[j] == p.View();
      if p.name == b.logicalPort {
        assert FirstNamed(before, b.logicalPort) == j;
        p.portBindingUuid := b.uuid;
        p.chassisUuid := b.chassis;
        p.datapathUuid := b.datapath;
        p.tunnelKey := b.tunnelKey;
        assert forall m :: 0 <= m < |ps| && m != j ==> ps[m] != p;
        return;
      }
    }
  }

  /** The outer loop of the Port_Binding join. */
  method BindPorts(ps: seq<Port>, rows: seq<Row>)
    requires Distinct(ps)
    modifies ps
    ensures Views(ps) == BindAll(old(Views(ps)), rows)
  {
    ghost var start := Views(ps);
    for i := 0 to |rows|
      invariant Views(ps) == BindAll(start, rows[..i])
    {
      assert rows[..i + 1][..i] == rows[..i];
      var row := rows[i];
      if "_uuid" !in row || !row["_uuid"].Str? {
        continue;
      }
      if "chassis" !in row || !row["chassis"].Str? {
        continue;
      }
      if "datapath" !in row || !row["datapath"].Str? {
        continue;
      }
      if "logical_port" !in row || !row["logical_port"].Str? {
        continue;
      }
      if "tunnel_key" !in row || !row["tunnel_key"].Integer? {
        continue;
      }
      var b := Binding(row["_uuid"].s, row["chassis"].s, row["datapath"].s, row["logical_port"].s,
                       Uint64(row["tunnel_key"].i));
      assert BindingOf(row) == Some(b);
      BindPort(ps, b);
    }
    assert rows[..|rows|] == rows;
  }

  /** GetLogicalSwitchPorts over the Logical_Switch_Port rows (northbound) and the
      Port_Binding rows (southbound). */
  method GetLogicalSwitchPorts(
    nbResult: Result<seq<Row>, Error>, sbResult: Result<seq<Row>, Error>,
    parseMac: string -> Option<HardwareAddr>, parseIp: string -> Option<IP>)
    returns (r: Result<seq<Port>, Error>)
    ensures nbResult.Failure? ==> r == Failure(QueryFailed("Logical_Switch_Port"))
    ensures nbResult.Success? && nbResult.value == [] ==> r == Failure(NothingFound("logical switch port"))
    ensures nbResult.Success? && nbResult.value != [] ==>
              && (sbResult.Failure? ==> r == Failure(QueryFailed("Port_Binding")))
              && (sbResult.Success? && sbResult.value == [] ==> r == Failure(NothingFound("port binding")))
    ensures nbResult.Success? && nbResult.value != [] && sbResult.Success? && sbResult.value != [] ==>
              && r.Success?
              && Views(r.value)
                 == BindAll(FilterMap(nbResult.value, (row: Row) => PortOf(row, parseMac, parseIp)), sbResult.value)
              && Distinct(r.value) && forall i :: 0 <= i < |r.value| ==> fresh(r.value[i])
  {
    if nbResult.Failure? {
      return Failure(QueryFailed("Logical_Switch_Port"));
    }
    if |nbResult.value| == 0 {
      return Failure(NothingFound("logical switch port"));
    }
    var ps := CollectPorts(nbResult.value, parseMac, parseIp);
    if sbResult.Failure? {
      return Failure(QueryFailed("Port_Binding"));
    }
    if |sbResult.value| == 0 {
      return Failure(NothingFound("port binding"));
    }
    BindPorts(ps, sbResult.value);
    return Success(ps);
  }
}
