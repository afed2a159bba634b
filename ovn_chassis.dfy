/** ovn_chassis.go: listing the chassis of the OVN southbound database, joined with the
    tunnel encapsulations that give each chassis its IP address and protocol. */
module OvnChassis {
  import opened Wrappers
  import opened Rows

  /** The value of an OvnChassis record. */
  datatype ChassisRecord = ChassisRecord(
    uuid: string, name: string, ipAddress: string, encapsUuid: string, encapsProto: string, up: int)

  /** OvnChassis; the join updates `ipAddress` and `encapsProto` in place through the
      reference kept in the result list. */
  class Chassis {
    var uuid: string
    var name: string
    var ipAddress: string
    var encapsUuid: string
    var encapsProto: string
    var up: int

    function View(): ChassisRecord
      reads this
    {
      ChassisRecord(uuid, name, ipAddress, encapsUuid, encapsProto, up)
    }

    constructor (uuid: string, name: string, encapsUuid: string)
      ensures View() == ChassisRecord(uuid, name, "", encapsUuid, "", 0)
    {
      this.uuid, this.name, this.encapsUuid := uuid, name, encapsUuid;
      ipAddress, encapsProto, up := "", "", 0;
    }
  }

  /** The records behind a list of chassis references. */
  function Views(cs: seq<Chassis>): seq<ChassisRecord>
    reads cs
  {
    seq(|cs|, i requires 0 <= i < |cs| reads cs => cs[i].View())
  }

  /** No two entries of the list point to the same chassis. */
  predicate Distinct(cs: seq<Chassis>) {
    forall i, j :: 0 <= i < j < |cs| ==> cs[i] != cs[j]
  }

  /** The chassis a row of "SELECT _uuid, name, encaps FROM Chassis" yields: all three
      columns must decode as "string". */
  function ChassisOf(row: Row): (r: Option<ChassisRecord>)
    ensures r.Some? <==> "_uuid" in row && row["_uuid"].Str? && "name" in row && row["name"].Str?
                         && "encaps" in row && row["encaps"].Str?
    ensures r.Some? ==> && row["_uuid"] == Str(r.value.uuid) && row["name"] == Str(r.value.name)
                        && row["encaps"] == Str(r.value.encapsUuid)
                        && r.value.ipAddress == "" && r.value.encapsProto == "" && r.value.up == 0
  {
    match (StringColumn(row, "_uuid"), StringColumn(row, "name"), StringColumn(row, "encaps"))
    case (Some(uuid), Some(name), Some(encaps)) => Some(ChassisRecord(uuid, name, "", encaps, "", 0))
    case _ => None
  }

  /** A row of "SELECT _uuid, chassis_name, ip, type FROM Encap". */
  datatype Encap = Encap(uuid: string, proto: string, chassisName: string, ip: string)

  /** The encapsulation a row yields: `_uuid`, `type`, `chassis_name` and `ip` must all
      decode as "string", otherwise the row is ignored. */
  function EncapOf(row: Row): (r: Option<Encap>)
    ensures r.Some? <==> && "_uuid" in row && row["_uuid"].Str? && "type" in row && row["type"].Str?
                         && "chassis_name" in row && row["chassis_name"].Str? && "ip" in row && row["ip"].Str?
    ensures r.Some? ==> && row["_uuid"] == Str(r.value.uuid) && row["type"] == Str(r.value.proto)
                        && row["chassis_name"] == Str(r.value.chassisName) && row["ip"] == Str(r.value.ip)
  {
    match (StringColumn(row, "_uuid"), StringColumn(row, "type"),
           StringColumn(row, "chassis_name"), StringColumn(row, "ip"))
    case (Some(uuid), Some(proto), Some(chassisName), Some(ip)) => Some(Encap(uuid, proto, chassisName, ip))
    case _ => None
  }

  /** The join key: the chassis refers to this encapsulation and carries its chassis name. */
  predicate Matches(c: ChassisRecord, e: Encap) {
    c.encapsUuid == e.uuid && c.name == e.chassisName
  }

  /** The position of the first chassis the encapsulation matches, or |cs| when none does. */
  function FirstMatch(cs: seq<ChassisRecord>, e: Encap): (k: nat)
    ensures k <= |cs|
    ensures k < |cs| ==> Matches(cs[k], e)
    ensures forall j :: 0 <= j < k ==> !Matches(cs[j], e)
  {
    if cs == [] || Matches(cs[0], e) then 0 else 1 + FirstMatch(cs[1..], e)
  }

  /** One pass of the inner loop: the first matching chassis takes the encapsulation's IP
      address and protocol. */
  function Attach(cs: seq<ChassisRecord>, e: Encap): seq<ChassisRecord> {
    var k := FirstMatch(cs, e);
    if k == |cs| then cs else cs[k := cs[k].(ipAddress := e.ip, encapsProto := e.proto)]
  }

  /** The outer loop over the Encap rows, in order. */
  function AttachAll(cs: seq<ChassisRecord>, rows: seq<Row>): seq<ChassisRecord>
    decreases |rows|
  {
    if rows == [] then cs
    else
      var prev := AttachAll(cs, rows[..|rows| - 1]);
      match EncapOf(rows[|rows| - 1])
      case None => prev
      case Some(e) => Attach(prev, e)
  }

  /** Fields the join never writes. */
  predicate SameIdentity(c: ChassisRecord, d: ChassisRecord) {
    c.uuid == d.uuid && c.name == d.name && c.encapsUuid == d.encapsUuid && c.up == d.up
  }

  predicate SameIdentities(cs: seq<ChassisRecord>, ds: seq<ChassisRecord>) {
    |cs| == |ds| && forall i :: 0 <= i < |cs| ==> SameIdentity(cs[i], ds[i])
  }

  /** Attach writes only the first matching chassis, and only its IP address and protocol. */
  lemma AttachUpdatesFirstMatchOnly(cs: seq<ChassisRecord>, e: Encap)
    ensures SameIdentities(Attach(cs, e), cs)
    ensures forall i :: 0 <= i < |cs| && i != FirstMatch(cs, e) ==> Attach(cs, e)[i] == cs[i]
    ensures FirstMatch(cs, e) < |cs| ==>
              var k := FirstMatch(cs, e);
              Attach(cs, e)[k].ipAddress == e.ip && Attach(cs, e)[k].encapsProto == e.proto
  {
  }

  /** The first match depends only on the fields the join never writes. */
  lemma {:induction false} FirstMatchByIdentity(cs: seq<ChassisRecord>, ds: seq<ChassisRecord>, e: Encap)
    requires SameIdentities(cs, ds)
    ensures FirstMatch(cs, e) == FirstMatch(ds, e)
  {
    if cs != [] && !Matches(cs[0], e) {
      FirstMatchByIdentity(cs[1..], ds[1..], e);
    }
  }

  /** The join keeps the list length and every UUID, name, encapsulation UUID and Up flag. */
  lemma {:induction false} AttachAllKeepsIdentities(cs: seq<ChassisRecord>, rows: seq<Row>)
    ensures SameIdentities(AttachAll(cs, rows), cs)
    decreases |rows|
  {
    if rows != [] {
      AttachAllKeepsIdentities(cs, rows[..|rows| - 1]);
      var prev := AttachAll(cs, rows[..|rows| - 1]);
      match EncapOf(rows[|rows| - 1])
      case None =>
      case Some(e) => AttachUpdatesFirstMatchOnly(prev, e);
    }
  }

  /** A chassis that no Encap row reaches as its first match keeps its record. */
  lemma {:induction false} UntargetedChassisUnchanged(cs: seq<ChassisRecord>, rows: seq<Row>, k: nat)
    requires k < |cs|
    requires forall j :: 0 <= j < |rows| && EncapOf(rows[j]).Some? ==> FirstMatch(cs, EncapOf(rows[j]).value) != k
    ensures |AttachAll(cs, rows)| == |cs| && AttachAll(cs, rows)[k] == cs[k]
    decreases |rows|
  {
    AttachAllKeepsIdentities(cs, rows);
    if rows != [] {
      var init := rows[..|rows| - 1];
      UntargetedChassisUnchanged(cs, init, k);
      var prev := AttachAll(cs, init);
      AttachAllKeepsIdentities(cs, init);
      match EncapOf(rows[|rows| - 1])
      case None =>
      case Some(e) =>
        FirstMatchByIdentity(prev, cs, e);
        AttachUpdatesFirstMatchOnly(prev, e);
    }
  }

  /** A chassis listed after another with the same encapsulation UUID and name is never
      updated: only the first match takes an encapsulation. */
  lemma ShadowedChassisUnchanged(cs: seq<ChassisRecord>, rows: seq<Row>, i: nat, k: nat)
    requires i < k < |cs|
    requires cs[i].encapsUuid == cs[k].encapsUuid && cs[i].name == cs[k].name
    ensures |AttachAll(cs, rows)| == |cs| && AttachAll(cs, rows)[k] == cs[k]
  {
    forall j | 0 <= j < |rows| && EncapOf(rows[j]).Some?
      ensures FirstMatch(cs, EncapOf(rows[j]).value) != k
    {
      var e := EncapOf(rows[j]).value;
      if Matches(cs[k], e) {
        assert Matches(cs[i], e);
      }
    }
    UntargetedChassisUnchanged(cs, rows, k);
  }

  /** When several Encap rows reach the same chassis, the last one processed wins. */
  lemma {:induction false} LastEncapWins(cs: seq<ChassisRecord>, rows: seq<Row>, j: nat, k: nat)
    requires j < |rows| && EncapOf(rows[j]).Some?
    requires k < |cs| && FirstMatch(cs, EncapOf(rows[j]).value) == k
    requires forall m :: j < m < |rows| && EncapOf(rows[m]).Some? ==> FirstMatch(cs, EncapOf(rows[m]).value) != k
    ensures |AttachAll(cs, rows)| == |cs|
    ensures AttachAll(cs, rows)[k]
         == cs[k].(ipAddress := EncapOf(rows[j]).value.ip, encapsProto := EncapOf(rows[j]).value.proto)
    decreases |rows|
  {
    AttachAllKeepsIdentities(cs, rows);
    var init := rows[..|rows| - 1];
    var prev := AttachAll(cs, init);
    AttachAllKeepsIdentities(cs, init);
    var e := EncapOf(rows[|rows| - 1]);
    if j == |rows| - 1 {
      FirstMatchByIdentity(prev, cs, e.value);
      AttachUpdatesFirstMatchOnly(prev, e.value);
      assert SameIdentity(prev[k], cs[k]);
    } else {
      LastEncapWins(cs, init, j, k);
      match e
      case None =>
      case Some(e') =>
        FirstMatchByIdentity(prev, cs, e');
        AttachUpdatesFirstMatchOnly(prev, e');
    }
  }

  /** The first loop of GetChassis: one fresh chassis per well-formed row, in row order. */
  method CollectChassis(rows: seq<Row>) returns (cs: seq<Chassis>)
    ensures Views(cs) == FilterMap(rows, ChassisOf)
    ensures Distinct(cs) && forall i :: 0 <= i < |cs| ==> fresh(cs[i])
  {
    cs := [];
    for i := 0 to |rows|
      invariant Views(cs) == FilterMap(rows[..i], ChassisOf)
      invariant Distinct(cs) && forall m :: 0 <= m < |cs| ==> fresh(cs[m])
    {
      FilterMapSnoc(rows, i, ChassisOf);
      var row := rows[i];
      if "_uuid" !in row || !row["_uuid"].Str? {
        continue;
      }
      if "name" !in row || !row["name"].Str? {
        continue;
      }
      if "encaps" !in row || !row["encaps"].Str? {
        continue;
      }
      var c := new Chassis(row["_uuid"].s, row["name"].s, row["encaps"].s);
      cs := cs + [c];
    }
    assert rows[..|rows|] == rows;
  }

  /** The inner loop of GetChassis: update the first matching chassis, then stop. */
  method AttachEncap(cs: seq<Chassis>, e: Encap)
    requires Distinct(cs)
    modifies cs
    ensures Views(cs) == Attach(old(Views(cs)), e)
  {
    ghost var before := Views(cs);
    for j := 0 to |cs|
      invariant Views(cs) == before
      invariant forall m :: 0 <= m < j ==> !Matches(before[m], e)
    {
      var c := cs[j];
      if c.encapsUuid != e.uuid {
        continue;
      }
      if c.name != e.chassisName {
        continue;
      }
      assert before[j] == c.View();
      assert FirstMatch(before, e) == j;
      c.ipAddress := e.ip;
      c.encapsProto := e.proto;
      assert forall m :: 0 <= m < |cs| && m != j ==> cs[m] != c;
      assert Views(cs) == before[j := before[j].(ipAddress := e.ip, encapsProto := e.proto)];
      return;
    }
  }

  /** The outer loop of GetChassis over the Encap rows. */
  method AttachEncaps(cs: seq<Chassis>, rows: seq<Row>)
    requires Distinct(cs)
    modifies cs
    ensures Views(cs) == AttachAll(old(Views(cs)), rows)
  {
    ghost var start := Views(cs);
    for i := 0 to |rows|
      invariant Views(cs) == AttachAll(start, rows[..i])
    {
      assert rows[..i + 1][..i] == rows[..i];
      var row := rows[i];
      if "_uuid" !in row || !row["_uuid"].Str? {
        continue;
      }
      if "type" !in row || !row["type"].Str? {
        continue;
      }
      if "chassis_name" !in row || !row["chassis_name"].Str? {
        continue;
      }
      if "ip" !in row || !row["ip"].Str? {
        continue;
      }
      var e := Encap(row["_uuid"].s, row["type"].s, row["chassis_name"].s, row["ip"].s);
      assert EncapOf(row) == Some(e);
      AttachEncap(cs, e);
    }
    assert rows[..|rows|] == rows;
  }

  /** GetChassis over the results of the Chassis query and of the Encap query. */
  method GetChassis(chassisResult: Result<seq<Row>, Error>, encapResult: Result<seq<Row>, Error>)
    returns (r: Result<seq<Chassis>, Error>)
    ensures chassisResult.Failure? ==> r == Failure(QueryFailed("Chassis"))
    ensures chassisResult.Success? && chassisResult.value == [] ==> r == Failure(NothingFound("chassis"))
    ensures chassisResult.Success? && chassisResult.value != [] ==>
              && (encapResult.Failure? ==> r == Failure(QueryFailed("Encap")))
              && (encapResult.Success? && encapResult.value == [] ==> r == Failure(NothingFound("chassis")))
    ensures chassisResult.Success? && chassisResult.value != [] && encapResult.Success? && encapResult.value != [] ==>
              && r.Success?
              && Views(r.value) == AttachAll(FilterMap(chassisResult.value, ChassisOf), encapResult.value)
              && Distinct(r.value) && forall i :: 0 <= i < |r.value| ==> fresh(r.value[i])
  {
    if chassisResult.Failure? {
      return Failure(QueryFailed("Chassis"));
    }
    if |chassisResult.value| == 0 {
      return Failure(NothingFound("chassis"));
    }
    var cs := CollectChassis(chassisResult.value);
    if encapResult.Failure? {
      return Failure(QueryFailed("Encap"));
    }
    if |encapResult.value| == 0 {
      return Failure(NothingFound("chassis"));
    }
    AttachEncaps(cs, encapResult.value);
    return Success(cs);
  }
}
