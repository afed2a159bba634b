/** system.go: the system identity of an Open vSwitch host, read from the system-id file and
    checked against the Open_vSwitch table. */
module System {
  import opened Wrappers
  import opened Rows
  import opened Strings

  /** The length in bytes a system-id must have (a UUID in its 36-character text form). */
  const IdLength: nat := 36

  /** The columns GetSystemInfo copies on top of `external_ids`, in the order it copies them. */
  const VersionColumns: seq<string> := ["ovs_version", "db_version", "system_type", "system_version"]

  /** The keys that must be present once the columns are copied, in the order they are checked. */
  const RequiredKeys: seq<string> := ["rundir", "hostname", "ovs_version", "db_version", "system_type", "system_version"]

  /** The fields of the client that these operations write. */
  datatype SystemFacts = SystemFacts(
    id: string, runDir: string, hostname: string, systemType: string, systemVersion: string,
    vswitchVersion: string, schemaVersion: string)

  /** The parts of OvnClient (System and Database.Vswitch) that GetSystemID and GetSystemInfo
      update in place. */
  class OvnClient {
    var systemId: string
    var runDir: string
    var hostname: string
    var systemType: string
    var systemVersion: string
    var vswitchVersion: string
    var schemaVersion: string

    function View(): SystemFacts
      reads this
    {
      SystemFacts(systemId, runDir, hostname, systemType, systemVersion, vswitchVersion, schemaVersion)
    }

    constructor ()
      ensures View() == SystemFacts("", "", "", "", "", "", "")
    {
      systemId, runDir, hostname, systemType, systemVersion := "", "", "", "", "";
      vswitchVersion, schemaVersion := "", "";
    }

    /** GetSystemID. `firstLine` is what reading the system-id file gives: its first line
        ("" for an empty file), or None when the file cannot be opened or read. Only an id
        of exactly 36 bytes in UTF-8 is stored; otherwise nothing changes. */
    method GetSystemId(firstLine: Option<string>) returns (err: Option<Error>)
      modifies this
      ensures IdFromFile(firstLine).Success? ==>
                err == None && View() == old(View()).(id := IdFromFile(firstLine).value)
      ensures IdFromFile(firstLine).Failure? ==>
                err == Some(IdFromFile(firstLine).error) && View() == old(View())
    {
      if firstLine.None? {
        return Some(IdFileUnreadable);
      }
      var id := firstLine.value;
      if Utf8Length(id) != IdLength {
        return Some(BadIdLength(Utf8Length(id)));
      }
      systemId := id;
      return None;
    }

    /** GetSystemInfo against the table `dbName`, given the system-id file and the outcome of
        "SELECT ovs_version, db_version, system_type, system_version, external_ids". The id
        from the file is stored before the query is looked at, so it stays stored when a
        later check fails; the other six fields change only when every check passes. */
    method GetSystemInfo(firstLine: Option<string>, dbName: string, query: Result<seq<Row>, Error>)
      returns (err: Option<Error>)
      modifies this
      ensures IdFromFile(firstLine).Failure? ==>
                err == Some(IdFromFile(firstLine).error) && View() == old(View())
      ensures IdFromFile(firstLine).Success? ==>
                var id := IdFromFile(firstLine).value;
                match SystemInfo(id, dbName, query)
                case Failure(e) => err == Some(e) && View() == old(View()).(id := id)
                case Success(info) =>
                  && err == None
                  && View() == SystemFacts(info["system-id"], info["rundir"], info["hostname"],
                                           info["system_type"], info["system_version"],
                                           info["ovs_version"], info["db_version"])
    {
      if firstLine.None? {
        return Some(IdFileUnreadable);
      }
      var id := firstLine.value;
      if Utf8Length(id) != IdLength {
        return Some(BadIdLength(Utf8Length(id)));
      }
      systemId := id;
      var r := ReadSystemInfo(id, dbName, query);
      if r.Failure? {
        return Some(r.error);
      }
      var info := r.value;
      systemId, runDir, hostname := info["system-id"], info["rundir"], info["hostname"];
      systemType, systemVersion := info["system_type"], info["system_version"];
      vswitchVersion, schemaVersion := info["ovs_version"], info["db_version"];
      err := None;
    }
  }

  /** The part of GetSystemInfo after the id is stored: the first row's map, overlaid and
      checked. */
  method ReadSystemInfo(id: string, dbName: string, query: Result<seq<Row>, Error>)
    returns (r: Result<map<string, string>, Error>)
    ensures r == SystemInfo(id, dbName, query)
  {
    if query.Failure? {
      return Failure(QueryFailed(dbName));
    }
    var rows := query.value;
    if |rows| == 0 {
      return Failure(NothingFound(dbName));
    }
    // only the first row is looked at
    var row := rows[0];
    if "external_ids" !in row {
      return Failure(ColumnParseFailed("external_ids"));
    }
    if !row["external_ids"].StrMap? {
      return Failure(UnexpectedType("external_ids"));
    }
    var merged := OverlayVersions(row, row["external_ids"].m);
    if merged.Failure? {
      return merged;
    }
    var info := merged.value;
    if "system-id" !in info {
      return Failure(SystemIdMissing);
    }
    if info["system-id"] != id {
      return Failure(SystemIdMismatch(info["system-id"], id));
    }
    var missing := CheckRequiredKeys(info);
    if missing.Some? {
      return Failure(missing.value);
    }
    return Success(info);
  }

  /** The id the system-id file yields: its first line when that is exactly 36 bytes long in
      UTF-8 (Go's len counts bytes), so between 9 and 36 characters. */
  function IdFromFile(firstLine: Option<string>): (r: Result<string, Error>)
    ensures firstLine.None? ==> r == Failure(IdFileUnreadable)
    ensures firstLine.Some? ==> (r.Success? <==> Utf8Length(firstLine.value) == IdLength)
    ensures r.Success? ==> r.value == firstLine.value && 9 <= |r.value| <= IdLength
    ensures firstLine.Some? && r.Failure? ==> r.error == BadIdLength(Utf8Length(firstLine.value))
  {
    match firstLine
    case None => Failure(IdFileUnreadable)
    case Some(line) =>
      if Utf8Length(line) == IdLength then Success(line) else Failure(BadIdLength(Utf8Length(line)))
  }

  /** A UUID in text form is ASCII, so for it the byte count is the character count; other
      text is measured in bytes: 18 copies of U+00E9 make an id, 36 copies are 72 bytes. */
  lemma IdLengthCountsBytes(line: string)
    ensures (forall i :: 0 <= i < |line| ==> line[i] as int < 0x80) ==>
              (IdFromFile(Some(line)).Success? <==> |line| == IdLength)
    ensures IdFromFile(Some(seq(18, _ => '\U{00E9}'))) == Success(seq(18, _ => '\U{00E9}'))
    ensures IdFromFile(Some(seq(36, _ => '\U{00E9}'))) == Failure(BadIdLength(72))
  {
    Utf8LengthRepeat('\U{00E9}', 18);
    Utf8LengthRepeat('\U{00E9}', 36);
  }

  /** The inner loop of GetSystemInfo as a specification: each column in turn must decode as a
      "string" and is then written into the map; the first column that does not stops it. */
  function Overlay(row: Row, info: map<string, string>, columns: seq<string>): Result<map<string, string>, Error>
    decreases |columns|
  {
    if columns == [] then Success(info)
    else
      var col := columns[0];
      if col !in row then Failure(ColumnParseFailed(col))
      else if !row[col].Str? then Failure(UnexpectedType(col))
      else Overlay(row, info[col := row[col].s], columns[1..])
  }

  /** The columns all decode as "string". */
  predicate AllStrings(row: Row, columns: seq<string>) {
    forall i :: 0 <= i < |columns| ==> columns[i] in row && row[columns[i]].Str?
  }

  /** The overlay succeeds exactly when every column decodes as a "string"; it then gives
      the map with each column set to its row value and every other key as it was. */
  lemma {:induction false} OverlaySucceeds(row: Row, info: map<string, string>, columns: seq<string>)
    decreases |columns|
    ensures Overlay(row, info, columns).Success? <==> AllStrings(row, columns)
    ensures Overlay(row, info, columns).Success? ==>
              var m := Overlay(row, info, columns).value;
              && (forall k :: k in m <==> k in info || k in columns)
              && (forall c :: c in columns ==> m[c] == row[c].s)
              && (forall k :: k in info && k !in columns ==> m[k] == info[k])
  {
    if columns != [] {
      var col := columns[0];
      if col in row && row[col].Str? {
        var next := info[col := row[col].s];
        OverlaySucceeds(row, next, columns[1..]);
        if AllStrings(row, columns[1..]) {
          var m := Overlay(row, next, columns[1..]).value;
          assert forall c :: c in columns <==> c == col || c in columns[1..];
          forall c | c in columns ensures m[c] == row[c].s {
            if c !in columns[1..] {
              assert c == col;
            }
          }
        } else {
          var i :| 0 <= i < |columns[1..]| && !(columns[1..][i] in row && row[columns[1..][i]].Str?);
          assert columns[i + 1] == columns[1..][i];
        }
      } else {
        assert !(columns[0] in row && row[columns[0]].Str?);
      }
    }
  }

  /** When the overlay fails, it names the first column that did not decode as a "string":
      with ColumnParseFailed when the lookup failed, UnexpectedType when the tag was wrong. */
  lemma {:induction false} OverlayFailsAtFirstBadColumn(row: Row, info: map<string, string>, columns: seq<string>)
    requires Overlay(row, info, columns).Failure?
    decreases |columns|
    ensures exists i :: 0 <= i < |columns| && AllStrings(row, columns[..i])
              && Overlay(row, info, columns).error
                 == (if columns[i] !in row then ColumnParseFailed(columns[i]) else UnexpectedType(columns[i]))
              && !(columns[i] in row && row[columns[i]].Str?)
  {
    var col := columns[0];
    if col !in row || !row[col].Str? {
      assert AllStrings(row, columns[..0]);
    } else {
      OverlayFailsAtFirstBadColumn(row, info[col := row[col].s], columns[1..]);
      var i :| 0 <= i < |columns[1..]| && AllStrings(row, columns[1..][..i])
              && Overlay(row, info[col := row[col].s], columns[1..]).error
                 == (if columns[1..][i] !in row then ColumnParseFailed(columns[1..][i]) else UnexpectedType(columns[1..][i]))
              && !(columns[1..][i] in row && row[columns[1..][i]].Str?);
      assert columns[1..][i] == columns[i + 1];
      assert columns[..i + 1] == [col] + columns[1..][..i];
    }
  }

  /** The loop over VersionColumns, writing each into the map. */
  method OverlayVersions(row: Row, info: map<string, string>) returns (r: Result<map<string, string>, Error>)
    ensures r == Overlay(row, info, VersionColumns)
  {
    var m := info;
    for i := 0 to |VersionColumns|
      invariant Overlay(row, info, VersionColumns) == Overlay(row, m, VersionColumns[i..])
    {
      var col := VersionColumns[i];
      assert VersionColumns[i..][1..] == VersionColumns[i + 1..];
      if col !in row {
        return Failure(ColumnParseFailed(col));
      }
      if !row[col].Str? {
        return Failure(UnexpectedType(col));
      }
      m := m[col := row[col].s];
    }
    return Success(m);
  }

  /** The position of the first key that is missing from the map, or |keys|. */
  function FirstMissing(info: map<string, string>, keys: seq<string>): (k: nat)
    ensures k <= |keys|
    ensures forall j :: 0 <= j < k ==> keys[j] in info
    ensures k < |keys| ==> keys[k] !in info
  {
    if keys == [] || keys[0] !in info then 0 else 1 + FirstMissing(info, keys[1..])
  }

  /** The loop over RequiredKeys: the first missing key is reported. */
  method CheckRequiredKeys(info: map<string, string>) returns (err: Option<Error>)
    ensures err.None? <==> forall k :: k in RequiredKeys ==> k in info
    ensures err.Some? ==> err == Some(KeyMissing(RequiredKeys[FirstMissing(info, RequiredKeys)]))
  {
    for i := 0 to |RequiredKeys|
      invariant forall j :: 0 <= j < i ==> RequiredKeys[j] in info
    {
      var key := RequiredKeys[i];
      if key !in info {
        assert FirstMissing(info, RequiredKeys) == i;
        return Some(KeyMissing(key));
      }
    }
    return None;
  }

  /** Every required key is present. */
  predicate Complete(info: map<string, string>) {
    && "rundir" in info && "hostname" in info && "ovs_version" in info && "db_version" in info
    && "system_type" in info && "system_version" in info
  }

  lemma CompleteIsAllRequired(info: map<string, string>)
    ensures Complete(info) <==> forall k :: k in RequiredKeys ==> k in info
  {
  }

  /** The checks made on the merged map: a "system-id" that agrees with the file, then every
      required key. */
  function Validate(fileId: string, info: map<string, string>): (r: Option<Error>)
    ensures r.None? <==>
              "system-id" in info && info["system-id"] == fileId && Complete(info)
    ensures r == Some(SystemIdMissing) <==> "system-id" !in info
    ensures (exists db :: r == Some(SystemIdMismatch(db, fileId))) <==> "system-id" in info && info["system-id"] != fileId
  {
    CompleteIsAllRequired(info);
    if "system-id" !in info then Some(SystemIdMissing)
    else if info["system-id"] != fileId then Some(SystemIdMismatch(info["system-id"], fileId))
    else
      var k := FirstMissing(info, RequiredKeys);
      if k < |RequiredKeys| then Some(KeyMissing(RequiredKeys[k])) else None
  }

  /** The map the first row gives: its "map[string]string" `external_ids` with the version
      columns written over it. */
  function InfoFromRow(row: Row): Result<map<string, string>, Error> {
    if "external_ids" !in row then Failure(ColumnParseFailed("external_ids"))
    else match row["external_ids"]
      case StrMap(m) => Overlay(row, m, VersionColumns)
      case _ => Failure(UnexpectedType("external_ids"))
  }

  /** What GetSystemInfo concludes once it holds the file id: the validated map, or the
      first error met. */
  function SystemInfo(fileId: string, dbName: string, query: Result<seq<Row>, Error>)
    : (r: Result<map<string, string>, Error>)
    ensures r.Success? ==> "system-id" in r.value && r.value["system-id"] == fileId && Complete(r.value)
  {
    match query
    case Failure(_) => Failure(QueryFailed(dbName))
    case Success(rows) =>
      if rows == [] then Failure(NothingFound(dbName))
      else match InfoFromRow(rows[0])
        case Failure(e) => Failure(e)
        case Success(info) =>
          match Validate(fileId, info)
          case Some(e) => Failure(e)
          case None => Success(info)
  }

  /** GetSystemInfo succeeds exactly when there is a first row whose `external_ids` is a
      "map[string]string" and whose version columns are strings, and the merged map carries
      the file's id, a "rundir" and a "hostname". The four version columns are then taken
      from the row, and the id agrees with the file. */
  lemma SystemInfoSucceeds(fileId: string, dbName: string, query: Result<seq<Row>, Error>)
    ensures SystemInfo(fileId, dbName, query).Success? <==>
              && query.Success? && query.value != []
              && var row := query.value[0];
              && "external_ids" in row && row["external_ids"].StrMap?
              && AllStrings(row, VersionColumns)
              && var ids := row["external_ids"].m;
              && "system-id" in ids && ids["system-id"] == fileId
              && "rundir" in ids && "hostname" in ids
    ensures SystemInfo(fileId, dbName, query).Success? ==>
              var info := SystemInfo(fileId, dbName, query).value;
              var row := query.value[0];
              && info["system-id"] == fileId
              && forall c :: c in VersionColumns ==> info[c] == row[c].s
  {
    if query.Success? && query.value != [] {
      var row := query.value[0];
      if "external_ids" in row && row["external_ids"].StrMap? {
        var ids := row["external_ids"].m;
        OverlaySucceeds(row, ids, VersionColumns);
        if AllStrings(row, VersionColumns) {
          RequiredAfterOverlay(row, ids);
        }
      }
    }
  }

  /** After a successful overlay the version keys are present, "system-id", "rundir" and
      "hostname" are as `external_ids` had them, so the required keys are all there exactly
      when `external_ids` had "rundir" and "hostname". */
  lemma RequiredAfterOverlay(row: Row, ids: map<string, string>)
    requires AllStrings(row, VersionColumns)
    ensures Overlay(row, ids, VersionColumns).Success?
    ensures var info := Overlay(row, ids, VersionColumns).value;
            && ("system-id" in info <==> "system-id" in ids)
            && ("system-id" in ids ==> info["system-id"] == ids["system-id"])
            && (Complete(info) <==> "rundir" in ids && "hostname" in ids)
  {
    OverlaySucceeds(row, ids, VersionColumns);
    var info := Overlay(row, ids, VersionColumns).value;
    assert "system-id" !in VersionColumns && "rundir" !in VersionColumns && "hostname" !in VersionColumns;
    assert "ovs_version" in VersionColumns && "db_version" in VersionColumns;
    assert "system_type" in VersionColumns && "system_version" in VersionColumns;
  }

  /** The version keys cannot be missing after a successful overlay, so the required-key
      check can only fail on "rundir" or "hostname". */
  lemma OnlyRunDirOrHostnameCanBeMissing(fileId: string, row: Row, key: string)
    requires InfoFromRow(row).Success?
    requires Validate(fileId, InfoFromRow(row).value) == Some(KeyMissing(key))
    ensures key == "rundir" || key == "hostname"
  {
    var ids := row["external_ids"].m;
    OverlaySucceeds(row, ids, VersionColumns);
    var info := InfoFromRow(row).value;
    var k := FirstMissing(info, RequiredKeys);
    assert RequiredKeys[k] == key;
    assert key !in info;
    assert key !in VersionColumns;
  }

  /** Rows after the first are never looked at. */
  lemma OnlyFirstRowCounts(fileId: string, dbName: string, row: Row, rest: seq<Row>)
    ensures SystemInfo(fileId, dbName, Success([row] + rest)) == SystemInfo(fileId, dbName, Success([row]))
  {
  }
}
