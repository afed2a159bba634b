/** ovn_acl.go: listing the ACL table of the OVN northbound database. */
module OvnAcl {
  import opened Wrappers
  import opened Rows

  /** OvnACL. `externalIds == None` is a nil Go map. */
  datatype Acl = Acl(uuid: string, externalIds: Option<map<string, string>>)

  /** The record a row yields: rows whose `_uuid` does not decode as "string" are dropped. */
  function AclOf(row: Row): Option<Acl> {
    match StringColumn(row, "_uuid")
    case None => None
    case Some(uuid) => Some(Acl(uuid, ExternalIds(row)))
  }

  /** GetACL over the rows of "SELECT _uuid, external_ids FROM ACL". */
  method GetAcl(result: Result<seq<Row>, Error>) returns (r: Result<seq<Acl>, Error>)
    ensures result.Failure? ==> r == Failure(QueryFailed("ACL"))
    ensures result.Success? && result.value == [] ==> r == Failure(NothingFound("acl"))
    ensures result.Success? && result.value != [] ==> r == Success(FilterMap(result.value, AclOf))
  {
    if result.Failure? {
      return Failure(QueryFailed("ACL"));
    }
    var rows := result.value;
    if |rows| == 0 {
      return Failure(NothingFound("acl"));
    }
    var acls: seq<Acl> := [];
    for i := 0 to |rows|
      invariant acls == FilterMap(rows[..i], AclOf)
    {
      FilterMapSnoc(rows, i, AclOf);
      var row := rows[i];
      if "_uuid" !in row {
        continue;
      }
      if !row["_uuid"].Str? {
        continue;
      }
      var acl := Acl(row["_uuid"].s, None);
      if "external_ids" !in row {
        acl := acl.(externalIds := Some(map[]));
      } else if row["external_ids"].StrMap? {
        acl := acl.(externalIds := Some(row["external_ids"].m));
      }
      acls := acls + [acl];
    }
    assert rows[..|rows|] == rows;
    return Success(acls);
  }

  /** Every listed ACL comes from a row whose `_uuid` is a string, with that row's external
      ids; every such row is listed; and no more ACLs are listed than there are rows. */
  lemma AclsComeFromRows(rows: seq<Row>)
    ensures |FilterMap(rows, AclOf)| <= |rows|
    ensures forall a :: a in FilterMap(rows, AclOf) ==>
              exists i :: 0 <= i < |rows| && StringColumn(rows[i], "_uuid") == Some(a.uuid)
                                          && a.externalIds == ExternalIds(rows[i])
    ensures forall i :: 0 <= i < |rows| && StringColumn(rows[i], "_uuid").Some? ==>
              Acl(StringColumn(rows[i], "_uuid").value, ExternalIds(rows[i])) in FilterMap(rows, AclOf)
  {
    FilterMapMembers(rows, AclOf);
  }

  function Uuids(acls: seq<Acl>): seq<string> {
    seq(|acls|, i requires 0 <= i < |acls| => acls[i].uuid)
  }

  /** The listed UUIDs are exactly the string `_uuid` values of the rows, in row order. */
  lemma {:induction false} AclUuidsInRowOrder(rows: seq<Row>)
    ensures Uuids(FilterMap(rows, AclOf)) == FilterMap(rows, (row: Row) => StringColumn(row, "_uuid"))
  {
    if rows != [] {
      AclUuidsInRowOrder(rows[1..]);
      var tail := FilterMap(rows[1..], AclOf);
      match AclOf(rows[0])
      case None =>
      case Some(a) =>
        assert FilterMap(rows, AclOf) == [a] + tail;
        assert Uuids([a] + tail) == [a.uuid] + Uuids(tail);
    }
  }
}
