/** Query result rows as the OVN helpers see them: each column decodes, through
    `GetColumnValue`, to a value and a type tag, or fails. The decoder itself is not
    part of this model; a row is given as the outcome of that decoding per column. */
module Rows {
  import opened Wrappers

  /** Go's int64. */
  type Int64 = i: int | -0x8000_0000_0000_0000 <= i < 0x8000_0000_0000_0000

  /** A decoded column value; the constructor is its type tag:
      "string", "integer", "bool", "[]string", "map[string]string", or any other tag. */
  datatype Cell =
    | Str(s: string)
    | Integer(i: Int64)
    | Boolean(b: bool)
    | StrList(list: seq<string>)
    | StrMap(m: map<string, string>)
    | OtherTag(tag: OtherTagName)

  /** A type tag other than the five that have their own Cell constructor. */
  type OtherTagName = t: string | t !in {"string", "integer", "bool", "[]string", "map[string]string"}
    witness "[]int"

  /** A result row: a column that `GetColumnValue` fails on is absent from the map. */
  type Row = map<string, Cell>

  /** The column's value when it decodes with tag "string", otherwise nothing. */
  function StringColumn(row: Row, column: string): (r: Option<string>)
    ensures r.Some? <==> column in row && row[column].Str?
    ensures r.Some? ==> row[column] == Str(r.value)
  {
    if column in row && row[column].Str? then Some(row[column].s) else None
  }

  /** The column's value when it decodes with tag "integer", otherwise nothing. */
  function IntegerColumn(row: Row, column: string): (r: Option<Int64>)
    ensures r.Some? <==> column in row && row[column].Integer?
    ensures r.Some? ==> row[column] == Integer(r.value)
  {
    if column in row && row[column].Integer? then Some(row[column].i) else None
  }

  /** The `external_ids` handling shared by ACLs and logical switch ports: a failed lookup
      gives an empty map, a "map[string]string" value is taken as it is, and any other tag
      leaves the Go map nil (None). */
  function ExternalIds(row: Row): (r: Option<map<string, string>>)
    ensures "external_ids" !in row ==> r == Some(map[])
    ensures r.Some? && "external_ids" in row ==> row["external_ids"] == StrMap(r.value)
    ensures r.None? <==> "external_ids" in row && !row["external_ids"].StrMap?
  {
    if "external_ids" !in row then Some(map[])
    else match row["external_ids"]
      case StrMap(m) => Some(m)
      case _ => None
  }

  /** uint64(x) for an int64 x: two's complement reinterpretation. */
  function Uint64(x: Int64): (r: nat)
    ensures r < 0x1_0000_0000_0000_0000
    ensures (r - x) % 0x1_0000_0000_0000_0000 == 0
    ensures x >= 0 ==> r == x
  {
    if x < 0 then x + 0x1_0000_0000_0000_0000 else x
  }

  /** The loop shape `for _, row := range rows { ...; if bad { continue }; out = append(out, v) }`:
      keep the rows that map to a value, in order. */
  function FilterMap<A, B>(xs: seq<A>, f: A -> Option<B>): (ys: seq<B>)
    ensures |ys| <= |xs|
  {
    if xs == [] then []
    else (match f(xs[0]) case Some(y) => [y] case None => []) + FilterMap(xs[1..], f)
  }

  /** FilterMap works piecewise, so it keeps the input order. */
  lemma {:induction false} FilterMapAppend<A, B>(xs: seq<A>, zs: seq<A>, f: A -> Option<B>)
    ensures FilterMap(xs + zs, f) == FilterMap(xs, f) + FilterMap(zs, f)
  {
    if xs != [] {
      assert (xs + zs)[1..] == xs[1..] + zs;
      FilterMapAppend(xs[1..], zs, f);
    } else {
      assert xs + zs == zs;
    }
  }

  /** One more row at the end of a prefix adds at most its own value at the end. */
  lemma FilterMapSnoc<A, B>(xs: seq<A>, i: nat, f: A -> Option<B>)
    requires i < |xs|
    ensures FilterMap(xs[..i + 1], f)
         == FilterMap(xs[..i], f) + (match f(xs[i]) case Some(y) => [y] case None => [])
  {
    assert xs[..i + 1] == xs[..i] + [xs[i]];
    FilterMapAppend(xs[..i], [xs[i]], f);
  }

  /** Exactly the values of the kept rows appear in the output. */
  lemma {:induction false} FilterMapMembers<A, B>(xs: seq<A>, f: A -> Option<B>)
    ensures forall i :: 0 <= i < |xs| && f(xs[i]).Some? ==> f(xs[i]).value in FilterMap(xs, f)
    ensures forall y :: y in FilterMap(xs, f) ==> exists i :: 0 <= i < |xs| && f(xs[i]) == Some(y)
  {
    if xs != [] {
      FilterMapMembers(xs[1..], f);
      forall y | y in FilterMap(xs, f) ensures exists i :: 0 <= i < |xs| && f(xs[i]) == Some(y) {
        if y !in FilterMap(xs[1..], f) {
          assert f(xs[0]) == Some(y);
        } else {
          var i :| 0 <= i < |xs[1..]| && f(xs[1..][i]) == Some(y);
          assert f(xs[i + 1]) == Some(y);
        }
      }
      forall i | 0 <= i < |xs| && f(xs[i]).Some? ensures f(xs[i]).value in FilterMap(xs, f) {
        if i > 0 {
          assert xs[i] == xs[1..][i - 1];
        }
      }
    }
  }

  /** When every row is kept, the output has one value per row. */
  lemma {:induction false} FilterMapAllKept<A, B>(xs: seq<A>, f: A -> Option<B>)
    requires forall i :: 0 <= i < |xs| ==> f(xs[i]).Some?
    ensures |FilterMap(xs, f)| == |xs|
    ensures forall i :: 0 <= i < |xs| ==> FilterMap(xs, f)[i] == f(xs[i]).value
  {
    if xs != [] {
      FilterMapAllKept(xs[1..], f);
    }
  }
}
