/** app_list_cmd.go: the commands an ovsdb-server answers to "list-commands" over its
    ovs-appctl control socket. */
module AppListCmd {
  import opened Wrappers
  import opened Strings

  const NorthboundServer: string := "ovsdb-server-northbound"
  const SouthboundServer: string := "ovsdb-server-southbound"
  const ListCommands: string := "list-commands"

  /** The line separator: a backslash followed by the letter n (two characters), which is
      how the reply text carries its line breaks. */
  const LineBreak: string := ['\\', 'n']

  /** A connected ovs-appctl client. Its answer to a query is fixed when it is connected;
      it records the queries sent and how many times it was closed. */
  class ControlChannel {
    const reply: Result<string, Error>
    var queries: seq<string>
    var closeCount: nat

    constructor (reply: Result<string, Error>)
      ensures this.reply == reply && queries == [] && closeCount == 0
    {
      this.reply := reply;
      queries := [];
      closeCount := 0;
    }

    /** app.query(cmd, nil): the reply text, or the error the server or socket gave. */
    method Query(cmd: string) returns (r: Result<string, Error>)
      modifies this
      ensures r == reply
      ensures queries == old(queries) + [cmd] && closeCount == old(closeCount)
    {
      queries := queries + [cmd];
      r := reply;
    }

    /** app.Close(). */
    method Close()
      modifies this
      ensures closeCount == old(closeCount) + 1 && queries == old(queries)
    {
      closeCount := closeCount + 1;
    }
  }

  /** The keys a list of reply lines contributes: every line that starts with a space,
      with its white-space-separated words joined by single spaces. */
  ghost function CommandKeys(lines: seq<string>): set<string> {
    set l | l in lines && HasPrefix(l, " ") :: Normalize(l)
  }

  /** One line more adds its key, if it has one, and nothing else. */
  lemma CommandKeysSnoc(lines: seq<string>, l: string)
    ensures CommandKeys(lines + [l]) == CommandKeys(lines) + (if HasPrefix(l, " ") then {Normalize(l)} else {})
  {
    var lhs := CommandKeys(lines + [l]);
    var rhs := CommandKeys(lines) + (if HasPrefix(l, " ") then {Normalize(l)} else {});
    forall k | k in lhs ensures k in rhs {
      var m :| m in lines + [l] && HasPrefix(m, " ") && Normalize(m) == k;
      if m != l {
        assert m in lines;
      }
    }
    forall k | k in rhs ensures k in lhs {
      if k in CommandKeys(lines) {
        var m :| m in lines && HasPrefix(m, " ") && Normalize(m) == k;
        assert m in lines + [l];
      } else {
        assert l in lines + [l];
      }
    }
  }

  /** The loop at the end of AppListCommands: every line starting with a space sets its
      normalised form to true in the map. */
  method CollectCommands(lines: seq<string>) returns (cmds: map<string, bool>)
    ensures cmds.Keys == CommandKeys(lines)
    ensures forall k :: k in cmds ==> cmds[k]
  {
    cmds := map[];
    for i := 0 to |lines|
      invariant cmds.Keys == CommandKeys(lines[..i])
      invariant forall k :: k in cmds ==> cmds[k]
    {
      assert lines[..i + 1] == lines[..i] + [lines[i]];
      CommandKeysSnoc(lines[..i], lines[i]);
      var line := lines[i];
      if !HasPrefix(line, " ") {
        continue;
      }
      cmds := cmds[Join(Fields(line), " ") := true];
    }
    assert lines[..|lines|] == lines;
  }

  /** AppListCommands. `northbound` and `southbound` are what connecting to the control
      socket of each server gives (a client or the dial error). An unsupported database is
      refused before either is touched; a failed connection is reported; a connected client
      is queried once and closed once, whether the query fails or not; an empty reply is an
      error; otherwise the reply is split into lines on LineBreak and the lines are collected. */
  method AppListCommands(db: string, northbound: Result<ControlChannel, Error>, southbound: Result<ControlChannel, Error>)
    returns (cmds: map<string, bool>, err: Option<Error>)
    requires northbound.Success? && southbound.Success? ==> northbound.value != southbound.value
    modifies if northbound.Success? then {northbound.value} else {}
    modifies if southbound.Success? then {southbound.value} else {}
    ensures db != NorthboundServer && db != SouthboundServer ==>
              && err == Some(UnsupportedDatabase(db)) && cmds == map[]
              && (northbound.Success? ==> unchanged(northbound.value))
              && (southbound.Success? ==> unchanged(southbound.value))
    ensures db == NorthboundServer || db == SouthboundServer ==>
              var chosen := if db == NorthboundServer then northbound else southbound;
              var other := if db == NorthboundServer then southbound else northbound;
              && (other.Success? ==> unchanged(other.value))
              && (chosen.Failure? ==> err == Some(ConnectFailed(db)) && cmds == map[])
              && (chosen.Success? ==>
                    var app := chosen.value;
                    && app.queries == old(app.queries) + [ListCommands]
                    && app.closeCount == old(app.closeCount) + 1
                    && (app.reply.Failure? ==> err == Some(CommandFailed(db)) && cmds == map[])
                    && (app.reply == Success("") ==> err == Some(NoData(db)) && cmds == map[])
                    && (app.reply.Success? && app.reply.value != "" ==>
                          && err == None
                          && cmds.Keys == CommandKeys(Split(app.reply.value, LineBreak))
                          && forall k :: k in cmds ==> cmds[k]))
  {
    var app: Result<ControlChannel, Error>;
    if db == NorthboundServer {
      app := northbound;
    } else if db == SouthboundServer {
      app := southbound;
    } else {
      return map[], Some(UnsupportedDatabase(db));
    }
    if app.Failure? {
      return map[], Some(ConnectFailed(db));
    }
    var client := app.value;
    var r := client.Query(ListCommands);
    if r.Failure? {
      client.Close();
      return map[], Some(CommandFailed(db));
    }
    client.Close();
    var response := r.value;
    if response == "" {
      return map[], Some(NoData(db));
    }
    var lines := Split(response, LineBreak);
    cmds := CollectCommands(lines);
    err := None;
  }

  /** Every key has no leading, trailing or repeated white space, and normalising it again
      changes nothing. */
  lemma KeysAreNormal(lines: seq<string>)
    ensures forall k :: k in CommandKeys(lines) ==> WellSpaced(k) && Normalize(k) == k
  {
    forall k | k in CommandKeys(lines) ensures WellSpaced(k) && Normalize(k) == k {
      var l :| l in lines && HasPrefix(l, " ") && Normalize(l) == k;
      NormalizeIdempotent(l);
    }
  }

  /** A key keeps the words of its line, in order. */
  lemma KeysKeepWords(lines: seq<string>, i: nat)
    requires i < |lines| && HasPrefix(lines[i], " ")
    ensures Normalize(lines[i]) in CommandKeys(lines)
    ensures Fields(Normalize(lines[i])) == Fields(lines[i])
  {
    FieldsOfJoin(Fields(lines[i]));
  }

  /** Lines that differ only in their white space give the same key; a repeated line adds
      nothing. */
  lemma DuplicateLinesCollapse(lines: seq<string>, l: string)
    requires l in lines
    ensures CommandKeys(lines + [l]) == CommandKeys(lines)
  {
    CommandKeysSnoc(lines, l);
  }

  /** A reply without the two-character separator is a single line, even when it holds
      real newline characters: those are white space inside the line, so such a reply that
      starts with a space yields exactly one key. */
  lemma NewlineCharactersDoNotSplit(response: string)
    requires !Contains(response, LineBreak) && HasPrefix(response, " ")
    ensures CommandKeys(Split(response, LineBreak)) == {Normalize(response)}
  {
    SplitWithoutSeparator(response, LineBreak);
  }

  /** "\n" as text separates lines: two indented commands joined by it give two keys. */
  lemma EscapedNewlineSplits(a: string, b: string)
    requires !Contains(a, LineBreak) && !Contains(b, LineBreak)
    requires HasPrefix(a, " ") && HasPrefix(b, " ")
    ensures CommandKeys(Split(a + LineBreak + b, LineBreak)) == {Normalize(a), Normalize(b)}
  {
    LineBreakFirstAfter(a);
    SplitAtFirstSeparator(a, LineBreak, b);
    SplitWithoutSeparator(b, LineBreak);
    assert Split(a + LineBreak + b, LineBreak) == [a, b];
  }

  /** A backslash-n cannot start inside a text without one and end in the separator
      following it, as the separator starts with a backslash and not an 'n'. */
  lemma LineBreakFirstAfter(a: string)
    requires !Contains(a, LineBreak)
    ensures forall j :: 0 <= j < |a| ==> !OccursAt(a + LineBreak, LineBreak, j)
  {
    var s := a + LineBreak;
    forall j | 0 <= j < |a| ensures !OccursAt(s, LineBreak, j) {
      if j + 2 <= |a| {
        assert s[j..j + 2] == a[j..j + 2];
        assert !OccursAt(a, LineBreak, j);
      } else {
        assert s[j + 1] == '\\';
      }
    }
  }
}
