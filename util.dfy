/** util.go: splitting a connection string into a network and an address. */
module Util {
  import opened Wrappers
  import opened Strings

  /** The (network, address) pair that `net.Dial` is given. */
  datatype Endpoint = Endpoint(network: string, address: string)

  /** parseSocket. A string starting with "unix" is split on ':' and the first two pieces are
      taken; anything else is a TCP address taken as it is. No input is rejected: the error
      result is always nil. A string that starts with "unix" but has no ':' makes the Go code
      index past the end of the split result and panic; callers must not pass one. */
  function ParseSocket(s: string): (r: Result<Endpoint, Error>)
    requires HasPrefix(s, "unix") ==> Contains(s, ":")
    ensures r.Success?
    ensures !HasPrefix(s, "unix") ==> r.value == Endpoint("tcp", s)
    ensures HasPrefix(s, "unix") ==>
              // the network is the text before the first ':', the address runs up to the
              // second ':' or the end, and whatever follows a second ':' is dropped
              && HasPrefix(s, r.value.network + ":" + r.value.address)
              && !Contains(r.value.network, ":") && !Contains(r.value.address, ":")
              && var tail := s[|r.value.network| + 1 + |r.value.address|..];
                 tail == [] || tail[0] == ':'
  {
    if HasPrefix(s, "unix") then
      var arr := Split(s, ":");
      SplitPiecesLackSeparator(s, ":");
      SocketPieces(s);
      Success(Endpoint(arr[0], arr[1]))
    else
      Success(Endpoint("tcp", s))
  }

  /** With at least one ':', the first two pieces of the split, with the ':' between them,
      form a prefix of `s` that is followed by nothing or by another ':'. */
  lemma SocketPieces(s: string)
    requires Contains(s, ":")
    ensures |Split(s, ":")| >= 2
    ensures var arr := Split(s, ":");
            && HasPrefix(s, arr[0] + ":" + arr[1])
            && var tail := s[|arr[0]| + 1 + |arr[1]|..]; tail == [] || tail[0] == ':'
  {
    var i := Index(s, ":");
    SplitHead(s, ":");
    var rest := s[i + 1..];
    assert s[i..i + 1] == ":";
    SecondPiece(rest);
    Glue(s, i, Split(rest, ":")[0]);
  }

  /** The first piece of a split on ':' is a prefix followed by nothing or by ':'. */
  lemma SecondPiece(rest: string)
    ensures var p := Split(rest, ":")[0];
            && HasPrefix(rest, p)
            && (|p| == |rest| || rest[|p|] == ':')
  {
    SplitHead(rest, ":");
    var k := Index(rest, ":");
    if k >= 0 {
      assert rest[k..k + 1] == ":";
    }
  }

  /** A ':' at position i followed by a piece ending at ':' or at the end. */
  lemma Glue(s: string, i: nat, second: string)
    requires i < |s| && s[i] == ':'
    requires HasPrefix(s[i + 1..], second)
    requires |second| == |s[i + 1..]| || s[i + 1..][|second|] == ':'
    ensures HasPrefix(s, s[..i] + ":" + second)
    ensures var tail := s[i + 1 + |second|..]; tail == [] || tail[0] == ':'
  {
    assert s[..i + 1 + |second|] == s[..i] + ":" + second by {
      assert s[..i + 1 + |second|] == s[..i] + [s[i]] + s[i + 1..][..|second|];
    }
  }

  /** An exact-scheme test is not made: "unixd:/p" gives network "unixd", so rejecting such a
      string is left to the dialer. */
  lemma UnixdIsAccepted()
    ensures Contains("unixd:/p", ":") && ParseSocket("unixd:/p") == Success(Endpoint("unixd", "/p"))
  {
    var s := "unixd:/p";
    assert OccursAt(s, ":", 5);
    assert Index(s, ":") == 5 by {
      assert ':' !in s[..5];
      forall k | 0 <= k < 5 ensures !OccursAt(s, ":", k) {
        assert s[k..k + 1][0] == s[..5][k];
      }
    }
    SplitHead(s, ":");
    var rest := s[6..];
    assert rest == "/p";
    assert Index(rest, ":") < 0 by {
      assert ':' !in rest[..2];
      forall k | 0 <= k < 2 ensures !OccursAt(rest, ":", k) {
        assert rest[k..k + 1][0] == rest[..2][k];
      }
    }
    SplitHead(rest, ":");
    assert HasPrefix(s, "unix");
    assert Split(s, ":")[0] == s[..5] == "unixd";
    assert Split(s, ":")[1] == Split(rest, ":")[0] == rest;
  }

  /** Text after a second ':' is silently dropped. */
  lemma ExtraSegmentsDropped()
    ensures Contains("unix:/a:b", ":") && ParseSocket("unix:/a:b") == Success(Endpoint("unix", "/a"))
  {
    var s := "unix:/a:b";
    assert OccursAt(s, ":", 4);
    assert Index(s, ":") == 4 by {
      assert ':' !in s[..4];
      forall k | 0 <= k < 4 ensures !OccursAt(s, ":", k) {
        assert s[k..k + 1][0] == s[..4][k];
      }
    }
    SplitHead(s, ":");
    var rest := s[5..];
    assert rest == "/a:b";
    assert OccursAt(rest, ":", 2);
    assert Index(rest, ":") == 2 by {
      assert ':' !in rest[..2];
      forall k | 0 <= k < 2 ensures !OccursAt(rest, ":", k) {
        assert rest[k..k + 1][0] == rest[..2][k];
      }
    }
    SplitHead(rest, ":");
    assert HasPrefix(s, "unix");
    assert Split(s, ":")[0] == s[..4] == "unix";
    assert Split(s, ":")[1] == Split(rest, ":")[0] == rest[..2] == "/a";
  }
}
