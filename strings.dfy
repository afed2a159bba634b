/** The pieces of Go's `strings` package that the client relies on:
    `HasPrefix`, `Index`, `Split`, `Join` and `Fields`, over strings of characters. */
module Strings {

  /** strings.HasPrefix */
  predicate HasPrefix(s: string, prefix: string) {
    |prefix| <= |s| && s[..|prefix|] == prefix
  }

  /** `sep` occurs in `s` starting at position `j`. */
  predicate OccursAt(s: string, sep: string, j: int) {
    0 <= j && j + |sep| <= |s| && s[j..j + |sep|] == sep
  }

  predicate Contains(s: string, sep: string) {
    exists j | 0 <= j <= |s| :: OccursAt(s, sep, j)
  }

  /** strings.Index for a non-empty separator, searching from position `from`: the first
      position at or after `from` where `sep` occurs, or -1 when there is none. */
  function IndexFrom(s: string, sep: string, from: nat): (k: int)
    requires sep != [] && from <= |s|
    ensures k == -1 || from <= k <= |s| - |sep|
    ensures k >= 0 ==> OccursAt(s, sep, k)
    ensures forall j :: from <= j && (k < 0 || j < k) ==> !OccursAt(s, sep, j)
    decreases |s| - from
  {
    if from + |sep| > |s| then -1
    else if s[from..from + |sep|] == sep then from
    else IndexFrom(s, sep, from + 1)
  }

  /** strings.Index */
  function Index(s: string, sep: string): (k: int)
    requires sep != []
  {
    IndexFrom(s, sep, 0)
  }

  /** strings.Split for a non-empty separator: the pieces between successive
      non-overlapping occurrences of `sep`, scanning from the left. */
  function Split(s: string, sep: string): (parts: seq<string>)
    requires sep != []
    ensures |parts| >= 1
    decreases |s|
  {
    var i := Index(s, sep);
    if i < 0 then [s] else [s[..i]] + Split(s[i + |sep|..], sep)
  }

  /** The total number of characters in `parts`. */
  function TotalLength(parts: seq<string>): nat {
    if parts == [] then 0 else |parts[0]| + TotalLength(parts[1..])
  }

  /** strings.Join: the pieces in order, with one separator between each two. */
  function Join(parts: seq<string>, sep: string): (r: string)
    ensures parts != [] ==> |r| == TotalLength(parts) + (|parts| - 1) * |sep|
    ensures parts != [] ==> HasPrefix(r, parts[0])
  {
    if parts == [] then ""
    else if |parts| == 1 then parts[0]
    else
      var t := Join(parts[1..], sep);
      assert (|parts| - 1) * |sep| == |sep| + (|parts| - 2) * |sep|;
      parts[0] + sep + t
  }

  /** Splitting and joining back with the same separator gives the input back. */
  lemma {:induction false} JoinSplit(s: string, sep: string)
    requires sep != []
    ensures Join(Split(s, sep), sep) == s
    decreases |s|
  {
    var i := Index(s, sep);
    if i >= 0 {
      var head, rest := s[..i], s[i + |sep|..];
      var tail := Split(rest, sep);
      JoinSplit(rest, sep);
      assert Split(s, sep) == [head] + tail;
      assert ([head] + tail)[1..] == tail;
      assert Join([head] + tail, sep) == head + sep + rest;
      assert s[i..i + |sep|] == sep;
      assert s == head + s[i..i + |sep|] + rest;
    }
  }

  /** No piece produced by Split contains the separator. */
  lemma {:induction false} SplitPiecesLackSeparator(s: string, sep: string)
    requires sep != []
    ensures forall k :: 0 <= k < |Split(s, sep)| ==> !Contains(Split(s, sep)[k], sep)
    decreases |s|
  {
    var i := Index(s, sep);
    if i >= 0 {
      var rest := s[i + |sep|..];
      SplitPiecesLackSeparator(rest, sep);
      var head := s[..i];
      forall j | OccursAt(head, sep, j) ensures false {
        assert head[j..j + |sep|] == s[j..j + |sep|];
        assert OccursAt(s, sep, j);
      }
      var parts := Split(s, sep);
      forall k | 0 <= k < |parts| ensures !Contains(parts[k], sep) {
        if k > 0 {
          assert parts[k] == Split(rest, sep)[k - 1];
        }
      }
    }
  }

  /** The first piece is the text before the first occurrence of the separator, or all of `s`. */
  lemma SplitHead(s: string, sep: string)
    requires sep != []
    ensures Index(s, sep) < 0 ==> Split(s, sep) == [s]
    ensures Index(s, sep) >= 0 ==>
              && Split(s, sep)[0] == s[..Index(s, sep)]
              && Split(s, sep)[1..] == Split(s[Index(s, sep) + |sep|..], sep)
  {
  }

  /** A one-character separator occurs in a string exactly when that character does. */
  lemma ContainsChar(s: string, c: char)
    ensures Contains(s, [c]) <==> c in s
  {
    if c in s {
      var j :| 0 <= j < |s| && s[j] == c;
      assert OccursAt(s, [c], j);
    }
    if Contains(s, [c]) {
      var j :| 0 <= j <= |s| && OccursAt(s, [c], j);
      assert s[j..j + 1][0] == s[j];
    }
  }

  /** A piece without the (one-character) separator, then the separator: the split takes the
      piece off the front. */
  lemma SplitPieceThenRest(p: string, sep: string, rest: string)
    requires |sep| == 1 && !Contains(p, sep)
    ensures Split(p + sep + rest, sep) == [p] + Split(rest, sep)
  {
    forall j | 0 <= j < |p| ensures !OccursAt(p + sep, sep, j) {
      assert (p + sep)[j..j + 1] == p[j..j + 1];
      assert !OccursAt(p, sep, j);
    }
    SplitAtFirstSeparator(p, sep, rest);
  }

  /** Two pieces without the (one-character) separator, each followed by it: they are the
      first two pieces of the split. */
  lemma SplitTwoPieces(p: string, q: string, sep: string, rest: string)
    requires |sep| == 1 && !Contains(p, sep) && !Contains(q, sep)
    ensures var t := Split(p + sep + q + sep + rest, sep); |t| > 1 && t[0] == p && t[1] == q
  {
    SplitPieceThenRest(q, sep, rest);
    SplitPieceThenRest(p, sep, q + sep + rest);
    assert p + sep + q + sep + rest == p + sep + (q + sep + rest);
  }

  /** A piece followed by the separator, where the separator first occurs right after the
      piece: the split takes the piece off the front. */
  lemma SplitAtFirstSeparator(p: string, sep: string, rest: string)
    requires sep != []
    requires forall j :: 0 <= j < |p| ==> !OccursAt(p + sep, sep, j)
    ensures Split(p + sep + rest, sep) == [p] + Split(rest, sep)
  {
    var s := p + sep + rest;
    forall j | 0 <= j < |p| ensures !OccursAt(s, sep, j) {
      assert s[j..j + |sep|] == (p + sep)[j..j + |sep|];
      assert !OccursAt(p + sep, sep, j);
      assert j + |sep| <= |p + sep|;
    }
    assert s[|p|..|p| + |sep|] == sep;
    assert OccursAt(s, sep, |p|);
    assert Index(s, sep) == |p|;
    assert s[..|p|] == p && s[|p| + |sep|..] == rest;
  }

  /** A string without the separator splits into itself alone. */
  lemma SplitWithoutSeparator(s: string, sep: string)
    requires sep != [] && !Contains(s, sep)
    ensures Split(s, sep) == [s]
  {
  }

  /** unicode.IsSpace: the ASCII white space, NEL, NBSP and the Unicode
      White_Space characters above Latin-1. Within Latin-1 these are exactly tab, line
      feed, vertical tab, form feed, carriage return, space, NEL and NBSP. */
  function IsSpace(c: char): (r: bool)
    ensures c as int < 0x100 ==>
              (r <==> c in {'\t', '\n', '\U{000B}', '\U{000C}', '\r', ' ', '\U{0085}', '\U{00A0}'})
  {
    var n := c as int;
    (9 <= n <= 13) || n == 32 || n == 0x85 || n == 0xA0 || n == 0x1680
    || (0x2000 <= n <= 0x200A) || n == 0x2028 || n == 0x2029 || n == 0x202F
    || n == 0x205F || n == 0x3000
  }

  /** A non-empty run of characters none of which is white space. */
  predicate IsWord(w: string) {
    w != [] && forall i :: 0 <= i < |w| ==> !IsSpace(w[i])
  }

  /** The length of the longest prefix of `s` without white space. */
  function WordLength(s: string): (n: nat)
    ensures n <= |s|
    ensures forall i :: 0 <= i < n ==> !IsSpace(s[i])
    ensures n < |s| ==> IsSpace(s[n])
  {
    if s == [] || IsSpace(s[0]) then 0 else 1 + WordLength(s[1..])
  }

  /** strings.Fields: the maximal runs of non-white-space characters, in order. */
  function Fields(s: string): (words: seq<string>)
    ensures forall i :: 0 <= i < |words| ==> IsWord(words[i])
    decreases |s|
  {
    if s == [] then []
    else if IsSpace(s[0]) then Fields(s[1..])
    else
      var n := WordLength(s);
      [s[..n]] + Fields(s[n..])
  }

  /** strings.Join(strings.Fields(s), " "): `s` with its white space normalised. The result
      has no leading, trailing or repeated white space, and no white space other than ' '. */
  function Normalize(s: string): (r: string)
    ensures WellSpaced(r)
  {
    JoinWordsWellSpaced(Fields(s));
    Join(Fields(s), " ")
  }

  /** Every white-space character is a single ' ' with a non-space on either side:
      no leading, trailing or repeated white space. */
  predicate WellSpaced(r: string) {
    forall i :: 0 <= i < |r| && IsSpace(r[i]) ==>
      r[i] == ' ' && 0 < i < |r| - 1 && !IsSpace(r[i - 1]) && !IsSpace(r[i + 1])
  }

  lemma {:induction false} JoinWordsWellSpaced(ws: seq<string>)
    requires forall k :: 0 <= k < |ws| ==> IsWord(ws[k])
    ensures WellSpaced(Join(ws, " "))
    ensures ws != [] ==> var r := Join(ws, " "); |r| > 0 && !IsSpace(r[0]) && !IsSpace(r[|r| - 1])
  {
    if |ws| == 1 {
      assert IsWord(ws[0]);
    } else if |ws| > 1 {
      var w, t := ws[0], Join(ws[1..], " ");
      JoinWordsWellSpaced(ws[1..]);
      assert IsWord(w);
      var r := w + " " + t;
      assert Join(ws, " ") == r;
      forall i | 0 <= i < |r| && IsSpace(r[i])
        ensures r[i] == ' ' && 0 < i < |r| - 1 && !IsSpace(r[i - 1]) && !IsSpace(r[i + 1])
      {
        if i == |w| {
          assert r[i - 1] == w[|w| - 1] && r[i + 1] == t[0];
        } else if i > |w| {
          var j := i - |w| - 1;
          assert r[i] == t[j];
          assert r[i - 1] == (if j == 0 then ' ' else t[j - 1]);
          assert r[i + 1] == t[j + 1];
        }
      }
      assert r[|r| - 1] == t[|t| - 1];
    }
  }

  lemma FieldsOfWordThenSpace(w: string, t: string)
    requires IsWord(w)
    ensures Fields(w + " " + t) == [w] + Fields(t)
    ensures Fields(w) == [w]
  {
    var s := w + " " + t;
    assert s[0] == w[0];
    var n := WordLength(s);
    assert s[|w|] == ' ';
    assert forall i :: 0 <= i < |w| ==> s[i] == w[i];
    assert n == |w|;
    assert s[..n] == w;
    assert s[n..] == " " + t;
    assert (" " + t)[1..] == t;
    var m := WordLength(w);
    assert m == |w|;
    assert w[..m] == w && w[m..] == [];
  }

  /** Fields recovers the words that were joined by single spaces. */
  lemma {:induction false} FieldsOfJoin(ws: seq<string>)
    requires forall k :: 0 <= k < |ws| ==> IsWord(ws[k])
    ensures Fields(Join(ws, " ")) == ws
  {
    if |ws| == 1 {
      FieldsOfWordThenSpace(ws[0], "");
    } else if |ws| > 1 {
      FieldsOfJoin(ws[1..]);
      FieldsOfWordThenSpace(ws[0], Join(ws[1..], " "));
    }
  }

  /** Normalising twice is the same as normalising once. */
  lemma NormalizeIdempotent(s: string)
    ensures Normalize(Normalize(s)) == Normalize(s)
  {
    FieldsOfJoin(Fields(s));
  }

  /** A text made only of white space has no fields, and a text with a non-space
      character has at least one. */
  lemma {:induction false} FieldsOfWhiteSpace(s: string)
    ensures Fields(s) == [] <==> forall i :: 0 <= i < |s| ==> IsSpace(s[i])
    decreases |s|
  {
    if s != [] && IsSpace(s[0]) {
      FieldsOfWhiteSpace(s[1..]);
      assert forall i :: 1 <= i < |s| ==> s[i] == s[1..][i - 1];
    }
  }

  /** The first word of `p + q` is the first word of `p` when `p` has white space after its
      first word, or when `q` is empty or starts with white space. */
  lemma WordLengthAppend(p: string, q: string)
    requires WordLength(p) < |p| || q == [] || IsSpace(q[0])
    ensures WordLength(p + q) == WordLength(p)
  {
    var n, m := WordLength(p + q), WordLength(p);
    assert forall i :: 0 <= i < |p| ==> (p + q)[i] == p[i];
    if m < |p| {
      assert (p + q)[m] == p[m];
    } else if q != [] {
      assert (p + q)[m] == q[0];
    }
  }

  /** Fields works piecewise wherever the two pieces cannot share a word: when either is
      empty, the first ends in white space or the second starts with it. Together with
      FieldsOfWhiteSpace and FieldsOfWordThenSpace this fixes Fields on every input. */
  lemma {:induction false} FieldsAppend(p: string, q: string)
    requires p == [] || q == [] || IsSpace(p[|p| - 1]) || IsSpace(q[0])
    ensures Fields(p + q) == Fields(p) + Fields(q)
    decreases |p|
  {
    if p == [] {
      assert p + q == q;
    } else if q == [] {
      assert p + q == p;
    } else {
      var k, _ := FieldsAppendStep(p, q);
      var r := p[k..];
      assert r == [] || r[|r| - 1] == p[|p| - 1];
      FieldsAppend(r, q);
    }
  }

  /** One step of Fields on `p + q` when `p` is not empty: it takes the same white space or
      the same first word off `p` as Fields on `p` alone, and leaves `p[k..] + q`. */
  lemma FieldsAppendStep(p: string, q: string) returns (k: nat, h: seq<string>)
    requires p != [] && (q == [] || IsSpace(p[|p| - 1]) || IsSpace(q[0]))
    ensures 0 < k <= |p|
    ensures Fields(p) == h + Fields(p[k..]) && Fields(p + q) == h + Fields(p[k..] + q)
  {
    var s := p + q;
    assert s[0] == p[0];
    if IsSpace(p[0]) {
      k, h := 1, [];
      assert s[1..] == p[1..] + q;
    } else {
      k := WordLength(p);
      h := [p[..k]];
      WordLengthAppend(p, q);
      assert s[..k] == p[..k] && s[k..] == p[k..] + q;
    }
  }

  /** The number of bytes a character takes in UTF-8. */
  function Utf8Width(c: char): (w: nat)
    ensures 1 <= w <= 4
    ensures w == 1 <==> c as int < 0x80
  {
    var n := c as int;
    if n < 0x80 then 1 else if n < 0x800 then 2 else if n < 0x1_0000 then 3 else 4
  }

  /** Go's len(s) for a string: the number of bytes of its UTF-8 encoding. */
  function Utf8Length(s: string): (n: nat)
    ensures |s| <= n <= 4 * |s|
    ensures n == |s| <==> forall i :: 0 <= i < |s| ==> s[i] as int < 0x80
  {
    if s == [] then 0
    else
      var n := Utf8Width(s[0]) + Utf8Length(s[1..]);
      assert forall i :: 1 <= i < |s| ==> s[i] == s[1..][i - 1];
      n
  }

  /** The bytes of a concatenation are the bytes of its parts. */
  lemma {:induction false} Utf8LengthAppend(s: string, t: string)
    ensures Utf8Length(s + t) == Utf8Length(s) + Utf8Length(t)
    decreases |s|
  {
    if s != [] {
      assert (s + t)[1..] == s[1..] + t;
      Utf8LengthAppend(s[1..], t);
    } else {
      assert s + t == t;
    }
  }

  /** A character repeated k times takes k times its width. */
  lemma {:induction false} Utf8LengthRepeat(c: char, k: nat)
    ensures Utf8Length(seq(k, _ => c)) == k * Utf8Width(c)
  {
    if k > 0 {
      var s := seq(k, _ => c);
      assert s[1..] == seq(k - 1, _ => c);
      Utf8LengthRepeat(c, k - 1);
    }
  }
}
