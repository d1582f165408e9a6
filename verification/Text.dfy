/**
 White space and comma-separated lists.
 */
module Text {

  predicate IsSpace(c: char) {
    c in "\t\n\U{000B}\U{000C}\r \U{0085}\U{00A0}\U{1680}\U{2028}\U{2029}\U{202F}\U{205F}\U{3000}" ||
    '\U{2000}' <= c <= '\U{200A}'
  }

  function TrimLeft(s: string): string {
    if s != "" && IsSpace(s[0]) then TrimLeft(s[1..]) else s
  }

  function TrimRight(s: string): string {
    if s != "" && IsSpace(s[|s| - 1]) then TrimRight(s[..|s| - 1]) else s
  }

  function Trim(s: string): string {
    TrimRight(TrimLeft(s))
  }

  /** Nothing but white space is trimmed, and all of it at both ends. */
  lemma TrimIsMaximal(s: string)
    ensures exists i, j :: 0 <= i <= j <= |s| && Trim(s) == s[i..j]
                           && (forall k :: 0 <= k < i || j <= k < |s| ==> IsSpace(s[k]))
    ensures Trim(s) != "" ==> !IsSpace(Trim(s)[0]) && !IsSpace(Trim(s)[|Trim(s)| - 1])
  {
    hide IsSpace;
    var i := LeftEdge(s);
    var t := s[i..];
    var j := RightEdge(t);
    assert Trim(s) == t[..j] == s[i..i + j];
    assert forall k :: i + j <= k < |s| ==> s[k] == t[k - i];
  }

  lemma {:induction false} LeftEdge(s: string) returns (i: nat)
    ensures i <= |s| && TrimLeft(s) == s[i..] && forall k :: 0 <= k < i ==> IsSpace(s[k])
    ensures i < |s| ==> !IsSpace(s[i])
  {
    hide IsSpace;
    if s != "" && IsSpace(s[0]) {
      i := LeftEdge(s[1..]);
      i := i + 1;
      assert s[1..][i - 1..] == s[i..];
      assert forall k :: 1 <= k < i ==> s[k] == s[1..][k - 1];
    } else {
      i := 0;
    }
  }

  lemma {:induction false} RightEdge(s: string) returns (j: nat)
    ensures j <= |s| && TrimRight(s) == s[..j] && forall k :: j <= k < |s| ==> IsSpace(s[k])
    ensures j > 0 ==> !IsSpace(s[j - 1])
  {
    hide IsSpace;
    if s != "" && IsSpace(s[|s| - 1]) {
      j := RightEdge(s[..|s| - 1]);
      assert s[..|s| - 1][..j] == s[..j];
    } else {
      j := |s|;
    }
  }

  /** Trimming leaves nothing exactly if there is nothing but white space. */
  lemma BlankIsOnlySpace(s: string)
    ensures Trim(s) == "" <==> forall k :: 0 <= k < |s| ==> IsSpace(s[k])
  {
    hide IsSpace, Trim;
    TrimIsMaximal(s);
    var i, j :| 0 <= i <= j <= |s| && Trim(s) == s[i..j] && (forall k :: 0 <= k < i || j <= k < |s| ==> IsSpace(s[k]));
    assert i < j ==> s[i..j][0] == s[i];
  }

  // The pieces between commas; there is always at least one.
  function Split(s: string): (parts: seq<string>)
    ensures parts != []
  {
    if s == "" then [""]
    else
      var rest := Split(s[1..]);
      if s[0] == ',' then [""] + rest else [[s[0]] + rest[0]] + rest[1..]
  }

  lemma {:induction false} SplitAtComma(a: string, b: string)
    ensures Split(a + "," + b) == Split(a) + Split(b)
  {
    var s := a + "," + b;
    if a == "" {
      assert s[1..] == b;
    } else {
      assert s[1..] == a[1..] + "," + b;
      SplitAtComma(a[1..], b);
    }
  }

  // Pieces put together again, with a comma between any two.
  function Joined(parts: seq<string>): string
    requires parts != []
  {
    if |parts| == 1 then parts[0] else parts[0] + "," + Joined(parts[1..])
  }

  // The pieces of a string: without commas, and with commas between them the string.
  ghost predicate ArePieces(parts: seq<string>, s: string) {
    parts != [] && Joined(parts) == s && forall i :: 0 <= i < |parts| ==> ',' !in parts[i]
  }

  lemma {:induction false} SplitGivesPieces(s: string)
    ensures ArePieces(Split(s), s)
  {
    if s != "" {
      var rest := Split(s[1..]);
      SplitGivesPieces(s[1..]);
      assert s == [s[0]] + s[1..];
      if s[0] == ',' {
        assert ([""] + rest)[1..] == rest;
      } else {
        assert ([[s[0]] + rest[0]] + rest[1..])[1..] == rest[1..];
      }
    }
  }

  lemma {:induction false} NothingToSplit(s: string)
    requires ',' !in s
    ensures Split(s) == [s]
  {
    if s != "" {
      NothingToSplit(s[1..]);
      assert s == [s[0]] + s[1..];
    }
  }

  /** A string has one list of pieces. */
  lemma {:induction false} PiecesAreSplit(parts: seq<string>, s: string)
    requires ArePieces(parts, s)
    ensures parts == Split(s)
  {
    NothingToSplit(parts[0]);
    if |parts| > 1 {
      PiecesAreSplit(parts[1..], Joined(parts[1..]));
      SplitAtComma(parts[0], Joined(parts[1..]));
      assert parts == [parts[0]] + parts[1..];
    }
  }
}
