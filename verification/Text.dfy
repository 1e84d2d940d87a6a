/** String operations of Go's `strings` package, on ASCII. */
module Text {
  predicate IsSpace(c: char) {
    c == ' ' || '\t' <= c <= '\r'
  }

  function TrimSpaceLeft(s: string): string {
    if s != "" && IsSpace(s[0]) then TrimSpaceLeft(s[1..]) else s
  }

  function TrimSpaceRight(s: string): string {
    if s != "" && IsSpace(s[|s| - 1]) then TrimSpaceRight(s[..|s| - 1]) else s
  }

  function TrimSpace(s: string): string {
    TrimSpaceRight(TrimSpaceLeft(s))
  }

  predicate Blank(s: string) {
    TrimSpace(s) == ""
  }

  function LowerChar(c: char): char {
    if 'A' <= c <= 'Z' then c - 'A' + 'a' else c
  }

  function ToLower(s: string): (r: string)
    ensures |r| == |s| && forall i :: 0 <= i < |s| ==> r[i] == LowerChar(s[i])
  {
    seq(|s|, i requires 0 <= i < |s| => LowerChar(s[i]))
  }

  function TrimPrefix(s: string, prefix: string): string {
    if prefix <= s then s[|prefix|..] else s
  }

  /** Text without white space is its own trimmed form. */
  lemma TrimSpaceKeeps(s: string)
    requires forall i :: 0 <= i < |s| ==> !IsSpace(s[i])
    ensures TrimSpace(s) == s
  {
  }

  /** The white space of ASCII. */
  predicate IsWhite(c: char) {
    c in {' ', '\t', '\n', '\U{000B}', '\U{000C}', '\r'}
  }

  predicate AllSpaces(s: string) {
    forall i :: 0 <= i < |s| ==> IsWhite(s[i])
  }

  lemma SpaceIsWhite(c: char)
    ensures IsSpace(c) <==> IsWhite(c)
  {
  }

  lemma {:induction false} TrimLeftStrips(s: string) returns (front: string)
    ensures AllSpaces(front) && s == front + TrimSpaceLeft(s)
    ensures TrimSpaceLeft(s) == "" || !IsWhite(TrimSpaceLeft(s)[0])
  {
    front := "";
    if s != "" { SpaceIsWhite(s[0]); }
    if s != "" && IsSpace(s[0]) {
      var rest := TrimLeftStrips(s[1..]);
      front := [s[0]] + rest;
      assert s == [s[0]] + s[1..];
    }
  }

  lemma {:induction false} TrimRightStrips(s: string) returns (back: string)
    ensures AllSpaces(back) && s == TrimSpaceRight(s) + back
    ensures TrimSpaceRight(s) == "" || !IsWhite(TrimSpaceRight(s)[|TrimSpaceRight(s)| - 1])
  {
    back := "";
    if s != "" { SpaceIsWhite(s[|s| - 1]); }
    if s != "" && IsSpace(s[|s| - 1]) {
      var rest := TrimRightStrips(s[..|s| - 1]);
      back := rest + [s[|s| - 1]];
      assert s == s[..|s| - 1] + [s[|s| - 1]];
    }
  }

  /** Trimming takes away white space around a text, and all of it. */
  lemma TrimSpaceStrips(s: string) returns (front: string, back: string)
    ensures AllSpaces(front) && AllSpaces(back) && s == front + TrimSpace(s) + back
    ensures TrimSpace(s) == "" || (!IsWhite(TrimSpace(s)[0]) && !IsWhite(TrimSpace(s)[|TrimSpace(s)| - 1]))
  {
    front := TrimLeftStrips(s);
    back := TrimRightStrips(TrimSpaceLeft(s));
    if TrimSpace(s) != "" {
      assert TrimSpace(s)[0] == TrimSpaceLeft(s)[0];
    }
  }

  lemma {:induction false} TrimLeftDrops(front: string, s: string)
    requires AllSpaces(front) && (s == "" || !IsSpace(s[0]))
    ensures TrimSpaceLeft(front + s) == s
  {
    if front == "" {
      assert front + s == s;
    } else {
      assert (front + s)[1..] == front[1..] + s && (front + s)[0] == front[0];
      TrimLeftDrops(front[1..], s);
    }
  }

  lemma {:induction false} TrimRightDrops(s: string, back: string)
    requires AllSpaces(back) && (s == "" || !IsSpace(s[|s| - 1]))
    ensures TrimSpaceRight(s + back) == s
  {
    if back == "" {
      assert s + back == s;
    } else {
      var n := |back| - 1;
      assert (s + back)[..|s + back| - 1] == s + back[..n] && (s + back)[|s + back| - 1] == back[n];
      TrimRightDrops(s, back[..n]);
    }
  }

  /** White space around a text that contains none does not survive. */
  lemma TrimSpaceDrops(front: string, s: string, back: string)
    requires AllSpaces(front) && AllSpaces(back) && s != "" && forall i :: 0 <= i < |s| ==> !IsWhite(s[i])
    ensures TrimSpace(front + s + back) == s
  {
    SpaceIsWhite(s[0]);
    SpaceIsWhite(s[|s| - 1]);
    assert front + s + back == front + (s + back);
    TrimLeftDrops(front, s + back);
    TrimRightDrops(s, back);
  }

  /** Blank text is white space, and nothing else is blank. */
  lemma BlankIff(s: string)
    ensures Blank(s) <==> AllSpaces(s)
  {
    var front, back := TrimSpaceStrips(s);
    assert TrimSpace(s) != "" ==> s[|front|] == TrimSpace(s)[0];
  }
}
