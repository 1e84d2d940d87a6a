/** Deployment keys and the names derived from them. */
module Naming {
  import opened Paths
  import opened Text

  predicate IsAlnum(c: char) {
    '0' <= c <= '9' || 'a' <= c <= 'z' || 'A' <= c <= 'Z'
  }

  predicate IsLowerAlnum(c: char) {
    '0' <= c <= '9' || 'a' <= c <= 'z'
  }

  /** Replaces every maximal run of characters outside [a-zA-Z0-9] by one hyphen;
      `inRun` says that the hyphen of the current run is already written. */
  function ReplaceInvalid(s: string, inRun: bool): string {
    if s == "" then ""
    else if IsAlnum(s[0]) then [s[0]] + ReplaceInvalid(s[1..], false)
    else if inRun then ReplaceInvalid(s[1..], true)
    else ['-'] + ReplaceInvalid(s[1..], true)
  }

  function TrimLeft(s: string): string {
    if s != "" && s[0] == '-' then TrimLeft(s[1..]) else s
  }

  function TrimRight(s: string): string {
    if s != "" && s[|s| - 1] == '-' then TrimRight(s[..|s| - 1]) else s
  }

  function SanitizeName(name: string): string {
    ToLower(TrimRight(TrimLeft(ReplaceInvalid(name, false))))
  }

  /** The form of a deployment key: words of [a-z0-9] joined by single hyphens. */
  predicate IsSanitized(s: string) {
    && (forall i :: 0 <= i < |s| ==> IsLowerAlnum(s[i]) || s[i] == '-')
    && (forall i :: 0 <= i < |s| && s[i] == '-' ==> 0 < i < |s| - 1 && s[i + 1] != '-')
  }

  /** Hyphens stand alone. */
  predicate SingleHyphens(s: string) {
    && (forall i :: 0 <= i < |s| ==> IsAlnum(s[i]) || s[i] == '-')
    && (forall i :: 0 <= i < |s| - 1 && s[i] == '-' ==> s[i + 1] != '-')
  }

  lemma {:induction false} ReplaceLeavesSingleHyphens(s: string, inRun: bool)
    ensures var r := ReplaceInvalid(s, inRun); SingleHyphens(r) && (inRun && r != "" ==> r[0] != '-')
  {
    if s != "" {
      ReplaceLeavesSingleHyphens(s[1..], !IsAlnum(s[0]));
    }
  }

  lemma {:induction false} TrimsSingleHyphens(s: string)
    requires SingleHyphens(s)
    ensures var r := TrimRight(TrimLeft(s));
            SingleHyphens(r) && (r != "" ==> r[0] != '-' && r[|r| - 1] != '-')
  {
    if s != "" && s[0] == '-' {
      assert TrimLeft(s) == s[1..];
    }
    var t := TrimLeft(s);
    assert SingleHyphens(t) && (t != "" ==> t[0] != '-');
    if t != "" && t[|t| - 1] == '-' {
      assert |t| > 1 ==> t[|t| - 2] != '-';
      assert TrimRight(t) == t[..|t| - 1];
    }
  }

  lemma {:induction false} ReplaceKeepsSingleHyphens(s: string, inRun: bool)
    requires SingleHyphens(s) && (inRun && s != "" ==> s[0] != '-')
    ensures ReplaceInvalid(s, inRun) == s
  {
    if s != "" {
      ReplaceKeepsSingleHyphens(s[1..], !IsAlnum(s[0]));
      assert [s[0]] + s[1..] == s;
    }
  }

  lemma LowerIsSanitized(s: string)
    requires SingleHyphens(s) && (s != "" ==> s[0] != '-' && s[|s| - 1] != '-')
    ensures IsSanitized(ToLower(s))
  {
    var low := ToLower(s);
    forall i | 0 <= i < |low|
      ensures IsLowerAlnum(low[i]) || low[i] == '-'
      ensures low[i] == '-' ==> 0 < i < |low| - 1 && low[i + 1] != '-'
    {
      assert low[i] == LowerChar(s[i]);
      if low[i] == '-' {
        assert s[i] == '-' && 0 < i < |s| - 1 && s[i + 1] != '-';
        assert low[i + 1] == LowerChar(s[i + 1]);
      }
    }
  }

  lemma SanitizeYieldsSanitized(name: string)
    ensures IsSanitized(SanitizeName(name))
  {
    var r := ReplaceInvalid(name, false);
    ReplaceLeavesSingleHyphens(name, false);
    TrimsSingleHyphens(r);
    LowerIsSanitized(TrimRight(TrimLeft(r)));
  }

  lemma SanitizedIsFixed(name: string)
    requires IsSanitized(name)
    ensures SanitizeName(name) == name
  {
    ReplaceKeepsSingleHyphens(name, false);
    assert TrimLeft(name) == name && TrimRight(name) == name;
    assert ToLower(name) == name;
  }

  /** Sanitizing always yields a sanitized key, and changes nothing exactly on sanitized
      keys; so the check `SanitizeName(key) == key` accepts exactly the sanitized keys. */
  lemma SanitizeIsNormalForm(name: string)
    ensures IsSanitized(SanitizeName(name))
    ensures SanitizeName(name) == name <==> IsSanitized(name)
    ensures SanitizeName(SanitizeName(name)) == SanitizeName(name)
  {
    SanitizeYieldsSanitized(name);
    SanitizeYieldsSanitized(SanitizeName(name));
    SanitizedIsFixed(SanitizeName(name));
    if IsSanitized(name) {
      SanitizedIsFixed(name);
    }
  }

  /** A non-empty sanitized key is a single path segment, so it names exactly one
      directory below the data directory. */
  lemma SanitizedIsSegment(key: string)
    requires IsSanitized(key) && key != ""
    ensures IsSegment(key) && '\\' !in key
  {
    assert key[0] != '.';
  }

  const CONTAINER_SKILLS_ROOT := "/app/config/skills"

  function ContainerSkillDir(agentId: string): string {
    CONTAINER_SKILLS_ROOT + "/" + agentId
  }

  function ContainerName(prefix: string, key: string, instance: string): string {
    prefix + "-" + SanitizeName(key) + "-" + instance
  }

  // ---- What sanitizing keeps -------------------------------------------------------------------

  /** Two sanitized parts, with a hyphen between them if neither is empty. */
  function Hyphenated(a: string, b: string): string {
    if a == "" then b else if b == "" then a else a + "-" + b
  }

  /** A run of invalid characters is open after s. */
  predicate OpenAfter(s: string, inRun: bool) {
    if s == "" then inRun else !IsAlnum(s[|s| - 1])
  }

  lemma OpenStays(s: string, inRun: bool)
    requires s != ""
    ensures OpenAfter(s[1..], !IsAlnum(s[0])) == OpenAfter(s, inRun)
  {
    assert |s| > 1 ==> s[1..][|s| - 2] == s[|s| - 1];
  }

  lemma ReplaceHead(s: string, inRun: bool)
    requires s != ""
    ensures ReplaceInvalid(s, inRun) ==
      (if IsAlnum(s[0]) then [s[0]] else if inRun then "" else "-") + ReplaceInvalid(s[1..], !IsAlnum(s[0]))
  {
  }

  lemma {:induction false} ReplaceConcat(a: string, b: string, inRun: bool)
    ensures ReplaceInvalid(a + b, inRun) == ReplaceInvalid(a, inRun) + ReplaceInvalid(b, OpenAfter(a, inRun))
    decreases |a|
  {
    if a == "" {
      assert a + b == b;
    } else {
      var rest, open := a[1..], !IsAlnum(a[0]);
      assert (a + b)[1..] == rest + b;
      ReplaceConcat(rest, b, open);
      OpenStays(a, inRun);
      ReplaceHead(a, inRun);
      ReplaceHead(a + b, inRun);
      hide ReplaceInvalid, OpenAfter;
    }
  }

  lemma {:induction false} OpenMeansHyphen(s: string, inRun: bool)
    ensures var r := ReplaceInvalid(s, inRun);
            && (s != "" && OpenAfter(s, inRun) && !inRun ==> r != "" && r[|r| - 1] == '-')
            && (s != "" && !OpenAfter(s, inRun) ==> r != "" && r[|r| - 1] == s[|s| - 1])
            && (s != "" && OpenAfter(s, inRun) && r != "" ==> r[|r| - 1] == '-')
  {
    if s != "" {
      assert |s| > 1 ==> s[1..][|s[1..]| - 1] == s[|s| - 1];
      OpenMeansHyphen(s[1..], !IsAlnum(s[0]));
    }
  }

  lemma {:induction false} TrimRightOfHyphen(s: string)
    ensures TrimRight(s + "-") == TrimRight(s)
    ensures s != "" && s[|s| - 1] != '-' ==> TrimRight(s) == s
  {
    assert (s + "-")[..|s + "-"| - 1] == s;
  }

  lemma {:induction false} TrimRightOfConcat(a: string, b: string)
    requires TrimRight(b) != ""
    ensures TrimRight(a + b) == a + TrimRight(b)
  {
    if b != "" && b[|b| - 1] == '-' {
      assert (a + b)[..|a + b| - 1] == a + b[..|b| - 1];
      TrimRightOfConcat(a, b[..|b| - 1]);
    }
  }

  /** What is left of a replaced text without hyphens around it. */
  function Bare(s: string): string {
    TrimRight(TrimLeft(s))
  }

  /** A text without hyphen in front, before and after a hyphen. */
  lemma BareOfParts(x: string, y: string)
    requires SingleHyphens(x) && (x != "" ==> x[|x| - 1] != '-') && SingleHyphens(y) && (y != "" ==> y[0] != '-')
    ensures Bare(x + "-" + y) == Hyphenated(Bare(x), Bare(y))
  {
    assert TrimLeft(y) == y;
    if x == "" {
      assert x + "-" + y == "-" + y && ("-" + y)[1..] == y;
    } else {
      var u := if x[0] == '-' then x[1..] else x;
      assert x[0] == '-' ==> |x| > 1 && x[1] != '-';
      assert TrimLeft(x) == u && u != "" && u[|u| - 1] == x[|x| - 1];
      assert TrimLeft(x + "-" + y) == u + "-" + y by {
        if x[0] == '-' {
          assert (x + "-" + y)[1..] == u + "-" + y && (u + "-" + y)[0] == u[0];
        }
      }
      TrimRightOfHyphen(u);
      if y == "" {
        assert u + "-" + y == u + "-";
      } else {
        TrimRightOfConcat(u + "-", y);
        assert u + "-" + y == (u + "-") + y;
      }
    }
  }

  lemma LowerOfConcat(a: string, b: string)
    ensures ToLower(a + b) == ToLower(a) + ToLower(b)
    ensures ToLower("-") == "-" && (ToLower(a) == "" <==> a == "")
  {
  }

  lemma ReplacedParts(a: string, c: char, b: string)
    requires !IsAlnum(c)
    ensures var x, y := ReplaceInvalid(a, false), ReplaceInvalid(b, true);
            ReplaceInvalid(a + [c] + b, false) == (if OpenAfter(a, false) then x else x + "-") + y
  {
    ReplaceConcat(a + [c], b, false);
    ReplaceConcat(a, [c], false);
    assert [c][1..] == "";
    assert (a + [c])[|a + [c]| - 1] == c;
    assert ReplaceInvalid([c], OpenAfter(a, false)) == if OpenAfter(a, false) then "" else "-";
  }

  lemma {:induction false} TrimLeftOfHyphen(s: string)
    ensures TrimLeft(s + "-") == (if TrimLeft(s) == "" then "" else TrimLeft(s) + "-")
  {
    if s != "" && s[0] == '-' {
      TrimLeftOfHyphen(s[1..]);
      assert (s + "-")[1..] == s[1..] + "-";
    } else if s == "" {
      assert s + "-" == "-" && "-"[1..] == "";
    }
  }

  lemma BareWithoutEnd(x: string, x': string)
    requires x == x' || x == x' + "-"
    ensures Bare(x) == Bare(x')
  {
    if x == x' + "-" {
      TrimLeftOfHyphen(x');
      TrimRightOfHyphen(TrimLeft(x'));
    }
  }

  /** Whether a run is open in front makes no difference to the bare form. */
  lemma BareBehindRun(b: string)
    ensures Bare(ReplaceInvalid(b, true)) == Bare(ReplaceInvalid(b, false))
  {
    if b != "" && !IsAlnum(b[0]) {
      var rest := ReplaceInvalid(b[1..], true);
      assert ReplaceInvalid(b, false) == "-" + rest && ("-" + rest)[1..] == rest;
    }
  }

  /** Any other character separates: what is before and after it is sanitized by itself, with
      one hyphen in between. */
  lemma SanitizeSeparates(a: string, c: char, b: string)
    requires !IsAlnum(c)
    ensures SanitizeName(a + [c] + b) == Hyphenated(SanitizeName(a), SanitizeName(b))
  {
    var x, y := ReplaceInvalid(a, false), ReplaceInvalid(b, true);
    ReplacedParts(a, c, b);
    ReplaceLeavesSingleHyphens(a, false);
    ReplaceLeavesSingleHyphens(b, true);
    OpenMeansHyphen(a, false);
    // the run that c belongs to is written as one hyphen behind x'
    var x' := if OpenAfter(a, false) then x[..|x| - 1] else x;
    assert OpenAfter(a, false) ==> a != "" && x == x' + "-";
    assert ReplaceInvalid(a + [c] + b, false) == x' + "-" + y;
    BareOfParts(x', y);
    BareWithoutEnd(x, x');
    BareBehindRun(b);
    LowerOfConcat(Bare(x) + "-", Bare(y));
    LowerOfConcat(Bare(x), "-");
  }

  /** Letters and digits stay, in lower case. */
  lemma {:induction false} SanitizeLowers(word: string)
    requires forall i :: 0 <= i < |word| ==> IsAlnum(word[i])
    ensures SanitizeName(word) == ToLower(word)
  {
    ReplaceKeepsSingleHyphens(word, false);
    assert TrimLeft(word) == word && TrimRight(word) == word;
  }
}
