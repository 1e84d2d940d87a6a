/** Go's lexical path operations (`filepath.Clean`, `Join`, `Rel`, `Base`, `Ext`) on
    slash-separated paths. `Clean` is a stack machine over the segments of a path. */
module Paths {
  import opened Common

  /** The segments of a string, after putting one more character in front of it. */
  function Prepend(c: char, segs: seq<string>): seq<string>
    requires segs != []
  {
    if c == '/' then [""] + segs else [[c] + segs[0]] + segs[1..]
  }

  /** strings.Split(s, "/") */
  function Split(s: string): (segs: seq<string>)
    ensures segs != []
  {
    if s == "" then [""] else Prepend(s[0], Split(s[1..]))
  }

  /** strings.Join(segs, "/") */
  function Join(segs: seq<string>): string {
    if segs == [] then ""
    else if |segs| == 1 then segs[0]
    else segs[0] + "/" + Join(segs[1..])
  }

  /** A name that denotes one entry of a directory. */
  predicate IsSegment(s: string) {
    s != "" && s != "." && s != ".." && '/' !in s
  }

  lemma {:induction false} SplitPlain(s: string)
    requires '/' !in s
    ensures Split(s) == [s]
  {
    if s != "" {
      SplitPlain(s[1..]);
      assert s[0] in s;
      assert [s[0]] + s[1..] == s;
    }
  }

  lemma PrependConcat(c: char, s: seq<string>, t: seq<string>)
    requires s != []
    ensures Prepend(c, s + t) == Prepend(c, s) + t
  {
    assert (s + t)[1..] == s[1..] + t;
  }

  lemma {:induction false} SplitConcat(a: string, b: string)
    ensures Split(a + "/" + b) == Split(a) + Split(b)
  {
    var whole := a + "/" + b;
    if a == "" {
      assert whole[1..] == b;
    } else {
      SplitConcat(a[1..], b);
      assert whole[1..] == a[1..] + "/" + b;
      PrependConcat(a[0], Split(a[1..]), Split(b));
    }
  }

  lemma SplitAtSlash(head: string, tail: string)
    requires '/' !in head
    ensures Split(head + "/" + tail) == [head] + Split(tail)
  {
    SplitConcat(head, tail);
    SplitPlain(head);
  }

  lemma {:induction false} SplitHasNoSlash(s: string)
    ensures forall i :: 0 <= i < |Split(s)| ==> '/' !in Split(s)[i]
  {
    if s != "" {
      SplitHasNoSlash(s[1..]);
    }
  }

  lemma {:induction false} SplitJoin(segs: seq<string>)
    requires segs != []
    requires forall i :: 0 <= i < |segs| ==> '/' !in segs[i]
    ensures Split(Join(segs)) == segs
  {
    if |segs| == 1 {
      SplitPlain(segs[0]);
    } else {
      SplitJoin(segs[1..]);
      SplitAtSlash(segs[0], Join(segs[1..]));
    }
  }

  lemma {:induction false} JoinOfSplit(s: string)
    ensures Join(Split(s)) == s
  {
    if s != "" {
      JoinOfSplit(s[1..]);
      var segs := Split(s[1..]);
      assert s == [s[0]] + s[1..];
      if s[0] == '/' {
        assert ([""] + segs)[1..] == segs;
      } else if |segs| > 1 {
        assert ([[s[0]] + segs[0]] + segs[1..])[1..] == segs[1..];
        assert [s[0]] + (segs[0] + "/" + Join(segs[1..])) == [s[0]] + segs[0] + "/" + Join(segs[1..]);
      }
    }
  }

  lemma {:induction false} JoinConcat(a: seq<string>, b: seq<string>)
    requires a != [] && b != []
    ensures Join(a + b) == Join(a) + "/" + Join(b)
  {
    assert (a + b)[1..] == a[1..] + b;
    if |a| > 1 {
      JoinConcat(a[1..], b);
    }
  }

  lemma JoinTwo(a: string, b: string)
    ensures Join([a, b]) == a + "/" + b
  {
    assert [a, b][1..] == [b];
  }

  lemma JoinThree(a: string, b: string, c: string)
    ensures Join([a, b, c]) == a + "/" + b + "/" + c
  {
    assert [a, b, c][1..] == [b, c];
    JoinTwo(b, c);
  }

  predicate Rooted(s: string) {
    s != "" && s[0] == '/'
  }

  /** One step of `Clean`: how a segment changes the stack of segments kept so far. */
  function Push(stack: seq<string>, seg: string, rooted: bool): seq<string> {
    if seg == "" || seg == "." then stack
    else if seg == ".." then
      if stack != [] && stack[|stack| - 1] != ".." then stack[..|stack| - 1]
      else if rooted then stack
      else stack + [".."]
    else stack + [seg]
  }

  function Run(stack: seq<string>, segs: seq<string>, rooted: bool): seq<string>
    decreases |segs|
  {
    if segs == [] then stack else Run(Push(stack, segs[0], rooted), segs[1..], rooted)
  }

  /** The segments of filepath.Clean(s). */
  function CleanSegs(s: string): seq<string> {
    Run([], Split(s), Rooted(s))
  }

  /** filepath.Clean */
  function Clean(s: string): string {
    if Rooted(s) then "/" + Join(CleanSegs(s))
    else if CleanSegs(s) == [] then "."
    else Join(CleanSegs(s))
  }

  /** The form `Clean` leaves: no empty or "." segment, and ".." only in front of a
      path that is not rooted. */
  predicate IsClean(segs: seq<string>, rooted: bool) {
    && (forall i :: 0 <= i < |segs| ==> segs[i] != "" && segs[i] != "." && '/' !in segs[i])
    && (forall i :: 0 <= i < |segs| && segs[i] == ".." ==> !rooted && (i > 0 ==> segs[i - 1] == ".."))
  }

  lemma {:induction false} RunIsClean(stack: seq<string>, segs: seq<string>, rooted: bool)
    requires IsClean(stack, rooted)
    requires forall i :: 0 <= i < |segs| ==> '/' !in segs[i]
    ensures IsClean(Run(stack, segs, rooted), rooted)
    decreases |segs|
  {
    if segs != [] {
      RunIsClean(Push(stack, segs[0], rooted), segs[1..], rooted);
    }
  }

  lemma CleanSegsIsClean(s: string)
    ensures IsClean(CleanSegs(s), Rooted(s))
  {
    SplitHasNoSlash(s);
    RunIsClean([], Split(s), Rooted(s));
  }

  /** In a clean path, everything after a segment other than ".." is not "..". */
  lemma {:induction false} NoDotsAfter(segs: seq<string>, rooted: bool, i: nat)
    requires IsClean(segs, rooted) && i < |segs|
    requires segs[0] != ".."
    ensures segs[i] != ".."
  {
    if i > 0 {
      NoDotsAfter(segs, rooted, i - 1);
    }
  }

  /** Appending clean segments without ".." only pushes. */
  lemma {:induction false} RunPushes(stack: seq<string>, segs: seq<string>, rooted: bool)
    requires forall i :: 0 <= i < |segs| ==> IsSegment(segs[i])
    ensures Run(stack, segs, rooted) == stack + segs
    decreases |segs|
  {
    if segs != [] {
      RunPushes(stack + [segs[0]], segs[1..], rooted);
      assert stack + [segs[0]] + segs[1..] == stack + segs;
    }
  }

  /** Running the machine over clean segments rebuilds them. */
  lemma {:induction false} RunRebuilds(done: seq<string>, segs: seq<string>, rooted: bool)
    requires IsClean(done + segs, rooted)
    ensures Run(done, segs, rooted) == done + segs
    decreases |segs|
  {
    if segs == [] {
      assert done + segs == done;
    } else {
      var all := done + segs;
      assert all[|done|] == segs[0];
      assert done != [] ==> all[|done| - 1] == done[|done| - 1];
      assert Push(done, segs[0], rooted) == done + [segs[0]];
      assert done + [segs[0]] + segs[1..] == all;
      RunRebuilds(done + [segs[0]], segs[1..], rooted);
    }
  }

  lemma {:induction false} RunConcat(stack: seq<string>, a: seq<string>, b: seq<string>, rooted: bool)
    ensures Run(stack, a + b, rooted) == Run(Run(stack, a, rooted), b, rooted)
    decreases |a|
  {
    if a == [] {
      assert a + b == b;
    } else {
      assert (a + b)[1..] == a[1..] + b;
      RunConcat(Push(stack, a[0], rooted), a[1..], b, rooted);
    }
  }

  lemma JoinStart(segs: seq<string>)
    requires segs != [] && forall i :: 0 <= i < |segs| ==> segs[i] != "" && '/' !in segs[i]
    ensures Join(segs) != "" && !Rooted(Join(segs))
  {
    assert Join(segs)[0] == segs[0][0];
    assert segs[0][0] in segs[0];
  }

  /** The clean form of an already clean, unrooted list of segments is the list. */
  lemma CleanOfJoin(segs: seq<string>)
    requires segs != [] && IsClean(segs, false)
    ensures CleanSegs(Join(segs)) == segs && Clean(Join(segs)) == Join(segs)
  {
    JoinStart(segs);
    SplitJoin(segs);
    assert [] + segs == segs;
    RunRebuilds([], segs, false);
  }

  lemma CleanIdempotent(s: string)
    ensures Clean(Clean(s)) == Clean(s)
    ensures CleanSegs(Clean(s)) == CleanSegs(s) && Rooted(Clean(s)) == Rooted(s)
  {
    var segs := CleanSegs(s);
    CleanSegsIsClean(s);
    if Rooted(s) {
      var joined := Join(segs);
      assert Clean(s)[1..] == joined && Clean(s)[0] == '/';
      SplitAtSlash("", joined);
      assert "" + "/" + joined == Clean(s);
      if segs == [] {
        assert Split("/") == ["", ""] by { SplitPlain(""); }
        assert Run([], ["", ""], true) == [] by {
          assert ["", ""][1..] == [""];
        }
      } else {
        SplitJoin(segs);
        assert ([""] + segs)[1..] == segs;
        assert [] + segs == segs;
        RunRebuilds([], segs, true);
      }
    } else if segs == [] {
      SplitPlain(".");
    } else {
      CleanOfJoin(segs);
    }
  }

  /** The path of a directory that is given as such. */
  type Root = s: string | s != "" witness "."

  /** filepath.Join(dir, path) for a non-empty directory. */
  function JoinPath(dir: string, path: string): string
    requires dir != ""
  {
    if path == "" then Clean(dir) else Clean(dir + "/" + path)
  }

  /** Once ".." is in front of an unrooted path it stays there. */
  lemma {:induction false} FrontDotsStay(stack: seq<string>, segs: seq<string>)
    requires stack != [] && stack[0] == ".."
    ensures var out := Run(stack, segs, false); out != [] && out[0] == ".."
    decreases |segs|
  {
    if segs != [] {
      FrontDotsStay(Push(stack, segs[0], false), segs[1..]);
    }
  }

  /** A run that ends without leading ".." never reaches below the stack it starts on. */
  lemma {:induction false} AppendRun(base: seq<string>, stack: seq<string>, segs: seq<string>, rooted: bool)
    requires stack == [] || stack[0] != ".."
    requires IsClean(stack, false)
    requires forall i :: 0 <= i < |segs| ==> '/' !in segs[i]
    requires var out := Run(stack, segs, false); out == [] || out[0] != ".."
    ensures Run(base + stack, segs, rooted) == base + Run(stack, segs, false)
    decreases |segs|
  {
    if segs != [] {
      var next := Push(stack, segs[0], false);
      if segs[0] == ".." && stack == [] {
        FrontDotsStay(next, segs[1..]);
      } else {
        if stack != [] { NoDotsAfter(stack, false, |stack| - 1); }
        assert Push(base + stack, segs[0], rooted) == base + next;
        AppendRun(base, next, segs[1..], rooted);
      }
    }
  }

  /** Joining an unrooted path without leading ".." appends its segments. */
  lemma JoinPathAppends(dir: string, path: string)
    requires dir != "" && path != ""
    requires !Rooted(path)
    requires CleanSegs(path) != [] ==> CleanSegs(path)[0] != ".."
    ensures CleanSegs(JoinPath(dir, path)) == CleanSegs(dir) + CleanSegs(path)
    ensures Rooted(JoinPath(dir, path)) == Rooted(dir)
  {
    var whole := dir + "/" + path;
    CleanIdempotent(whole);
    SplitConcat(dir, path);
    RunConcat([], Split(dir), Split(path), Rooted(dir));
    CleanSegsIsClean(path);
    SplitHasNoSlash(path);
    AppendRun(CleanSegs(dir), [], Split(path), Rooted(dir));
    assert CleanSegs(dir) + [] == CleanSegs(dir);
  }

  function CommonPrefix(a: seq<string>, b: seq<string>): (n: nat)
    ensures n <= |a| && n <= |b| && a[..n] == b[..n]
    ensures n < |a| && n < |b| ==> a[n] != b[n]
  {
    if a == [] || b == [] || a[0] != b[0] then 0
    else
      var n := CommonPrefix(a[1..], b[1..]);
      assert a[..n + 1] == [a[0]] + a[1..][..n];
      assert b[..n + 1] == [b[0]] + b[1..][..n];
      n + 1
  }

  /** filepath.Rel */
  function Rel(base: string, target: string): Option<string> {
    var b, t := CleanSegs(base), CleanSegs(target);
    var n := CommonPrefix(b, t);
    if Rooted(base) != Rooted(target) then None
    else if n < |b| && b[n] == ".." then None
    else
      var segs := seq(|b| - n, _ => "..") + t[n..];
      Some(if segs == [] then "." else Join(segs))
  }

  /** filepath.Base of a path that does not end in a slash. */
  function Base(s: string): string {
    var segs := Split(s);
    segs[|segs| - 1]
  }

  /** filepath.Ext: the suffix from the last dot of the last segment. */
  function Ext(s: string): string {
    if s == "" then ""
    else
      var rest := Ext(s[1..]);
      if rest != "" then rest
      else if s[0] == '.' && '/' !in s then s
      else ""
  }

  lemma {:induction false} NoDotNoExt(s: string)
    requires '.' !in s
    ensures Ext(s) == ""
  {
    if s != "" {
      NoDotNoExt(s[1..]);
      assert s[0] in s;
    }
  }

  lemma {:induction false} ExtOfConcat(name: string, ext: string)
    requires ext != "" && ext[0] == '.' && '.' !in ext[1..] && '/' !in ext
    ensures Ext(name + ext) == ext
  {
    if name == "" {
      assert name + ext == ext;
      NoDotNoExt(ext[1..]);
    } else {
      ExtOfConcat(name[1..], ext);
      assert (name + ext)[1..] == name[1..] + ext;
    }
  }

  // ---- What cleaning means -------------------------------------------------------------------

  lemma RunFrom(p: string, rest: string)
    requires p != ""
    ensures CleanSegs(p + "/" + rest) == Run(CleanSegs(p), Split(rest), Rooted(p))
    ensures Rooted(p + "/" + rest) == Rooted(p)
  {
    SplitConcat(p, rest);
    RunConcat([], Split(p), Split(rest), Rooted(p));
  }

  /** Descending into a directory adds its name; a dot or an empty segment changes nothing. */
  lemma CleanDescends(p: string, seg: string)
    requires p != "" && IsSegment(seg)
    ensures CleanSegs(p + "/" + seg) == CleanSegs(p) + [seg]
    ensures CleanSegs(p + "/.") == CleanSegs(p) == CleanSegs(p + "/")
  {
    RunFrom(p, seg);
    SplitPlain(seg);
    RunPushes(CleanSegs(p), [seg], Rooted(p));
    RunFrom(p, ".");
    SplitPlain(".");
    assert p + "/." == p + "/" + ".";
    RunFrom(p, "");
    assert p + "/" == p + "/" + "";
  }

  /** Going up undoes the last descent. */
  lemma CleanAscends(p: string, seg: string)
    requires p != "" && IsSegment(seg)
    ensures CleanSegs(p + "/" + seg + "/..") == CleanSegs(p)
  {
    var down := p + "/" + seg;
    CleanDescends(p, seg);
    RunFrom(down, "..");
    SplitPlain("..");
    assert down + "/.." == down + "/" + "..";
    var segs := CleanSegs(p) + [seg];
    assert segs[..|segs| - 1] == CleanSegs(p);
    assert Run(segs, [".."], Rooted(p)) == Run(Push(segs, "..", Rooted(p)), [], Rooted(p)) by {
      assert [".."][1..] == [];
    }
  }

  /** Above the root is the root; above a relative start the climb is recorded. */
  lemma CleanClimbs(p: string)
    requires p != "" && forall i :: 0 <= i < |CleanSegs(p)| ==> CleanSegs(p)[i] == ".."
    ensures CleanSegs(p + "/..") == CleanSegs(p) + if Rooted(p) then [] else [".."]
  {
    RunFrom(p, "..");
    SplitPlain("..");
    assert p + "/.." == p + "/" + "..";
    CleanSegsIsClean(p);
    var segs := CleanSegs(p);
    assert [".."][1..] == [];
    assert Run(segs, [".."], Rooted(p)) == Push(segs, "..", Rooted(p));
    assert segs + [] == segs;
  }

  /** The text of a clean path: its segments between slashes, and a dot for nothing. */
  lemma CleanText(p: string)
    ensures Rooted(p) ==> Clean(p) != "" && Clean(p)[0] == '/'
                          && (CleanSegs(p) != [] ==> Split(Clean(p)) == [""] + CleanSegs(p))
    ensures Rooted(p) && CleanSegs(p) == [] ==> Clean(p) == "/"
    ensures !Rooted(p) ==> if CleanSegs(p) == [] then Clean(p) == "." else Split(Clean(p)) == CleanSegs(p)
  {
    CleanSegsIsClean(p);
    if CleanSegs(p) != [] {
      SplitJoin(CleanSegs(p));
      if Rooted(p) {
        SplitAtSlash("", Join(CleanSegs(p)));
        assert "" + "/" + Join(CleanSegs(p)) == Clean(p);
      }
    }
  }

  /** The extension is the end of the name from its last dot, within its last segment. */
  lemma {:induction false} ExtIsSuffix(s: string)
    ensures Ext(s) != "" ==> |Ext(s)| <= |s| && s[|s| - |Ext(s)|..] == Ext(s) && Ext(s)[0] == '.'
                             && '/' !in Ext(s) && '.' !in Ext(s)[1..]
    ensures Ext(s) == "" ==> forall i :: 0 <= i < |s| && s[i] == '.' ==> '/' in s[i..]
  {
    if s != "" {
      ExtIsSuffix(s[1..]);
      if Ext(s[1..]) == "" {
        forall i | 0 <= i < |s| && s[i] == '.'
          ensures Ext(s) == "" ==> '/' in s[i..]
        {
          if i == 0 {
            assert s[0..] == s;
          } else {
            assert s[i..] == s[1..][i - 1..] && s[1..][i - 1] == '.';
          }
        }
        if Ext(s) != "" {
          assert '.' !in s[1..];
        }
      } else {
        var e := Ext(s[1..]);
        assert s[|s| - |e|..] == s[1..][|s[1..]| - |e|..];
      }
    }
  }
}
