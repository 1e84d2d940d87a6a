/** Extraction of a downloaded archive: which entry names are accepted and where they land,
    and the limits enforced while their contents are streamed. */
module Archive {
  import opened Common
  import opened Paths
  import opened FileSystem
  import opened Download
  import opened Document

  // ---- Entry names -----------------------------------------------------------------------

  predicate IsDrivePath(name: string) {
    |name| >= 2 && name[1] == ':' && ('a' <= name[0] <= 'z' || 'A' <= name[0] <= 'Z')
  }

  const MARKER := ".sha256"

  /** The checks on the name alone: not absolute, no drive letter, not the marker, not above. */
  predicate NameChecksPass(name: string) {
    && !("/" <= name) && !("\\" <= name) && !IsDrivePath(name)
    && Clean(name) != MARKER
    && !("../" <= Clean(name)) && Clean(name) != ".."
  }

  /** The last check: the target relative to the destination does not start with "..". */
  predicate RelCheckPasses(dest: string, name: string)
    requires dest != ""
  {
    match Rel(dest, JoinPath(dest, Clean(name)))
    case None => false
    case Some(rel) => !(".." <= rel)
  }

  /** The name is accepted, by its own segments. */
  predicate NameAccepted(name: string) {
    NameChecksPass(name) && (CleanSegs(name) != [] ==> !(".." <= CleanSegs(name)[0]))
  }

  lemma CommonPrefixOfExtension(base: seq<string>, more: seq<string>)
    ensures CommonPrefix(base, base + more) == |base|
  {
    if base != [] {
      CommonPrefixOfExtension(base[1..], more);
      assert (base + more)[1..] == base[1..] + more;
    }
  }

  lemma ClimbingJoin(segs: seq<string>)
    requires segs != []
    ensures segs[0] == ".." ==> Join(segs) == ".." || "../" <= Join(segs)
  {
    if |segs| > 1 && segs[0] == ".." {
      assert Join(segs) == "../" + Join(segs[1..]);
    }
  }

  /** Names that pass their own checks stay below: no segment of theirs climbs. */
  lemma CheckedSegments(name: string)
    requires NameChecksPass(name)
    ensures !Rooted(name) && forall i :: 0 <= i < |CleanSegs(name)| ==> IsSegment(CleanSegs(name)[i])
  {
    var segs := CleanSegs(name);
    CleanSegsIsClean(name);
    if segs != [] {
      ClimbingJoin(segs);
      forall i | 0 <= i < |segs|
        ensures IsSegment(segs[i])
      {
        NoDotsAfter(segs, false, i);
      }
    }
  }

  /** A clean path that climbs has ".." as its first segment. */
  lemma DotsFirst(segs: seq<string>)
    requires segs != [] && forall i :: 0 <= i < |segs| ==> '/' !in segs[i]
    ensures "../" <= Join(segs) || Join(segs) == ".." ==> segs[0] == ".."
  {
    SplitJoin(segs);
    if "../" <= Join(segs) {
      SplitAtSlash("..", Join(segs)[3..]);
      assert Join(segs) == ".." + "/" + Join(segs)[3..];
    } else if Join(segs) == ".." {
      SplitPlain("..");
    }
  }

  /** Which names are accepted, by their first characters and their own segments. */
  lemma NameAcceptedIff(name: string)
    ensures NameAccepted(name) <==>
      && (name != "" ==> name[0] != '/' && name[0] != '\\')
      && !(|name| > 1 && name[1] == ':' && ('A' <= name[0] <= 'Z' || 'a' <= name[0] <= 'z'))
      && CleanSegs(name) != [".sha256"]
      && (CleanSegs(name) != [] && |CleanSegs(name)[0]| >= 2 ==> CleanSegs(name)[0][..2] != "..")
  {
    var segs := CleanSegs(name);
    CleanSegsIsClean(name);
    assert "/" <= name <==> name != "" && name[0] == '/';
    assert "\\" <= name <==> name != "" && name[0] == '\\';
    assert segs != [] ==> (".." <= segs[0] <==> |segs[0]| >= 2 && segs[0][..2] == "..");
    if !Rooted(name) {
      SplitPlain(".sha256");
      SplitPlain(".");
      if segs != [] {
        SplitJoin(segs);
        DotsFirst(segs);
      }
    }
  }

  lemma JoinStartsWithDots(segs: seq<string>)
    requires segs != [] && segs[0] != ""
    ensures ".." <= Join(segs) <==> ".." <= segs[0]
  {
    if |segs| > 1 {
      var rest := "/" + Join(segs[1..]);
      assert Join(segs) == segs[0] + rest;
      if |segs[0]| == 1 {
        assert (segs[0] + rest)[1] == '/';
      }
    }
  }

  /** Path containment: the target of a name that passes its own checks is the destination
      followed by the name's segments; the last check then rejects exactly the names whose
      first segment starts with "..", wherever the destination is. */
  lemma TargetIsBelow(dest: string, name: string)
    requires dest != "" && NameChecksPass(name)
    ensures CleanSegs(JoinPath(dest, Clean(name))) == CleanSegs(dest) + CleanSegs(name)
    ensures RelCheckPasses(dest, name) <==> NameAccepted(name)
  {
    var segs := CleanSegs(name);
    CheckedSegments(name);
    CleanIdempotent(name);
    JoinPathAppends(dest, Clean(name));
    CommonPrefixOfExtension(CleanSegs(dest), segs);
    var base, target := CleanSegs(dest), CleanSegs(JoinPath(dest, Clean(name)));
    assert target[|base|..] == segs;
    assert seq(0, _ => "..") + segs == segs;
    if segs != [] {
      JoinStartsWithDots(segs);
    }
  }

  lemma PromptsPrefix(segs: seq<string>, rest: string)
    requires segs != [] && Join(segs) == "prompts" + "/" + rest
    requires forall i :: 0 <= i < |segs| ==> '/' !in segs[i]
    ensures |segs| >= 2 && segs[0] == "prompts"
  {
    SplitAtSlash("prompts", rest);
    SplitJoin(segs);
  }

  /** The prompt reader's prefix check admits exactly the references whose clean form lies
      strictly below `prompts/`, and such a form does not climb. */
  lemma PromptCheckContains(ref: string)
    ensures PROMPTS <= Clean(ref) <==> !Rooted(ref) && |CleanSegs(ref)| >= 2 && CleanSegs(ref)[0] == "prompts"
    ensures PROMPTS <= Clean(ref) ==> forall i :: 0 <= i < |CleanSegs(ref)| ==> IsSegment(CleanSegs(ref)[i])
  {
    var segs := CleanSegs(ref);
    CleanSegsIsClean(ref);
    if !Rooted(ref) && segs != [] {
      if |segs| >= 2 && segs[0] == "prompts" {
        assert Join(segs) == "prompts" + "/" + Join(segs[1..]);
        assert Join(segs)[..8] == PROMPTS;
        forall i | 0 <= i < |segs|
          ensures IsSegment(segs[i])
        {
          NoDotsAfter(segs, false, i);
        }
      } else if PROMPTS <= Join(segs) {
        assert Join(segs) == PROMPTS + Join(segs)[|PROMPTS|..];
        PromptsPrefix(segs, Join(segs)[|PROMPTS|..]);
      }
    }
  }

  // ---- Trees -------------------------------------------------------------------------------

  type Tree = map<string, Node>

  /** os.MkdirAll; fails where a file stands in the way. */
  function MkdirAll(tree: Tree, path: seq<string>): Option<Tree>
    decreases |path|
  {
    if path == [] then Some(tree)
    else if path[0] !in tree then
      match MkdirAll(map[], path[1..])
      case None => None
      case Some(inner) => Some(tree[path[0] := Folder(inner)])
    else
      match tree[path[0]]
      case File(_) => None
      case Folder(entries) =>
        match MkdirAll(entries, path[1..])
        case None => None
        case Some(inner) => Some(tree[path[0] := Folder(inner)])
  }

  /** os.Create and Write: the file holds exactly this data; the parent must exist and the
      path must not be a directory. */
  function PutFile(tree: Tree, path: seq<string>, data: Bytes): Option<Tree>
    decreases |path|
  {
    if path == [] then None
    else if |path| == 1 then
      if path[0] in tree && tree[path[0]].Folder? then None else Some(tree[path[0] := File(data)])
    else if path[0] in tree && tree[path[0]].Folder? then
      match PutFile(tree[path[0]].entries, path[1..], data)
      case None => None
      case Some(inner) => Some(tree[path[0] := Folder(inner)])
    else None
  }

  /** Writing again to the file just created replaces its data. */
  lemma {:induction false} PutTwice(tree: Tree, path: seq<string>, first: Bytes, second: Bytes)
    ensures match PutFile(tree, path, first)
            case None => PutFile(tree, path, second).None?
            case Some(once) =>
              PutFile(tree, path, second).Some? && PutFile(once, path, second) == PutFile(tree, path, second)
    decreases |path|
  {
    if |path| == 1 {
      assert tree[path[0] := File(first)][path[0] := File(second)] == tree[path[0] := File(second)];
    } else if |path| > 1 && path[0] in tree && tree[path[0]].Folder? {
      PutTwice(tree[path[0]].entries, path[1..], first, second);
      match PutFile(tree[path[0]].entries, path[1..], first)
      case None =>
      case Some(inner) =>
        var last := PutFile(tree[path[0]].entries, path[1..], second).value;
        assert tree[path[0] := Folder(inner)][path[0] := Folder(last)] == tree[path[0] := Folder(last)];
    }
  }

  // ---- What a tree holds -------------------------------------------------------------------

  function FileAt(tree: Tree, path: seq<string>): Option<Bytes>
    decreases |path|
  {
    if path == [] || path[0] !in tree then None
    else
      match tree[path[0]]
      case File(data) => if |path| == 1 then Some(data) else None
      case Folder(entries) => FileAt(entries, path[1..])
  }

  predicate IsDirAt(tree: Tree, path: seq<string>)
    decreases |path|
  {
    path != [] ==> path[0] in tree && tree[path[0]].Folder? && IsDirAt(tree[path[0]].entries, path[1..])
  }

  lemma {:induction false} NothingInEmpty(path: seq<string>)
    ensures FileAt(map[], path).None? && (IsDirAt(map[], path) <==> path == [])
  {
  }

  /** Making directories keeps all files and adds the directories on the way. */
  lemma {:induction false} MkdirAllAt(tree: Tree, path: seq<string>, q: seq<string>)
    requires MkdirAll(tree, path).Some?
    ensures var made := MkdirAll(tree, path).value;
            FileAt(made, q) == FileAt(tree, q) && (IsDirAt(made, q) <==> IsDirAt(tree, q) || q <= path)
    decreases |path|
  {
    if path == [] {
      assert q <= path ==> q == [];
    } else if q != [] && q[0] == path[0] {
      var inner := if path[0] in tree then tree[path[0]].entries else map[];
      MkdirAllAt(inner, path[1..], q[1..]);
      NothingInEmpty(q[1..]);
      assert q <= path <==> q[1..] <= path[1..] by {
        assert q == [q[0]] + q[1..] && path == [path[0]] + path[1..];
      }
    } else {
      assert q != [] ==> !(q <= path);
    }
  }

  /** It succeeds exactly if no file stands in the way. */
  lemma {:induction false} MkdirAllSucceedsIff(tree: Tree, path: seq<string>)
    ensures MkdirAll(tree, path).Some? <==> forall n :: 0 <= n <= |path| ==> FileAt(tree, path[..n]).None?
    decreases |path|
  {
    if path != [] {
      var inner: Tree := if path[0] in tree && tree[path[0]].Folder? then tree[path[0]].entries else map[];
      MkdirAllSucceedsIff(inner, path[1..]);
      forall n | 0 < n <= |path|
        ensures path[..n][0] == path[0] && path[..n][1..] == path[1..][..n - 1]
      {
      }
      if path[0] in tree && tree[path[0]].File? {
        assert FileAt(tree, path[..1]).Some?;
      } else {
        forall n | 0 < n <= |path|
          ensures FileAt(tree, path[..n]) == FileAt(inner, path[1..][..n - 1])
        {
          NothingInEmpty(path[1..][..n - 1]);
        }
        if n :| 0 <= n <= |path| && FileAt(tree, path[..n]).Some? {
          assert FileAt(inner, path[1..][..n - 1]).Some?;
        }
        if n :| 0 <= n <= |path[1..]| && FileAt(inner, path[1..][..n]).Some? {
          assert FileAt(tree, path[..n + 1]).Some?;
        }
      }
    }
  }

  /** A file appears at its path, in an existing directory and not over one. */
  lemma {:induction false} PutFileAt(tree: Tree, path: seq<string>, data: Bytes, q: seq<string>)
    ensures PutFile(tree, path, data).Some? <==>
            path != [] && IsDirAt(tree, path[..|path| - 1]) && !IsDirAt(tree, path)
    ensures PutFile(tree, path, data).Some? ==>
      var put := PutFile(tree, path, data).value;
      && FileAt(put, q) == (if q == path then Some(data) else FileAt(tree, q))
      && (IsDirAt(put, q) <==> IsDirAt(tree, q))
    decreases |path|
  {
    if |path| == 1 {
      assert path[1..] == [] && path[..0] == [];
      assert q != [] && q[0] == path[0] && |q| == 1 ==> q == path;
    } else if |path| > 1 {
      assert path[..|path| - 1][1..] == path[1..][..|path[1..]| - 1] && path[..|path| - 1][0] == path[0];
      if path[0] in tree && tree[path[0]].Folder? {
        PutFileAt(tree[path[0]].entries, path[1..], data, if q == [] then [] else q[1..]);
        assert q != [] && q[0] == path[0] ==> (q == path <==> q[1..] == path[1..]) by {
          assert path == [path[0]] + path[1..];
          assert q != [] ==> q == [q[0]] + q[1..];
        }
      }
    }
  }

  // ---- Extraction --------------------------------------------------------------------------

  datatype ZipEntry = ZipEntry(name: string, isDir: bool, stream: Stream)

  datatype Limits = Limits(entryMax: int, totalMax: int, maxFiles: int)

  datatype ExtractError = ZipSlip | SizeExceeded | BrokenEntry | LocalFault

  function SizeOf(e: ZipEntry): nat {
    if e.isDir then 0 else |BodyOf(e.stream)|
  }

  function TotalSize(entries: seq<ZipEntry>): nat {
    if entries == [] then 0 else TotalSize(entries[..|entries| - 1]) + SizeOf(entries[|entries| - 1])
  }

  /** The directories an entry needs: itself, or the parent of its file. */
  function Prepared(tree: Tree, path: seq<string>, isDir: bool): Option<Tree> {
    MkdirAll(tree, if isDir || path == [] then path else path[..|path| - 1])
  }

  /** The tree with a file of this content, in directories made as needed. */
  function WithFile(tree: Tree, path: seq<string>, data: Bytes): Option<Tree> {
    match Prepared(tree, path, false)
    case None => None
    case Some(made) => PutFile(made, path, data)
  }

  /** The tree after one more entry, regardless of limits. */
  function Extracted(tree: Tree, e: ZipEntry): Option<Tree> {
    if !NameAccepted(e.name) then None
    else if e.isDir then Prepared(tree, CleanSegs(e.name), true)
    else if IsBroken(e.stream) then None
    else WithFile(tree, CleanSegs(e.name), BodyOf(e.stream))
  }

  /** The entry is a file that lands at this path. */
  predicate IsFileAt(e: ZipEntry, q: seq<string>) {
    !e.isDir && CleanSegs(e.name) == q
  }

  /** The entry needs a directory at this path. */
  predicate NeedsDirAt(e: ZipEntry, q: seq<string>) {
    if e.isDir then q <= CleanSegs(e.name) else q < CleanSegs(e.name)
  }

  /** One entry: a file appears under its whole name with its whole content, or a directory;
      with the directories on the way, and nothing else changes. */
  lemma ExtractedAt(tree: Tree, e: ZipEntry, q: seq<string>)
    requires Extracted(tree, e).Some?
    ensures var next := Extracted(tree, e).value;
            && FileAt(next, q) == (if IsFileAt(e, q) then Some(BodyOf(e.stream)) else FileAt(tree, q))
            && (IsDirAt(next, q) <==> IsDirAt(tree, q) || NeedsDirAt(e, q))
  {
    var path := CleanSegs(e.name);
    if e.isDir {
      MkdirAllAt(tree, path, q);
    } else {
      var parent := if path == [] then path else path[..|path| - 1];
      var made := MkdirAll(tree, parent).value;
      MkdirAllAt(tree, parent, q);
      PutFileAt(made, path, BodyOf(e.stream), q);
      assert path == parent + [path[|path| - 1]];
      assert q < path <==> q <= parent;
    }
  }

  /** An entry can be extracted exactly if its name is accepted, no file is on its way, and, for a
      file, its stream is whole and no directory stands at its path. */
  lemma ExtractedIff(tree: Tree, e: ZipEntry)
    ensures Extracted(tree, e).Some? <==>
      && NameAccepted(e.name)
      && (forall q :: NeedsDirAt(e, q) ==> FileAt(tree, q).None?)
      && (e.isDir || (!IsBroken(e.stream) && CleanSegs(e.name) != [] && !IsDirAt(tree, CleanSegs(e.name))))
  {
    var path := CleanSegs(e.name);
    var dirs := if e.isDir || path == [] then path else path[..|path| - 1];
    MkdirAllSucceedsIff(tree, dirs);
    assert path != [] ==> path == path[..|path| - 1] + [path[|path| - 1]];
    forall q
      ensures e.isDir || path != [] ==> (NeedsDirAt(e, q) <==> q <= dirs)
    {
    }
    assert forall n :: 0 <= n <= |dirs| ==> dirs[..n] <= dirs;
    assert forall q :: q <= dirs ==> q == dirs[..|q|];
    if !e.isDir && path != [] && MkdirAll(tree, dirs).Some? {
      var made := MkdirAll(tree, dirs).value;
      MkdirAllAt(tree, dirs, dirs);
      MkdirAllAt(tree, dirs, path);
      PutFileAt(made, path, BodyOf(e.stream), path);
    }
  }

  /** Entries applied one after the other, up to the first that is refused. */
  function ExtractAll(step: (Tree, ZipEntry) -> Option<Tree>, entries: seq<ZipEntry>): Option<Tree> {
    if entries == [] then Some(map[])
    else
      match ExtractAll(step, entries[..|entries| - 1])
      case None => None
      case Some(tree) => step(tree, entries[|entries| - 1])
  }

  /** The tree of a whole archive, regardless of limits. */
  function Extraction(entries: seq<ZipEntry>): Option<Tree> {
    ExtractAll(Extracted, entries)
  }

  /** Entry i is the last file entry that lands at this path. */
  predicate IsLastFileAt(entries: seq<ZipEntry>, q: seq<string>, i: int) {
    0 <= i < |entries| && IsFileAt(entries[i], q) && forall j :: i < j < |entries| ==> !IsFileAt(entries[j], q)
  }

  /** The content of the extracted files: at each path the body of the last file entry of that
      name, with all its segments, and no file where there is no such entry. */
  lemma {:induction false} ExtractionFiles(entries: seq<ZipEntry>, q: seq<string>)
    requires Extraction(entries).Some?
    ensures match FileAt(Extraction(entries).value, q)
            case None => forall i :: 0 <= i < |entries| ==> !IsFileAt(entries[i], q)
            case Some(data) => exists i :: IsLastFileAt(entries, q, i) && data == BodyOf(entries[i].stream)
  {
    hide Extracted, IsFileAt;
    if entries == [] {
      NothingInEmpty(q);
    } else {
      var n := |entries| - 1;
      var init, last := entries[..n], entries[n];
      ExtractionFiles(init, q);
      var tree := Extraction(init).value;
      ExtractedAt(tree, last, q);
      assert forall i :: 0 <= i < n ==> init[i] == entries[i];
      if IsFileAt(last, q) {
        assert IsLastFileAt(entries, q, n);
      } else if FileAt(tree, q).Some? {
        var i :| IsLastFileAt(init, q, i) && FileAt(tree, q).value == BodyOf(init[i].stream);
        assert IsLastFileAt(entries, q, i);
      }
    }
  }

  /** The extracted directories: those that an entry names or needs. */
  lemma {:induction false} ExtractionDirs(entries: seq<ZipEntry>, q: seq<string>)
    requires Extraction(entries).Some?
    ensures IsDirAt(Extraction(entries).value, q) <==>
            q == [] || exists i :: 0 <= i < |entries| && NeedsDirAt(entries[i], q)
  {
    hide Extracted;
    if entries == [] {
      NothingInEmpty(q);
    } else {
      var n := |entries| - 1;
      var init, last := entries[..n], entries[n];
      ExtractionDirs(init, q);
      ExtractedAt(Extraction(init).value, last, q);
      assert forall i :: 0 <= i < n ==> init[i] == entries[i];
    }
  }

  /** An entry that can be extracted on its own. */
  predicate IsSoundEntry(e: ZipEntry) {
    NameAccepted(e.name) && (e.isDir || (!IsBroken(e.stream) && CleanSegs(e.name) != []))
  }

  /** One entry puts a file where the other one needs a directory. */
  predicate Clash(e: ZipEntry, f: ZipEntry) {
    !e.isDir && NeedsDirAt(f, CleanSegs(e.name))
  }

  predicate NoClashes(entries: seq<ZipEntry>) {
    forall i, j {:trigger Clash(entries[i], entries[j])} ::
      0 <= i < |entries| && 0 <= j < |entries| ==> !Clash(entries[i], entries[j])
  }

  lemma NextExtractsIff(entries: seq<ZipEntry>, e: ZipEntry)
    requires Extraction(entries).Some?
    ensures Extracted(Extraction(entries).value, e).Some? <==>
      IsSoundEntry(e) && forall i :: 0 <= i < |entries| ==> !Clash(entries[i], e) && !Clash(e, entries[i])
  {
    hide Extraction, NameAccepted, Extracted;
    var tree := Extraction(entries).value;
    ExtractedIff(tree, e);
    if q :| NeedsDirAt(e, q) && FileAt(tree, q).Some? {
      ExtractionFiles(entries, q);
      var i :| IsLastFileAt(entries, q, i);
      assert Clash(entries[i], e);
    }
    if i :| 0 <= i < |entries| && Clash(entries[i], e) {
      ExtractionFiles(entries, CleanSegs(entries[i].name));
      assert IsFileAt(entries[i], CleanSegs(entries[i].name));
    }
    ExtractionDirs(entries, CleanSegs(e.name));
  }

  lemma NoSelfClash(e: ZipEntry)
    ensures !Clash(e, e)
  {
  }

  /** An archive can be extracted exactly if each entry can and none puts a file where another one
      needs a directory; the order of its entries does not matter. */
  lemma {:induction false} ExtractionIff(entries: seq<ZipEntry>)
    ensures Extraction(entries).Some? <==>
      (forall i :: 0 <= i < |entries| ==> IsSoundEntry(entries[i])) && NoClashes(entries)
  {
    hide Clash, IsSoundEntry, Extracted;
    if entries != [] {
      var n := |entries| - 1;
      var init, last := entries[..n], entries[n];
      ExtractionIff(init);
      assert forall i :: 0 <= i < n ==> init[i] == entries[i];
      assert !Clash(last, last) by { NoSelfClash(last); }
      if Extraction(init).Some? {
        NextExtractsIff(init, last);
      }
    }
  }

  /** Non-positive limits mean unlimited. */
  predicate Within(size: int, limit: int) {
    limit > 0 ==> size <= limit
  }

  predicate EntriesFit(limits: Limits, entries: seq<ZipEntry>, n: nat)
    requires n <= |entries|
  {
    forall j :: 0 <= j < n ==> Within(SizeOf(entries[j]), limits.entryMax)
  }

  lemma EntriesFitStep(limits: Limits, entries: seq<ZipEntry>, i: nat)
    requires i < |entries| && EntriesFit(limits, entries, i) && Within(SizeOf(entries[i]), limits.entryMax)
    ensures EntriesFit(limits, entries, i + 1)
  {
  }

  predicate Fits(limits: Limits, entries: seq<ZipEntry>) {
    && Within(|entries|, limits.maxFiles)
    && EntriesFit(limits, entries, |entries|)
    && Within(TotalSize(entries), limits.totalMax)
  }

  /** The int64 counters cannot wrap. */
  predicate CountersFit(limits: Limits, entries: seq<ZipEntry>) {
    0 < limits.totalMax <= INT64_MAX - BUFFER || TotalSize(entries) <= INT64_MAX
  }

  lemma TotalStep(entries: seq<ZipEntry>, i: nat)
    requires i < |entries|
    ensures TotalSize(entries[..i + 1]) == TotalSize(entries[..i]) + SizeOf(entries[i])
  {
    assert entries[..i + 1][..i] == entries[..i];
  }

  lemma {:induction false} PrefixTotals(entries: seq<ZipEntry>, n: nat)
    requires n <= |entries|
    ensures TotalSize(entries[..n]) <= TotalSize(entries)
    decreases |entries| - n
  {
    if n < |entries| {
      PrefixTotals(entries, n + 1);
      TotalStep(entries, n);
    } else {
      assert entries[..n] == entries;
    }
  }

  lemma ExtractionStep(step: (Tree, ZipEntry) -> Option<Tree>, entries: seq<ZipEntry>, i: nat)
    requires i < |entries|
    ensures ExtractAll(step, entries[..i + 1]) ==
            match ExtractAll(step, entries[..i])
            case None => None
            case Some(tree) => step(tree, entries[i])
  {
    assert entries[..i + 1][..i] == entries[..i];
  }

  lemma {:induction false} PrefixExtraction(step: (Tree, ZipEntry) -> Option<Tree>, entries: seq<ZipEntry>, n: nat)
    requires n <= |entries| && ExtractAll(step, entries).Some?
    ensures ExtractAll(step, entries[..n]).Some?
    decreases |entries| - n
  {
    if n < |entries| {
      PrefixExtraction(step, entries, n + 1);
      ExtractionStep(step, entries, n);
    } else {
      assert entries[..n] == entries;
    }
  }

  /** Every entry of an acceptable archive can be extracted after those before it. */
  lemma EntryExtracts(step: (Tree, ZipEntry) -> Option<Tree>, entries: seq<ZipEntry>, i: nat)
    requires i < |entries| && ExtractAll(step, entries).Some?
    ensures ExtractAll(step, entries[..i]).Some? && step(ExtractAll(step, entries[..i]).value, entries[i]).Some?
  {
    PrefixExtraction(step, entries, i);
    PrefixExtraction(step, entries, i + 1);
    ExtractionStep(step, entries, i);
  }

  // ---- Streaming with limits ---------------------------------------------------------------

  /** The counters are exact while one more stream of this size is added. */
  predicate CounterRoom(limits: Limits, total: int, size: nat) {
    0 <= total && ((0 < limits.totalMax <= INT64_MAX - BUFFER && total <= limits.totalMax) || total + size <= INT64_MAX)
  }

  /** The read loop of extractEntry. `total` counts the bytes written for the whole archive. */
  method CopyStream(stream: Stream, limits: Limits, total: int)
    returns (result: Result<Bytes, ExtractError>, total': int, faulted: bool)
    ensures result.Ok? ==> !faulted && result.value == BodyOf(stream) && !IsBroken(stream)
    ensures CounterRoom(limits, total, |BodyOf(stream)|) ==>
      var size := |BodyOf(stream)|;
      && total <= total' <= total + size && (Within(total, limits.totalMax) ==> Within(total', limits.totalMax))
      && (result.Ok? ==> total' == total + size && Within(size, limits.entryMax)
                         && (size > 0 ==> Within(total', limits.totalMax)))
      && (result.Err? && !faulted ==>
          IsBroken(stream) || !Within(size, limits.entryMax) || !Within(total + size, limits.totalMax))
  {
    ghost var body := BodyOf(stream);
    ghost var room := CounterRoom(limits, total, |body|);
    total', faulted := total, false;
    var entryWritten, content: Bytes, i := 0, "", 0;
    while true
      invariant i <= |stream| && OnlyMore(stream, i) && content == Taken(stream, i) && content <= body && !faulted
      invariant room ==> entryWritten == |content| && total' == total + |content|
      invariant room ==> Within(|content|, limits.entryMax) && (content != "" ==> Within(total', limits.totalMax))
      decreases |stream| - i
    {
      var chunk := At(stream, i);
      ChunkStep(stream, i);
      assert chunk.data == "" ==> content + chunk.data == content;
      if |chunk.data| > 0 {
        if room {
          Add64IsExact(|content|, |chunk.data|);
          Add64IsExact(total', |chunk.data|);
        }
        entryWritten := Add64(entryWritten, |chunk.data|);
        if limits.entryMax > 0 && entryWritten > limits.entryMax {
          return Err(SizeExceeded), total', false;
        }
        var next := Add64(total', |chunk.data|);
        if limits.totalMax > 0 && next > limits.totalMax {
          return Err(SizeExceeded), total', false;
        }
        var writeFails: bool, part: nat := *, *;
        if writeFails {
          return Err(LocalFault), if part <= |chunk.data| then total' + part else total', true;
        }
        total' := next;
        content := content + chunk.data;
      }
      if chunk.end.Eof? {
        break;
      }
      if chunk.end.Broken? {
        return Err(BrokenEntry), total', false;
      }
      i := i + 1;
    }
    result := Ok(content);
  }

  /** The checks on an entry's name accept it independently of the destination. */
  method CheckName(dest: string, name: string) returns (ok: bool)
    requires dest != ""
    ensures ok <==> NameAccepted(name)
  {
    if !NameChecksPass(name) {
      return false;
    }
    TargetIsBelow(dest, name);
    ok := RelCheckPasses(dest, name);
  }

  /** How an entry of this size ends: it yields the tree it should and fits, or it does not. */
  predicate EntryOutcome(limits: Limits, size: nat, total: int, expected: Option<Tree>,
                         result: Result<Tree, ExtractError>, total': int, faulted: bool)
  {
    && total <= total' <= total + size
    && (Within(total, limits.totalMax) ==> Within(total', limits.totalMax))
    && (result.Ok? ==> expected == Some(result.value) && total' == total + size && Within(size, limits.entryMax))
    && (result.Err? && !faulted ==>
         expected.None? || !Within(size, limits.entryMax) || !Within(total + size, limits.totalMax))
  }

  /** Creates the file and copies the entry into it. */
  method ExtractFile(e: ZipEntry, path: seq<string>, limits: Limits, tree: Tree, total: int)
    returns (result: Result<Tree, ExtractError>, total': int, faulted: bool)
    ensures result.Ok? ==>
      !faulted && !IsBroken(e.stream) && WithFile(tree, path, BodyOf(e.stream)) == Some(result.value)
    ensures CounterRoom(limits, total, |BodyOf(e.stream)|) ==>
      EntryOutcome(limits, |BodyOf(e.stream)|, total,
                   if IsBroken(e.stream) then None else WithFile(tree, path, BodyOf(e.stream)),
                   result, total', faulted)
  {
    var made := Prepared(tree, path, false);
    if made.None? {
      return Err(LocalFault), total, false;
    }
    PutTwice(made.value, path, "", BodyOf(e.stream));
    if PutFile(made.value, path, "").None? {
      return Err(LocalFault), total, false;
    }
    var content;
    content, total', faulted := CopyStream(e.stream, limits, total);
    if content.Err? {
      return Err(content.error), total', faulted;
    }
    PutTwice(made.value, path, "", content.value);
    result := Ok(PutFile(made.value, path, content.value).value);
  }

  /** extractEntry */
  method ExtractEntry(dest: string, e: ZipEntry, limits: Limits, tree: Tree, total: int)
    returns (result: Result<Tree, ExtractError>, total': int, faulted: bool)
    requires dest != ""
    ensures result.Ok? ==> !faulted && Extracted(tree, e) == Some(result.value)
    ensures CounterRoom(limits, total, SizeOf(e)) ==>
      EntryOutcome(limits, SizeOf(e), total, Extracted(tree, e), result, total', faulted)
  {
    var accepted := CheckName(dest, e.name);
    if !accepted {
      return Err(ZipSlip), total, false;
    }
    var fails: bool := *;
    if fails {
      return Err(LocalFault), total, true;
    }
    var path := CleanSegs(e.name);
    if e.isDir {
      var made := Prepared(tree, path, true);
      return if made.None? then Err(LocalFault) else Ok(made.value), total, false;
    }
    result, total', faulted := ExtractFile(e, path, limits, tree, total);
  }

  lemma EntryFits(limits: Limits, entries: seq<ZipEntry>, i: nat)
    requires i < |entries| && Fits(limits, entries)
    ensures Within(SizeOf(entries[i]), limits.entryMax)
    ensures Within(TotalSize(entries[..i]) + SizeOf(entries[i]), limits.totalMax)
  {
    TotalStep(entries, i);
    PrefixTotals(entries, i + 1);
  }

  lemma RoomForEntry(limits: Limits, entries: seq<ZipEntry>, i: nat)
    requires CountersFit(limits, entries) && i < |entries| && Within(TotalSize(entries[..i]), limits.totalMax)
    ensures CounterRoom(limits, TotalSize(entries[..i]), SizeOf(entries[i]))
    ensures TotalSize(entries[..i]) + SizeOf(entries[i]) == TotalSize(entries[..i + 1]) <= TotalSize(entries)
  {
    TotalStep(entries, i);
    PrefixTotals(entries, i + 1);
  }

  /** extractZip: without local faults it succeeds exactly when the archive is acceptable and
      fits the limits, for every way its entries are split into chunks; and it never writes
      more than the positive total limit, even when it fails. */
  method ExtractZip(dest: string, entries: seq<ZipEntry>, limits: Limits)
    returns (result: Result<Tree, ExtractError>, written: int, faulted: bool)
    requires dest != ""
    ensures result.Ok? ==> !faulted && Extraction(entries) == Some(result.value)
    ensures CountersFit(limits, entries) ==>
      && (result.Ok? ==> Fits(limits, entries))
      && (!faulted ==> (result.Ok? <==> Extraction(entries).Some? && Fits(limits, entries)))
      && Within(written, limits.totalMax) && written <= TotalSize(entries)
  {
    var tree: Tree := map[];
    written, faulted := 0, false;
    ghost var fit := CountersFit(limits, entries);
    var totalFiles := 0;
    for i := 0 to |entries|
      invariant totalFiles == i && !faulted && Within(i, limits.maxFiles)
      invariant Extraction(entries[..i]) == Some(tree)
      invariant fit ==> written == TotalSize(entries[..i])
      invariant fit ==> Within(written, limits.totalMax) && written <= TotalSize(entries)
      invariant fit ==> EntriesFit(limits, entries, i)
    {
      if limits.maxFiles > 0 && totalFiles >= limits.maxFiles {
        return Err(SizeExceeded), written, false;
      }
      totalFiles := totalFiles + 1;
      if fit {
        RoomForEntry(limits, entries, i);
      }
      var r;
      r, written, faulted := ExtractEntry(dest, entries[i], limits, tree, written);
      if r.Err? {
        if Extraction(entries).Some? && Fits(limits, entries) {
          EntryExtracts(Extracted, entries, i);
          EntryFits(limits, entries, i);
        }
        return Err(r.error), written, faulted;
      }
      tree := r.value;
      if fit {
        EntriesFitStep(limits, entries, i);
      }
      ExtractionStep(Extracted, entries, i);
    }
    assert entries[..|entries|] == entries;
    result := Ok(tree);
  }
}
