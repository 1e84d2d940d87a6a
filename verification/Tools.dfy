/** The custom tool installer and its cache of hash markers. */
module Tools {
  import opened Common
  import opened Paths
  import opened Text
  import opened Model
  import opened FileSystem
  import opened Download

  const MARKER_SUFFIX := ".sha256"

  /** Where a tool's file lies below the agents directory. */
  function ToolPath(t: ToolSource): string {
    "tools/" + t.LocalFileName()
  }

  function MarkerPath(path: string): string {
    path + MARKER_SUFFIX
  }

  function Stamp(dir: Dir, path: string, text: Bytes): Dir {
    dir[MarkerPath(path) := text]
  }

  predicate IsArtifactPath(path: string) {
    "tools/" <= path && Ext(path) in TOOL_EXTENSIONS
  }

  /** A marker that names a hash beside an existing artifact tells the truth. */
  predicate ArtifactSound(sha: Bytes -> Digest, dir: Dir, path: string) {
    path in dir && MarkerPath(path) in dir && IsSha256Hex(TrimSpace(dir[MarkerPath(path)]))
    ==> sha(dir[path]) == TrimSpace(dir[MarkerPath(path)])
  }

  ghost predicate CacheSound(sha: Bytes -> Digest, dir: Dir) {
    forall path :: IsArtifactPath(path) ==> ArtifactSound(sha, dir, path)
  }

  /** How an install ends on disk. */
  datatype Outcome = Untouched | Replaced(data: Bytes, stamped: bool)

  /** What an install may do: nothing, or replace the artifact by data of the declared hash
      and then stamp it; a stamp that fails leaves the old marker or a part of the new one. */
  ghost predicate ToolStep(sha: Bytes -> Digest, t: ToolSource, before: Dir, after: Dir, outcome: Outcome) {
    match outcome
    case Untouched => after == before
    case Replaced(data, stamped) =>
      && sha(data) == NormalizeSha256(t.hash)
      && var replaced := before[ToolPath(t) := data];
         if stamped then after == Stamp(replaced, ToolPath(t), NormalizeSha256(t.hash))
         else after == replaced
              || exists part :: part <= NormalizeSha256(t.hash) && after == Stamp(replaced, ToolPath(t), part)
  }

  predicate Installable(t: ToolSource) {
    '/' !in t.name && t.Extension() in TOOL_EXTENSIONS && IsSha256Hex(NormalizeSha256(t.hash))
  }

  lemma ToolPathFacts(t: ToolSource)
    requires Installable(t)
    ensures IsArtifactPath(ToolPath(t))
    ensures TrimSpace(NormalizeSha256(t.hash)) == NormalizeSha256(t.hash)
  {
    ExtOfConcat("tools/" + t.name, t.Extension());
    assert ToolPath(t) == ("tools/" + t.name) + t.Extension();
    TrimSpaceKeeps(NormalizeSha256(t.hash));
  }

  lemma CleanOfDotTools(f: string)
    requires IsSegment(f)
    ensures CleanSegs("./tools/" + f) == ["tools", f] && !Rooted("./tools/" + f)
  {
    hide Split;
    SplitPlain(f);
    SplitAtSlash("tools", f);
    SplitAtSlash(".", "tools/" + f);
    assert "./tools/" + f == "." + "/" + ("tools/" + f) && "tools/" + f == "tools" + "/" + f;
    var segs := [".", "tools", f];
    assert Split("./tools/" + f) == segs && segs[1..] == ["tools", f];
    RunPushes([], ["tools", f], false);
    assert [] + ["tools", f] == ["tools", f];
  }

  lemma RelPathResolves(f: string)
    requires IsSegment(f)
    ensures Clean("./tools/" + f) == "tools/" + f
  {
    hide Split, Run, CleanSegs, Rooted;
    assert "./tools/" + f == "." + "/" + ("tools/" + f) && "tools/" + f == "tools" + "/" + f;
    CleanOfDotTools(f);
    assert Join(["tools", f]) == "tools" + "/" + Join(["tools", f][1..]);
  }

  /** The path that is listed for a tool resolves to its file. */
  lemma LocalRelPathResolves(t: ToolSource)
    requires Installable(t)
    ensures Clean(t.LocalRelPath()) == ToolPath(t)
  {
    hide Clean, Ext;
    var f, ext := t.LocalFileName(), t.Extension();
    assert f == t.name + ext && |f| > 2 && '/' !in ext;
    RelPathResolves(f);
  }

  /** No artifact is a marker, and markers of different artifacts differ. */
  lemma MarkersAreApart(path: string, other: string)
    requires IsArtifactPath(path)
    ensures path != MarkerPath(other)
    ensures MarkerPath(path) == MarkerPath(other) ==> path == other
  {
    ExtOfConcat(other, MARKER_SUFFIX);
    if MarkerPath(path) == MarkerPath(other) {
      assert path == MarkerPath(path)[..|MarkerPath(path)| - 7] == other;
    }
  }

  /** Different tools never share a file, nor a file with a marker. */
  lemma ToolPathsAreApart(s: ToolSource, t: ToolSource)
    requires Installable(s) && Installable(t) && s.name != t.name
    ensures ToolPath(s) != ToolPath(t) && ToolPath(s) != MarkerPath(ToolPath(t))
    ensures MarkerPath(ToolPath(s)) != MarkerPath(ToolPath(t))
  {
    ToolPathFacts(s);
    ToolPathFacts(t);
    MarkersAreApart(ToolPath(s), ToolPath(t));
    if ToolPath(s) == ToolPath(t) {
      assert s.LocalFileName() == ToolPath(s)[6..] && t.LocalFileName() == ToolPath(t)[6..];
      LocalFileNameInjective(s, t);
    }
  }

  /** A marker beside the artifact, if there is one, names no other hash. */
  predicate MarkerHarmless(dir: Dir, path: string, want: string) {
    MarkerPath(path) in dir && IsSha256Hex(TrimSpace(dir[MarkerPath(path)])) ==>
      TrimSpace(dir[MarkerPath(path)]) == want
  }

  lemma ReplacementIsSound(sha: Bytes -> Digest, t: ToolSource, before: Dir, after: Dir, outcome: Outcome)
    requires Installable(t) && CacheSound(sha, before)
    requires outcome.Replaced? && ToolStep(sha, t, before, after, outcome)
    ensures CacheSound(sha, after) <==> MarkerHarmless(after, ToolPath(t), NormalizeSha256(t.hash))
  {
    var path := ToolPath(t);
    ToolPathFacts(t);
    MarkersAreApart(path, path);
    assert after[path] == outcome.data;
    if MarkerHarmless(after, path, NormalizeSha256(t.hash)) {
      forall other | IsArtifactPath(other)
        ensures ArtifactSound(sha, after, other)
      {
        if other != path {
          MarkersAreApart(other, path);
          MarkersAreApart(path, other);
          assert ArtifactSound(sha, before, other);
        }
      }
    } else {
      assert !ArtifactSound(sha, after, path);
    }
  }

  /** A part of a hash names no other hash. */
  lemma PartOfHash(want: string, part: string)
    requires IsSha256Hex(want) && part <= want
    ensures IsSha256Hex(TrimSpace(part)) ==> TrimSpace(part) == want
  {
    TrimSpaceKeeps(part);
  }

  /** The files an unstamped replacement can leave are all sound exactly when the marker found
      before the call names no other hash: the rename replaces the artifact, and a stamp that
      fails leaves that marker or a part of the new one. */
  lemma UnstampedReplacementIsSoundIff(sha: Bytes -> Digest, t: ToolSource, before: Dir, data: Bytes)
    requires Installable(t) && CacheSound(sha, before) && sha(data) == NormalizeSha256(t.hash)
    ensures (forall after :: ToolStep(sha, t, before, after, Replaced(data, false)) ==> CacheSound(sha, after))
            <==> MarkerHarmless(before, ToolPath(t), NormalizeSha256(t.hash))
  {
    var path, want, outcome := ToolPath(t), NormalizeSha256(t.hash), Replaced(data, false);
    ToolPathFacts(t);
    MarkersAreApart(path, path);
    var renamed := before[path := data];
    assert ToolStep(sha, t, before, renamed, outcome);
    ReplacementIsSound(sha, t, before, renamed, outcome);
    if MarkerHarmless(before, path, want) {
      forall after | ToolStep(sha, t, before, after, outcome)
        ensures CacheSound(sha, after)
      {
        if after != renamed {
          var part :| part <= want && after == Stamp(renamed, path, part);
          PartOfHash(want, part);
        }
        ReplacementIsSound(sha, t, before, after, outcome);
      }
    }
  }

  /** A stamp that fails is harmless where no marker of another hash was found. */
  predicate StampedOrHarmless(t: ToolSource, before: Dir, outcome: Outcome) {
    outcome.Replaced? && !outcome.stamped ==> MarkerHarmless(before, ToolPath(t), NormalizeSha256(t.hash))
  }

  /** The cache stays sound across an install that stamps what it renames, or finds no marker
      of another hash. */
  lemma InstallKeepsCacheSound(sha: Bytes -> Digest, t: ToolSource, before: Dir, after: Dir, outcome: Outcome)
    requires Installable(t) && CacheSound(sha, before) && ToolStep(sha, t, before, after, outcome)
    requires StampedOrHarmless(t, before, outcome)
    ensures CacheSound(sha, after)
  {
    if outcome.Replaced? {
      ToolPathFacts(t);
      if outcome.stamped {
        ReplacementIsSound(sha, t, before, after, outcome);
      } else {
        UnstampedReplacementIsSoundIff(sha, t, before, outcome.data);
      }
    }
  }

  /** Without that proviso the cache can lie: the old marker survives beside the new file,
      so a later request for the old hash is served the new content. */
  lemma UnstampedReplacementPoisons(sha: Bytes -> Digest, t: ToolSource, oldData: Bytes, newData: Bytes)
    requires Installable(t) && sha(newData) == NormalizeSha256(t.hash) && sha(oldData) != sha(newData)
    ensures var path := ToolPath(t);
            var before: Dir := map[path := oldData, MarkerPath(path) := sha(oldData)];
            && CacheSound(sha, before)
            && ToolStep(sha, t, before, before[path := newData], Replaced(newData, false))
            && !CacheSound(sha, before[path := newData])
  {
    var path := ToolPath(t);
    ToolPathFacts(t);
    MarkersAreApart(path, path);
    TrimSpaceKeeps(sha(oldData));
    var before: Dir := map[path := oldData, MarkerPath(path) := sha(oldData)];
    forall other | IsArtifactPath(other)
      ensures ArtifactSound(sha, before, other)
    {
      MarkersAreApart(other, path);
    }
    ReplacementIsSound(sha, t, before, before[path := newData], Replaced(newData, false));
  }

  /** One install of a run. */
  datatype Install = Install(source: ToolSource, outcome: Outcome, after: Dir)

  function LastDir(start: Dir, run: seq<Install>): Dir {
    if run == [] then start else run[|run| - 1].after
  }

  ghost predicate ToolRun(sha: Bytes -> Digest, start: Dir, run: seq<Install>) {
    run != [] ==>
      var last, rest := run[|run| - 1], run[..|run| - 1];
      var before := LastDir(start, rest);
      && ToolRun(sha, start, rest)
      && Installable(last.source)
      && ToolStep(sha, last.source, before, last.after, last.outcome)
      && StampedOrHarmless(last.source, before, last.outcome)
  }

  /** Over every run of installs in which each rename is followed by its stamp, or found no
      marker of another hash, from a sound start such as the empty directory, a marker never
      lies. */
  lemma {:induction false} RunsKeepCacheSound(sha: Bytes -> Digest, start: Dir, run: seq<Install>)
    requires ToolRun(sha, start, run) && CacheSound(sha, start)
    ensures CacheSound(sha, LastDir(start, run))
  {
    if run != [] {
      var last, rest := run[|run| - 1], run[..|run| - 1];
      RunsKeepCacheSound(sha, start, rest);
      InstallKeepsCacheSound(sha, last.source, LastDir(start, rest), last.after, last.outcome);
    }
  }

  lemma ToolOkIsInstallable(checks: Checks, t: ToolSource)
    requires ToolOk(checks, t)
    ensures Installable(t)
  {
    NameHasNoSlash(t.name);
  }

  class ToolInstaller {
    const fs: DataDir
    const sha: Bytes -> Digest
    const checks: Checks
    const options: Options

    constructor (fs: DataDir, sha: Bytes -> Digest, checks: Checks, options: Options)
      ensures this.fs == fs && this.sha == sha && this.checks == checks && this.options == options
    {
      this.fs, this.sha, this.checks, this.options := fs, sha, checks, options;
    }

    /** The marker beside the existing artifact names the declared hash. */
    predicate CacheHit(t: ToolSource, dir: Dir) {
      ToolPath(t) in dir && MarkerPath(ToolPath(t)) in dir
      && TrimSpace(dir[MarkerPath(ToolPath(t))]) == NormalizeSha256(t.hash)
    }

    /** The download would bring a file of the declared hash. */
    predicate Delivers(t: ToolSource, response: Response) {
      ResponseCounts(options, response) && Delivery(sha, options, response) == Ok(NormalizeSha256(t.hash))
    }

    /** Writes the marker beside the artifact just renamed into place. */
    method StampTool(key: string, t: ToolSource, data: Bytes, ghost before: Dir)
      returns (rel: Option<string>, ghost outcome: Outcome)
      requires sha(data) == NormalizeSha256(t.hash) && FilesOf(fs.files, key) == before[ToolPath(t) := data]
      modifies fs`files, fs`halted, fs`faulted
      ensures OnlyKey(old(fs.files), fs.files, key)
      ensures outcome == Replaced(data, rel.Some?) && ToolStep(sha, t, before, FilesOf(fs.files, key), outcome)
      ensures rel.Some? ==> rel.value == t.LocalRelPath()
      ensures old(fs.faulted) ==> fs.faulted
      ensures rel.None? ==> fs.faulted
    {
      var dest := ToolPath(t);
      ghost var renamed := fs.files;
      var ok := fs.WriteFile(key, MarkerPath(dest), NormalizeSha256(t.hash));
      outcome := Replaced(data, ok);
      assert forall part :: fs.files == Put(renamed, key, MarkerPath(dest), part) ==>
               FilesOf(fs.files, key) == Stamp(before[dest := data], dest, part);
      if fs.files != renamed {
        UpdateIsLocal(renamed, key, FilesOf(fs.files, key));
      }
      rel := if ok then Some(t.LocalRelPath()) else None;
    }

    /** The part of Install after a cache miss. */
    method Replace(key: string, t: ToolSource, response: Response) returns (rel: Option<string>, ghost outcome: Outcome)
      modifies fs`files, fs`halted, fs`faulted
      ensures OnlyKey(old(fs.files), fs.files, key)
      ensures ToolStep(sha, t, FilesOf(old(fs.files), key), FilesOf(fs.files, key), outcome)
      ensures rel.Some? ==> rel.value == t.LocalRelPath() && outcome.Replaced? && outcome.stamped
      ensures outcome.Replaced? && !outcome.stamped ==> fs.faulted
      ensures old(fs.faulted) ==> fs.faulted
      ensures !fs.faulted && ResponseCounts(options, response) ==>
        (rel.Some? <==> Delivers(t, response)) && (rel.Some? <==> outcome.Replaced?)
    {
      rel, outcome := None, Untouched;
      ghost var files, dir := fs.files, FilesOf(fs.files, key);
      var dest := ToolPath(t);
      var ok := fs.MkdirAll(key);
      if ok {
        ok := fs.Proceed(); // MkdirTemp
      }
      if !ok {
        return;
      }
      var actual, body, faulted := Fetch(sha, options, response);
      if faulted {
        fs.faulted := true;
      }
      if actual.Err? || actual.value != NormalizeSha256(t.hash) {
        return;
      }
      ok := fs.Publish(key, dest, body.value);
      if !ok {
        return;
      }
      UpdateIsLocal(files, key, dir[dest := body.value]);
      rel, outcome := StampTool(key, t, body.value, dir);
    }

    /** Install: cache check, download, hash check, rename, stamp. It returns the path to
        declare exactly when the tool is served from the cache or replaced and stamped. */
    method Install(key: string, t: ToolSource, response: Response) returns (rel: Option<string>, ghost outcome: Outcome)
      modifies fs`files, fs`halted, fs`faulted
      ensures OnlyKey(old(fs.files), fs.files, key)
      ensures ToolStep(sha, t, FilesOf(old(fs.files), key), FilesOf(fs.files, key), outcome)
      ensures !ToolOk(checks, t) ==> rel.None? && outcome.Untouched?
      ensures rel.Some? ==> rel.value == t.LocalRelPath() && (outcome.Replaced? ==> outcome.stamped)
      ensures outcome.Replaced? && !outcome.stamped ==> fs.faulted
      ensures rel.Some? && CacheSound(sha, FilesOf(old(fs.files), key)) ==>
        ToolPath(t) in FilesOf(fs.files, key) && sha(FilesOf(fs.files, key)[ToolPath(t)]) == NormalizeSha256(t.hash)
      ensures old(fs.faulted) ==> fs.faulted
      // without faults: a hit downloads nothing, a miss succeeds exactly if the download is right
      ensures !fs.faulted && ToolOk(checks, t) && CacheHit(t, FilesOf(old(fs.files), key)) ==>
        rel.Some? && outcome.Untouched?
      ensures !fs.faulted && ToolOk(checks, t) && ResponseCounts(options, response)
              && !CacheHit(t, FilesOf(old(fs.files), key)) ==>
        (rel.Some? <==> Delivers(t, response)) && (rel.Some? <==> outcome.Replaced?)
    {
      outcome := Untouched;
      if !ToolOk(checks, t) {
        return None, outcome;
      }
      ToolOkIsInstallable(checks, t);
      ToolPathFacts(t);
      ghost var dir := FilesOf(fs.files, key);
      var dest, want := ToolPath(t), NormalizeSha256(t.hash);
      MarkersAreApart(dest, dest);
      var cached := fs.ReadFile(key, MarkerPath(dest));
      if cached.Some? && TrimSpace(cached.value) == want {
        var stat := fs.ReadFile(key, dest);
        if stat.Some? {
          assert CacheSound(sha, dir) ==> ArtifactSound(sha, dir, dest);
          return Some(t.LocalRelPath()), outcome;
        }
      }
      rel, outcome := Replace(key, t, response);
    }
  }
}
