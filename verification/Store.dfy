/** What one write may do to a deployment's files when it can be cut off at any point, and
    why every history of writes still refines an atomic register holding one graph. */
module Store {
  import opened Common
  import opened Paths
  import opened Model
  import opened FileSystem
  import opened Document
  import opened RoundTrip

  // ---- The effect of one call ------------------------------------------------------------

  predicate IsPromptEntry(path: string) {
    IsEntryOf(PROMPTS, path)
  }

  /** The request stages this text under this path. */
  predicate IsPromptOf(c: Codec, agents: seq<Agent>, path: string, text: string) {
    exists i :: 0 <= i < |agents| && agents[i].systemPrompt == text != "" && PromptPath(c, agents[i]) == path
  }

  /** What happened to one file that existed: nothing, or a prompt of the request replaced it. */
  predicate Survives(c: Codec, agents: seq<Agent>, before: Dir, after: Dir, path: string)
    requires path in before
  {
    path in after && (after[path] == before[path] || IsPromptOf(c, agents, path, after[path]))
  }

  /** The part of a write before its commit, cut off anywhere: prompts of the request are in
      place or not, the staging copy of the document holds anything, new files appear only
      in the prompts directory. */
  predicate Staged(c: Codec, agents: seq<Agent>, before: Dir, after: Dir) {
    && (forall p :: p in before && p != YAML_TMP ==> Survives(c, agents, before, after, p))
    && (forall p :: p in after && p !in before && p != YAML_TMP ==> IsPromptEntry(p))
  }

  /** The files the document of these references keeps alive. */
  function Kept(refs: map<string, string>): set<string> {
    set id | id in refs :: PROMPTS + Base(refs[id])
  }

  predicate Removable(refs: map<string, string>, path: string) {
    path == SIDECAR || (IsPromptEntry(path) && path !in Kept(refs))
  }

  /** Some removable files are gone; the rest is untouched. */
  predicate Pruned(refs: map<string, string>, before: Dir, after: Dir) {
    && (forall p :: p in after ==> p in before && after[p] == before[p])
    && (forall p :: p in before && p !in after ==> Removable(refs, p))
  }

  /** The disk right after the rename that commits the document. */
  function Switched(before: Dir, data: Bytes): Dir {
    (before - {YAML_TMP})[YAML := data]
  }

  predicate SameFileSameText(c: Codec, a: Agent, b: Agent) {
    a.systemPrompt != "" && b.systemPrompt != "" && PromptPath(c, a) == PromptPath(c, b)
    ==> a.systemPrompt == b.systemPrompt
  }

  /** Two prompts of the request that share a file are the same text. */
  predicate Coherent(c: Codec, agents: seq<Agent>) {
    forall i, j :: 0 <= i < |agents| && 0 <= j < |agents| ==> SameFileSameText(c, agents[i], agents[j])
  }

  /** The part of a write after its commit, cut off anywhere. */
  ghost predicate Committed(c: Codec, r: WriteRequest, before: Dir, after: Dir) {
    exists staged ::
      && Staged(c, r.agents, before, staged)
      && (Coherent(c, r.agents) ==> PromptsPlaced(c, r.agents, staged))
      && Pruned(PromptRefs(c, r.agents), Switched(staged, c.marshal(BuildDoc(c, r))), after)
  }

  /** What a call can do to the files of its key. */
  ghost predicate CallEffect(c: Codec, r: WriteRequest, before: Dir, after: Dir, committed: bool) {
    if committed then Committed(c, r, before, after) else Staged(c, r.agents, before, after)
  }

  lemma StagedSurvivor(c: Codec, r: WriteRequest, before: Dir, after: Dir, path: string)
    requires Storable(r) && Staged(c, r.agents, before, after) && path in before && path != YAML_TMP
    ensures path in after && (after[path] == before[path] || IsPromptEntry(path))
  {
    assert Survives(c, r.agents, before, after, path);
    if after[path] != before[path] {
      var i :| 0 <= i < |r.agents| && PromptPath(c, r.agents[i]) == path;
      FileNameIsSegment(c, r.agents[i].name, r.agents[i].systemPrompt);
    }
  }

  lemma FixedNamesAreApart()
    ensures !(PROMPTS <= YAML) && !(PROMPTS <= YAML_TMP) && !(PROMPTS <= SIDECAR)
    ensures YAML != SIDECAR && YAML != YAML_TMP && YAML_TMP != SIDECAR
  {
    assert PROMPTS[0] == 'p' && YAML[0] == YAML_TMP[0] == 'a' && SIDECAR[0] == 'd';
  }

  lemma PromptEntryText(path: string)
    ensures IsPromptEntry(path) <==> |path| > 8 && path[..8] == "prompts/" && '/' !in path[8..]
    ensures IsPromptEntry(path) ==> path != YAML
  {
    assert YAML[0] != PROMPTS[0];
  }

  lemma PrunedTouches(refs: map<string, string>, before: Dir, after: Dir, path: string)
    requires Pruned(refs, before, after)
    ensures SameAt(before, after, path)
            || (path in before && path !in after && (path == SIDECAR || IsPromptEntry(path)))
  {
    if path in before && path !in after {
      assert Removable(refs, path);
    }
  }

  /** What a write of a storable request touches, wherever it is cut off: its document and the
      copy it stages, the old sidecar, and files directly in "prompts/"; of what was there, it
      takes away the sidecar and prompt files only, and those only after its commit. */
  lemma WriteTouches(c: Codec, r: WriteRequest, before: Dir, after: Dir, committed: bool, path: string)
    requires Storable(r) && CallEffect(c, r, before, after, committed) && !SameAt(before, after, path)
    ensures path in {"agents.yaml", "agents.yaml.tmp", "deploy-manifest.json"}
            || (|path| > 8 && path[..8] == "prompts/" && '/' !in path[8..])
    ensures path in before && path !in after && path != "agents.yaml.tmp" ==> committed && path != "agents.yaml"
  {
    hide IsPromptEntry, Survives, Storable, PromptsPlaced, Coherent, BuildDoc, Pruned;
    PromptEntryText(path);
    if committed {
      var refs := PromptRefs(c, r.agents);
      var staged :| Staged(c, r.agents, before, staged)
                    && Pruned(refs, Switched(staged, c.marshal(BuildDoc(c, r))), after);
      var switched := Switched(staged, c.marshal(BuildDoc(c, r)));
      PrunedTouches(refs, switched, after, path);
      if path in before && path != YAML_TMP {
        StagedSurvivor(c, r, before, staged, path);
      }
      assert path !in {YAML, YAML_TMP} ==> SameAt(staged, switched, path);
    } else if path in before && path != YAML_TMP {
      StagedSurvivor(c, r, before, after, path);
    }
  }

  // ---- Staging -----------------------------------------------------------------------------

  lemma StagedReflexive(c: Codec, agents: seq<Agent>, dir: Dir)
    ensures Staged(c, agents, dir, dir)
  {
  }

  lemma StagedTransitive(c: Codec, agents: seq<Agent>, d0: Dir, d1: Dir, d2: Dir)
    requires Staged(c, agents, d0, d1) && Staged(c, agents, d1, d2)
    ensures Staged(c, agents, d0, d2)
  {
    forall p | p in d0 && p != YAML_TMP
      ensures Survives(c, agents, d0, d2, p)
    {
      assert Survives(c, agents, d0, d1, p) && Survives(c, agents, d1, d2, p);
    }
  }

  predicate RefersTo(e: Entry, path: string) {
    e.systemPromptFile != "" && Clean(e.systemPromptFile) == path
  }

  /** Files that the committed document refers to. */
  ghost predicate IsLive(c: Codec, dir: Dir, path: string) {
    YAML in dir && c.unmarshal(dir[YAML]).Some?
    && exists i :: 0 <= i < |c.unmarshal(dir[YAML]).value.agents|
                   && RefersTo(c.unmarshal(dir[YAML]).value.agents[i], path)
  }

  /** Staging replaces no live prompt by a different text: a check on the files and the
      request that could be made before the call. */
  ghost predicate StagingSafe(c: Codec, agents: seq<Agent>, dir: Dir) {
    forall p, text :: p in dir && IsLive(c, dir, p) && IsPromptOf(c, agents, p, text) ==> text == dir[p]
  }

  lemma StagedKeepsFixedFiles(c: Codec, agents: seq<Agent>, before: Dir, after: Dir, path: string)
    requires Staged(c, agents, before, after) && path in {YAML, SIDECAR}
    ensures path in before <==> path in after
    ensures path in before ==> after[path] == before[path]
  {
    forall i | 0 <= i < |agents| {
      PromptPathIsApart(c, agents[i]);
    }
    FixedNamesAreApart();
    if path in before {
      assert Survives(c, agents, before, after, path);
    }
  }

  lemma SamePromptsSameEntries(before: Dir, after: Dir, entries: seq<Entry>)
    requires forall i :: 0 <= i < |entries| ==> ReadEntry(before, entries[i]) == ReadEntry(after, entries[i])
    ensures ReadEntries(before, entries) == ReadEntries(after, entries)
  {
    ReadAllAgree(Reader(before), Reader(after), entries);
  }

  /** A readable entry reads the same after staging that is safe. */
  lemma StagingKeepsEntry(c: Codec, agents: seq<Agent>, before: Dir, after: Dir, doc: Doc, i: nat)
    requires Staged(c, agents, before, after) && StagingSafe(c, agents, before)
    requires YAML in before && c.unmarshal(before[YAML]) == Some(doc) && i < |doc.agents|
    requires ReadEntry(before, doc.agents[i]).Ok?
    ensures ReadEntry(after, doc.agents[i]) == ReadEntry(before, doc.agents[i])
  {
    var e := doc.agents[i];
    if e.systemPromptFile != "" {
      var p := Clean(e.systemPromptFile);
      FixedNamesAreApart();
      assert p in before && PROMPTS <= p;
      assert RefersTo(e, p) && IsLive(c, before, p);
      assert Survives(c, agents, before, after, p);
    }
  }

  /** A call cut off before its commit leaves a readable graph as it was, if staging is safe. */
  lemma StagingKeepsGraph(c: Codec, key: string, agents: seq<Agent>, before: Dir, after: Dir)
    requires Staged(c, agents, before, after)
    requires ReadGraph(c, key, before).Ok? && StagingSafe(c, agents, before)
    ensures ReadGraph(c, key, after) == ReadGraph(c, key, before)
  {
    StagedKeepsFixedFiles(c, agents, before, after, YAML);
    StagedKeepsFixedFiles(c, agents, before, after, SIDECAR);
    var doc := c.unmarshal(before[YAML]).value;
    ReadEntriesPointwise(before, doc.agents);
    forall i | 0 <= i < |doc.agents|
      ensures ReadEntry(after, doc.agents[i]) == ReadEntry(before, doc.agents[i])
    {
      StagingKeepsEntry(c, agents, before, after, doc, i);
    }
    SamePromptsSameEntries(before, after, doc.agents);
  }

  /** The prompt of each agent in a graph is the text its entry refers to. */
  lemma GraphShowsPrompt(c: Codec, key: string, dir: Dir, i: nat, p: string)
    requires ReadGraph(c, key, dir).Ok?
    requires var doc := c.unmarshal(dir[YAML]).value; i < |doc.agents| && RefersTo(doc.agents[i], p)
    ensures p in dir && i < |ReadGraph(c, key, dir).value.agents|
    ensures ReadGraph(c, key, dir).value.agents[i].systemPrompt == dir[p]
  {
    var doc := c.unmarshal(dir[YAML]).value;
    ReadEntriesPointwise(dir, doc.agents);
    var agents := ReadEntries(dir, doc.agents).value;
    assert ReadEntry(dir, doc.agents[i]) == Ok(agents[i]);
  }

  /** Exactly when staging is safe does a fully staged, uncommitted call leave the graph as
      it was: without the condition some live prompt is replaced. */
  lemma StagingIsInvisibleIffSafe(c: Codec, key: string, agents: seq<Agent>, before: Dir, after: Dir)
    requires Staged(c, agents, before, after) && PromptsPlaced(c, agents, after)
    requires ReadGraph(c, key, before).Ok?
    ensures ReadGraph(c, key, after) == ReadGraph(c, key, before) <==> StagingSafe(c, agents, before)
  {
    if StagingSafe(c, agents, before) {
      StagingKeepsGraph(c, key, agents, before, after);
    } else {
      var p, text :| p in before && IsLive(c, before, p) && IsPromptOf(c, agents, p, text) && text != before[p];
      var k :| 0 <= k < |agents| && agents[k].systemPrompt == text && PromptPath(c, agents[k]) == p;
      assert PromptPlaced(c, agents[k], after);
      StagedKeepsFixedFiles(c, agents, before, after, YAML);
      var doc := c.unmarshal(before[YAML]).value;
      var i :| 0 <= i < |doc.agents| && RefersTo(doc.agents[i], p);
      GraphShowsPrompt(c, key, before, i, p);
      if ReadGraph(c, key, after).Ok? {
        GraphShowsPrompt(c, key, after, i, p);
      }
    }
  }

  predicate PromptsCompatible(c: Codec, a: Agent, b: Agent) {
    a.name == b.name && a.systemPrompt != "" && b.systemPrompt != ""
    && c.sha(a.systemPrompt)[..16] == c.sha(b.systemPrompt)[..16]
    ==> a.systemPrompt == b.systemPrompt
  }

  // ---- Committed states --------------------------------------------------------------------

  /** No prompt of one request shares its hash prefix with a different prompt of the same id. */
  predicate NoClash(c: Codec, xs: seq<Agent>, ys: seq<Agent>) {
    forall i, j :: 0 <= i < |xs| && 0 <= j < |ys| ==> PromptsCompatible(c, xs[i], ys[j])
  }

  lemma SamePathSameName(c: Codec, a: Agent, b: Agent)
    requires PromptPath(c, a) == PromptPath(c, b)
    ensures a.name == b.name && c.sha(a.systemPrompt)[..16] == c.sha(b.systemPrompt)[..16]
  {
    var f, g := PromptFileName(c, a.name, a.systemPrompt), PromptFileName(c, b.name, b.systemPrompt);
    assert f == PromptPath(c, a)[|PROMPTS|..] && g == PromptPath(c, b)[|PROMPTS|..];
    PromptFileNameInjective(c, a.name, a.systemPrompt, b.name, b.systemPrompt);
  }

  lemma UniqueIdsAreCoherent(c: Codec, agents: seq<Agent>)
    requires UniqueIds(agents)
    ensures Coherent(c, agents)
  {
    forall i, j | 0 <= i < |agents| && 0 <= j < |agents|
      ensures SameFileSameText(c, agents[i], agents[j])
    {
      if PromptPath(c, agents[i]) == PromptPath(c, agents[j]) {
        SamePathSameName(c, agents[i], agents[j]);
      }
    }
  }

  /** The live files of a committed request are the prompt files of its agents. */
  lemma LiveFilesOf(c: Codec, r: WriteRequest, dir: Dir, p: string) returns (i: nat)
    requires c.Lawful() && Storable(r) && Holds(c, r, dir) && IsLive(c, dir, p)
    ensures i < |r.agents| && r.agents[i].systemPrompt != "" && PromptPath(c, r.agents[i]) == p
  {
    var doc := c.unmarshal(dir[YAML]).value;
    assert doc == Wire(BuildDoc(c, r));
    i :| 0 <= i < |doc.agents| && RefersTo(doc.agents[i], p);
    var a := r.agents[i];
    PromptRefsSpec(c, r.agents);
    assert a in r.agents;
    PromptRefResolves(c, a);
  }

  lemma OwnPromptIsLive(c: Codec, r: WriteRequest, dir: Dir, i: nat)
    requires c.Lawful() && Storable(r) && Holds(c, r, dir)
    requires i < |r.agents| && r.agents[i].systemPrompt != ""
    ensures IsLive(c, dir, PromptPath(c, r.agents[i]))
  {
    var a := r.agents[i];
    assert a in r.agents;
    PromptRefsSpec(c, r.agents);
    PromptRefResolves(c, a);
    var doc := Wire(BuildDoc(c, r));
    assert c.unmarshal(dir[YAML]) == Some(doc);
    assert RefersTo(doc.agents[i], PromptPath(c, a));
  }

  /** After a committed request, staging the next one is safe exactly when no prompt of one
      request shares its hash prefix with a different prompt of the same id in the other. */
  lemma SafeAfterCommitIff(c: Codec, r: WriteRequest, agents: seq<Agent>, dir: Dir)
    requires c.Lawful() && Storable(r) && Holds(c, r, dir)
    ensures StagingSafe(c, agents, dir) <==> NoClash(c, r.agents, agents)
  {
    if NoClash(c, r.agents, agents) {
      forall p, text | p in dir && IsLive(c, dir, p) && IsPromptOf(c, agents, p, text)
        ensures text == dir[p]
      {
        var i := LiveFilesOf(c, r, dir, p);
        var j :| 0 <= j < |agents| && agents[j].systemPrompt == text && PromptPath(c, agents[j]) == p;
        SamePathSameName(c, r.agents[i], agents[j]);
        assert PromptsCompatible(c, r.agents[i], agents[j]);
        assert PromptPlaced(c, r.agents[i], dir);
      }
    } else {
      var i, j :| 0 <= i < |r.agents| && 0 <= j < |agents| && !PromptsCompatible(c, r.agents[i], agents[j]);
      var a, b := r.agents[i], agents[j];
      OwnPromptIsLive(c, r, dir, i);
      assert PromptPlaced(c, a, dir);
      assert PromptPath(c, b) == PromptPath(c, a);
      assert IsPromptOf(c, agents, PromptPath(c, a), b.systemPrompt);
    }
  }

  /** Staging keeps the prompts of a committed request in place. */
  lemma StagingKeepsHolds(c: Codec, r: WriteRequest, agents: seq<Agent>, before: Dir, after: Dir)
    requires Holds(c, r, before) && Staged(c, agents, before, after) && NoClash(c, r.agents, agents)
    ensures Holds(c, r, after)
  {
    StagedKeepsFixedFiles(c, agents, before, after, YAML);
    forall i | 0 <= i < |r.agents|
      ensures PromptPlaced(c, r.agents[i], after)
    {
      var a := r.agents[i];
      if a.systemPrompt != "" {
        var p := PromptPath(c, a);
        PromptPathIsApart(c, a);
        assert PromptPlaced(c, a, before) && Survives(c, agents, before, after, p);
        if IsPromptOf(c, agents, p, after[p]) {
          var j :| 0 <= j < |agents| && agents[j].systemPrompt == after[p] && PromptPath(c, agents[j]) == p;
          SamePathSameName(c, a, agents[j]);
          assert PromptsCompatible(c, a, agents[j]);
        }
      }
    }
  }

  lemma PromptPathText(c: Codec, a: Agent)
    ensures PromptPath(c, a) == "prompts/" + a.name + "-" + c.sha(a.systemPrompt)[..16] + ".md"
  {
    var rest := "-" + c.sha(a.systemPrompt)[..16] + ".md";
    assert PromptFileName(c, a.name, a.systemPrompt) == a.name + rest;
  }

  /** What the clean-up keeps: one file for each prompt of the request. */
  lemma KeptIff(c: Codec, r: WriteRequest, path: string)
    requires Storable(r)
    ensures path in Kept(PromptRefs(c, r.agents)) <==>
      exists a :: a in r.agents && a.systemPrompt != ""
                  && path == "prompts/" + a.name + "-" + c.sha(a.systemPrompt)[..16] + ".md"
  {
    var refs := PromptRefs(c, r.agents);
    PromptRefsSpec(c, r.agents);
    forall a | a in r.agents
      ensures PROMPTS + Base(PromptRef(c, a)) == "prompts/" + a.name + "-" + c.sha(a.systemPrompt)[..16] + ".md"
    {
      PromptRefResolves(c, a);
      PromptPathText(c, a);
    }
    hide PromptRefs, PromptRef, Base;
    if path in Kept(refs) {
      var id :| id in refs && path == PROMPTS + Base(refs[id]);
    }
    if a :| a in r.agents && a.systemPrompt != ""
            && path == "prompts/" + a.name + "-" + c.sha(a.systemPrompt)[..16] + ".md" {
      assert a.name in refs;
    }
  }

  /** The prompt files of a request are kept by its own references. */
  lemma OwnPromptsAreKept(c: Codec, r: WriteRequest, a: Agent)
    requires Storable(r) && a in r.agents && a.systemPrompt != ""
    ensures PromptPath(c, a) in Kept(PromptRefs(c, r.agents))
  {
    PromptRefsSpec(c, r.agents);
    PromptRefResolves(c, a);
    assert a.name in PromptRefs(c, r.agents);
  }

  /** Garbage collection is invisible: whatever subset of the removable files is gone, the
      committed request stays held. */
  lemma PruningKeepsHolds(c: Codec, r: WriteRequest, before: Dir, after: Dir)
    requires Storable(r) && Holds(c, r, before) && Pruned(PromptRefs(c, r.agents), before, after)
    ensures Holds(c, r, after)
  {
    var refs := PromptRefs(c, r.agents);
    FixedNamesAreApart();
    forall i | 0 <= i < |r.agents|
      ensures PromptPlaced(c, r.agents[i], after)
    {
      var a := r.agents[i];
      assert PromptPlaced(c, a, before);
      if a.systemPrompt != "" {
        OwnPromptsAreKept(c, r, a);
        PromptPathIsApart(c, a);
        assert !Removable(refs, PromptPath(c, a));
      }
    }
  }

  /** In every intermediate state of the clean-up after a commit, whatever subset of the old
      prompts and the sidecar is gone, the deployment reads as the same graph. */
  lemma GarbageCollectionIsInvisible(c: Codec, r: WriteRequest, before: Dir, after: Dir)
    requires c.Lawful() && Storable(r) && Holds(c, r, before) && SidecarQuiet(c, r, before)
    requires Pruned(PromptRefs(c, r.agents), before, after)
    ensures ReadGraph(c, r.key, after) == ReadGraph(c, r.key, before) == Ok(Graph(r.rootId, Norm(r.rootId, r.agents)))
  {
    PruningKeepsHolds(c, r, before, after);
    WriteThenRead(c, r, before);
    WriteThenRead(c, r, after);
  }

  lemma SwitchingHolds(c: Codec, r: WriteRequest, staged: Dir)
    requires PromptsPlaced(c, r.agents, staged)
    ensures Holds(c, r, Switched(staged, c.marshal(BuildDoc(c, r))))
  {
    var dir := Switched(staged, c.marshal(BuildDoc(c, r)));
    forall i | 0 <= i < |r.agents|
      ensures PromptPlaced(c, r.agents[i], dir)
    {
      PromptPathIsApart(c, r.agents[i]);
      assert PromptPlaced(c, r.agents[i], staged);
    }
  }

  /** The prompt store invariant is established by every commit, cut off where it may be. */
  lemma CommitHolds(c: Codec, r: WriteRequest, before: Dir, after: Dir)
    requires Storable(r) && Committed(c, r, before, after)
    ensures Holds(c, r, after)
    ensures SIDECAR in after ==> SIDECAR in before && after[SIDECAR] == before[SIDECAR]
  {
    var staged :| && Staged(c, r.agents, before, staged)
                  && (Coherent(c, r.agents) ==> PromptsPlaced(c, r.agents, staged))
                  && Pruned(PromptRefs(c, r.agents), Switched(staged, c.marshal(BuildDoc(c, r))), after);
    UniqueIdsAreCoherent(c, r.agents);
    SwitchingHolds(c, r, staged);
    PruningKeepsHolds(c, r, Switched(staged, c.marshal(BuildDoc(c, r))), after);
    StagedKeepsFixedFiles(c, r.agents, before, staged, SIDECAR);
  }

  // ---- Artifacts beside the store --------------------------------------------------------------

  lemma StoreFilesAreNoArtifacts(path: string)
    requires path in {YAML, SIDECAR} || PROMPTS <= path
    ensures !IsArtifactFile(path)
  {
    assert YAML[0] == 'a' && SIDECAR[0] == 'd' && PROMPTS[0] == 'p' && "tools/"[0] == 't' && "skills/"[0] == 's';
  }

  lemma ArtifactsKeepHolds(c: Codec, r: WriteRequest, before: Dir, after: Dir)
    requires Holds(c, r, before) && ArtifactsOnly(before, after)
    ensures Holds(c, r, after)
  {
    StoreFilesAreNoArtifacts(YAML);
    assert SameAt(before, after, YAML);
    forall i | 0 <= i < |r.agents|
      ensures PromptPlaced(c, r.agents[i], after)
    {
      PromptPathIsApart(c, r.agents[i]);
      StoreFilesAreNoArtifacts(PromptPath(c, r.agents[i]));
      assert PromptPlaced(c, r.agents[i], before) && SameAt(before, after, PromptPath(c, r.agents[i]));
    }
  }

  // ---- Histories -----------------------------------------------------------------------------

  /** One write: its request, the files it found, whether its rename happened, and what it left. */
  datatype Call = Call(request: WriteRequest, before: Dir, committed: bool, after: Dir)

  function FinalDir(start: Dir, calls: seq<Call>): Dir {
    if calls == [] then start else calls[|calls| - 1].after
  }

  /** A serial history of writes on one key; artifacts may come and go in between. */
  ghost predicate History(c: Codec, key: string, start: Dir, calls: seq<Call>) {
    calls != [] ==>
      var last, rest := calls[|calls| - 1], calls[..|calls| - 1];
      && History(c, key, start, rest)
      && last.request.key == key
      && ArtifactsOnly(FinalDir(start, rest), last.before)
      && CallEffect(c, last.request, last.before, last.after, last.committed)
  }

  function LastCommitted(calls: seq<Call>): Option<WriteRequest> {
    if calls == [] then None
    else if calls[|calls| - 1].committed then Some(calls[|calls| - 1].request)
    else LastCommitted(calls[..|calls| - 1])
  }

  /** The hypotheses on the requests of a history: they are storable, and prompts of one id do
      not share hash prefixes. */
  ghost predicate WellBehaved(c: Codec, calls: seq<Call>) {
    && (forall i :: 0 <= i < |calls| ==> Storable(calls[i].request))
    && (forall i, j :: 0 <= i < |calls| && 0 <= j < |calls| ==>
          NoClash(c, calls[i].request.agents, calls[j].request.agents))
  }

  /** No call replaces a live prompt of the start by a different text. */
  ghost predicate StartSafe(c: Codec, start: Dir, calls: seq<Call>) {
    forall i :: 0 <= i < |calls| ==> StagingSafe(c, calls[i].request.agents, start)
  }

  /** The live prompts of the start are in place. */
  ghost predicate LiveFilesKept(c: Codec, start: Dir, dir: Dir) {
    forall p :: PROMPTS <= p && IsLive(c, start, p) && p in start ==> p in dir && dir[p] == start[p]
  }

  /** What the register holds in these files, after a history. */
  ghost predicate Register(c: Codec, start: Dir, calls: seq<Call>, dir: Dir) {
    && (SIDECAR in dir ==> SIDECAR in start && dir[SIDECAR] == start[SIDECAR])
    && match LastCommitted(calls)
       case Some(r) => Holds(c, r, dir)
       case None =>
         && SameAt(start, dir, YAML) && SameAt(start, dir, SIDECAR)
         && (StartSafe(c, start, calls) ==> LiveFilesKept(c, start, dir))
  }

  lemma {:induction false} LastCommittedIsACall(calls: seq<Call>)
    requires LastCommitted(calls).Some?
    ensures exists i :: 0 <= i < |calls| && calls[i].request == LastCommitted(calls).value
  {
    if calls[|calls| - 1].committed {
      assert calls[|calls| - 1].request == LastCommitted(calls).value;
    } else {
      LastCommittedIsACall(calls[..|calls| - 1]);
    }
  }

  /** Installing artifacts does not touch the register. */
  lemma ArtifactsKeepRegister(c: Codec, start: Dir, calls: seq<Call>, before: Dir, after: Dir)
    requires Register(c, start, calls, before) && ArtifactsOnly(before, after)
    ensures Register(c, start, calls, after)
  {
    StoreFilesAreNoArtifacts(YAML);
    StoreFilesAreNoArtifacts(SIDECAR);
    assert SameAt(before, after, YAML) && SameAt(before, after, SIDECAR);
    if LastCommitted(calls).Some? {
      ArtifactsKeepHolds(c, LastCommitted(calls).value, before, after);
    } else if StartSafe(c, start, calls) {
      forall p | PROMPTS <= p && IsLive(c, start, p) && p in start
        ensures p in after && after[p] == start[p]
      {
        StoreFilesAreNoArtifacts(p);
        assert SameAt(before, after, p);
      }
    }
  }

  /** Staging that is safe for the files at the start keeps those that are still live. */
  lemma StagingKeepsStart(c: Codec, start: Dir, agents: seq<Agent>, before: Dir, after: Dir)
    requires LiveFilesKept(c, start, before)
    requires Staged(c, agents, before, after) && StagingSafe(c, agents, start)
    ensures LiveFilesKept(c, start, after)
  {
    FixedNamesAreApart();
    forall p | PROMPTS <= p && IsLive(c, start, p) && p in start
      ensures p in after && after[p] == start[p]
    {
      assert Survives(c, agents, before, after, p);
    }
  }

  /** One more call that is cut off before its commit. */
  lemma RegisterAfterStaging(c: Codec, start: Dir, calls: seq<Call>)
    requires calls != [] && WellBehaved(c, calls)
    requires var last := calls[|calls| - 1]; !last.committed && Staged(c, last.request.agents, last.before, last.after)
    requires Register(c, start, calls[..|calls| - 1], calls[|calls| - 1].before)
    ensures Register(c, start, calls, calls[|calls| - 1].after)
  {
    var n := |calls| - 1;
    var last, rest := calls[n], calls[..n];
    var r := last.request;
    StagedKeepsFixedFiles(c, r.agents, last.before, last.after, YAML);
    StagedKeepsFixedFiles(c, r.agents, last.before, last.after, SIDECAR);
    if LastCommitted(rest).Some? {
      LastCommittedIsACall(rest);
      StagingKeepsHolds(c, LastCommitted(rest).value, r.agents, last.before, last.after);
    } else if StartSafe(c, start, calls) {
      assert StagingSafe(c, calls[n].request.agents, start);
      assert StartSafe(c, start, rest);
      StagingKeepsStart(c, start, r.agents, last.before, last.after);
    }
  }

  lemma {:induction false} RegisterInvariant(c: Codec, key: string, start: Dir, calls: seq<Call>)
    requires History(c, key, start, calls) && WellBehaved(c, calls)
    ensures Register(c, start, calls, FinalDir(start, calls))
  {
    if calls != [] {
      var n := |calls| - 1;
      var last, rest := calls[n], calls[..n];
      RegisterInvariant(c, key, start, rest);
      ArtifactsKeepRegister(c, start, rest, FinalDir(start, rest), last.before);
      if last.committed {
        CommitHolds(c, last.request, last.before, last.after);
      } else {
        RegisterAfterStaging(c, start, calls);
      }
    }
  }

  lemma LiveEntryReadsSame(c: Codec, start: Dir, dir: Dir, doc: Doc, i: nat)
    requires LiveFilesKept(c, start, dir)
    requires YAML in start && c.unmarshal(start[YAML]) == Some(doc) && i < |doc.agents|
    requires ReadEntry(start, doc.agents[i]).Ok?
    ensures ReadEntry(dir, doc.agents[i]) == ReadEntry(start, doc.agents[i])
  {
    var e := doc.agents[i];
    if e.systemPromptFile != "" {
      assert RefersTo(e, Clean(e.systemPromptFile));
      assert IsLive(c, start, Clean(e.systemPromptFile));
    }
  }

  /** Before the first commit the graph reads as it did at the start. */
  lemma UncommittedReadsAsStart(c: Codec, key: string, start: Dir, calls: seq<Call>, dir: Dir)
    requires Register(c, start, calls, dir) && LastCommitted(calls).None? && StartSafe(c, start, calls)
    requires YAML in start ==> ReadGraph(c, key, start).Ok?
    ensures ReadGraph(c, key, dir) == ReadGraph(c, key, start)
  {
    hide ReadEntry, LiveFilesKept, IsLive;
    if YAML in start {
      var doc := c.unmarshal(start[YAML]).value;
      ReadEntriesPointwise(start, doc.agents);
      forall i | 0 <= i < |doc.agents|
        ensures ReadEntry(dir, doc.agents[i]) == ReadEntry(start, doc.agents[i])
      {
        assert ReadEntry(start, doc.agents[i]).Ok?;
        LiveEntryReadsSame(c, start, dir, doc, i);
      }
      SamePromptsSameEntries(start, dir, doc.agents);
    }
  }

  lemma {:induction false} LastKey(c: Codec, key: string, start: Dir, calls: seq<Call>)
    requires History(c, key, start, calls) && LastCommitted(calls).Some?
    ensures LastCommitted(calls).value.key == key
  {
    if !calls[|calls| - 1].committed {
      LastKey(c, key, start, calls[..|calls| - 1]);
    }
  }

  /** What a history needs to find: once something is committed only that a leftover sidecar is
      harmless for the last committed request, whatever else the start holds; before that, a
      readable deployment, or none, whose prompts are not replaced. */
  ghost predicate StartFits(c: Codec, key: string, start: Dir, calls: seq<Call>) {
    match LastCommitted(calls)
    case Some(r) => SidecarHarmless(c, r, start)
    case None => StartSafe(c, start, calls) && (YAML in start ==> ReadGraph(c, key, start).Ok?)
  }

  /** Crash atomicity: after every history of writes, each cut off or failing anywhere, with
      artifacts installed before, between and after them, the deployment reads as the normal form
      of the last request whose rename happened, or, if there was none, as it read at the start. */
  lemma HistoriesRefineARegister(c: Codec, key: string, start: Dir, calls: seq<Call>, now: Dir)
    requires c.Lawful() && History(c, key, start, calls) && WellBehaved(c, calls)
    requires StartFits(c, key, start, calls) && ArtifactsOnly(FinalDir(start, calls), now)
    ensures ReadGraph(c, key, now) ==
            match LastCommitted(calls)
            case Some(r) => Ok(Graph(r.rootId, Norm(r.rootId, r.agents)))
            case None => ReadGraph(c, key, start)
  {
    RegisterInvariant(c, key, start, calls);
    ArtifactsKeepRegister(c, start, calls, FinalDir(start, calls), now);
    match LastCommitted(calls)
    case Some(r) =>
      LastCommittedIsACall(calls);
      LastKey(c, key, start, calls);
      HarmlessIsQuiet(c, r, start, now);
      WriteThenRead(c, r, now);
    case None =>
      UncommittedReadsAsStart(c, key, start, calls, now);
  }
}
