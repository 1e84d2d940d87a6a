/** The writer and the reader of one deployment, step by step on the data directory. */
module Storage {
  import opened Common
  import opened Paths
  import opened Model
  import opened FileSystem
  import opened Document
  import opened RoundTrip
  import opened Store
  import Order

  datatype WriteError = BadKey | RootNotInGraph | DirFault | PromptFault | DocumentFault | CommitFault

  // ---- Single steps of staging ---------------------------------------------------------

  lemma TempIsStaged(c: Codec, a: Agent, before: Dir, temp: string, data: Bytes)
    requires temp !in before && IsPromptEntry(temp)
    ensures Staged(c, [a], before, before[temp := data])
  {
  }

  lemma PlacingIsStaged(c: Codec, a: Agent, before: Dir)
    requires a.systemPrompt != "" && '/' !in a.name
    ensures Staged(c, [a], before, before[PromptPath(c, a) := a.systemPrompt])
  {
    FileNameIsSegment(c, a.name, a.systemPrompt);
    assert [a][0] == a;
    assert IsPromptOf(c, [a], PromptPath(c, a), a.systemPrompt);
  }

  lemma TempIsPromptEntry(c: Codec, a: Agent, digits: string)
    requires '/' !in a.name && IsDigits(digits)
    ensures IsPromptEntry(PROMPTS + (PromptFileName(c, a.name, a.systemPrompt) + ".tmp-") + digits)
  {
    var f := PromptFileName(c, a.name, a.systemPrompt);
    FileNameIsSegment(c, a.name, a.systemPrompt);
    assert (PROMPTS + (f + ".tmp-") + digits)[|PROMPTS|..] == f + ".tmp-" + digits;
  }

  /** Staging one agent of a request is part of staging the request. */
  lemma OneOfMany(c: Codec, agents: seq<Agent>, i: nat, before: Dir, after: Dir)
    requires i < |agents| && Staged(c, [agents[i]], before, after)
    ensures Staged(c, agents, before, after)
  {
    forall p | p in before && p != YAML_TMP
      ensures Survives(c, agents, before, after, p)
    {
      assert Survives(c, [agents[i]], before, after, p);
    }
  }

  /** Staging one agent keeps the prompts placed before it. */
  lemma PlacedStaysPlaced(c: Codec, agents: seq<Agent>, i: nat, before: Dir, after: Dir)
    requires Coherent(c, agents) && i < |agents| && Staged(c, [agents[i]], before, after)
    requires PromptsPlaced(c, agents[..i], before) && PromptPlaced(c, agents[i], after)
    ensures PromptsPlaced(c, agents[..i + 1], after)
  {
    forall j | 0 <= j < i + 1
      ensures PromptPlaced(c, agents[j], after)
    {
      if j < i && agents[j].systemPrompt != "" {
        assert PromptPlaced(c, agents[..i][j], before);
        PromptPathIsApart(c, agents[j]);
        assert Survives(c, [agents[i]], before, after, PromptPath(c, agents[j]));
        assert SameFileSameText(c, agents[i], agents[j]);
      }
    }
  }

  /** In strictly increasing order. */
  predicate Increasing(names: seq<string>) {
    forall i, j :: 0 <= i < j < |names| ==> Order.LexLe(names[i], names[j]) && names[i] != names[j]
  }

  lemma SortedIsIncreasing(names: seq<string>)
    requires Distinct(names)
    ensures var sorted := Order.SortBy(names, (name: string) => name);
            Increasing(sorted) && ToSet(sorted) == ToSet(names)
  {
    var id := (name: string) => name;
    var sorted := Order.SortBy(names, id);
    Order.SortByIsSort(names, id);
    Order.SameMembers(names, sorted);
    forall i, j | 0 <= i < j < |sorted|
      ensures Order.LexLe(sorted[i], sorted[j]) && sorted[i] != sorted[j]
    {
      assert Order.LexLe(id(sorted[i]), id(sorted[j]));
      Order.PermutationIsDistinct(names, sorted, i, j);
    }
  }

  // ---- Steps of the write ---------------------------------------------------------------

  lemma TmpEffect(c: Codec, agents: seq<Agent>, start: Dir, before: map<string, Dir>, after: map<string, Dir>,
                  key: string)
    requires Staged(c, agents, start, FilesOf(before, key))
    requires after == before || exists data :: after == Put(before, key, YAML_TMP, data)
    ensures Staged(c, agents, start, FilesOf(after, key)) && OnlyKey(before, after, key)
  {
    if data :| after == Put(before, key, YAML_TMP, data) {
      UpdateIsLocal(before, key, FilesOf(before, key)[YAML_TMP := data]);
      assert FilesOf(after, key) == FilesOf(before, key)[YAML_TMP := data];
      forall p | p in start && p != YAML_TMP
        ensures Survives(c, agents, start, FilesOf(after, key), p)
      {
        assert Survives(c, agents, start, FilesOf(before, key), p);
      }
    }
  }

  lemma PruneAfterSidecar(refs: map<string, string>, switched: Dir, swept: Dir, pruned: Dir)
    requires swept == switched - {SIDECAR} || swept == switched
    requires Pruned(refs, swept, pruned)
    ensures Pruned(refs, switched, pruned)
  {
  }

  lemma KeptArePlaced(c: Codec, r: WriteRequest, dir: Dir)
    requires Storable(r) && PromptsPlaced(c, r.agents, dir)
    ensures forall p :: p in Kept(PromptRefs(c, r.agents)) ==> p in dir && IsPromptEntry(p)
  {
    PromptRefsSpec(c, r.agents);
    forall p | p in Kept(PromptRefs(c, r.agents))
      ensures p in dir && IsPromptEntry(p)
    {
      var id :| id in PromptRefs(c, r.agents) && PROMPTS + Base(PromptRefs(c, r.agents)[id]) == p;
      var a :| a in r.agents && a.name == id && a.systemPrompt != "" && PromptRefs(c, r.agents)[id] == PromptRef(c, a);
      var i :| 0 <= i < |r.agents| && r.agents[i] == a;
      assert PromptPlaced(c, r.agents[i], dir);
      PromptRefResolves(c, a);
      FileNameIsSegment(c, a.name, a.systemPrompt);
    }
  }

  lemma HasEntrySnoc(entries: seq<Entry>, e: Entry, id: string)
    ensures HasEntry(entries + [e], id) <==> HasEntry(entries, id) || e.id == id
  {
    var all := entries + [e];
    if HasEntry(entries, id) {
      var i :| 0 <= i < |entries| && entries[i].id == id;
      assert all[i].id == id;
    }
    assert all[|entries|] == e;
  }

  /** Staging the prompt of one agent touches only its key and only as staging may. */
  predicate StageEffect(c: Codec, a: Agent, before: map<string, Dir>, after: map<string, Dir>, key: string) {
    OnlyKey(before, after, key) && Staged(c, [a], FilesOf(before, key), FilesOf(after, key))
  }

  /** The outcomes of ReplacePrompt once its temporary file exists: it is still there, it is
      renamed into place, or it is removed again. */
  lemma TempEffect(c: Codec, a: Agent, files: map<string, Dir>, key: string, temp: string, data: Bytes)
    requires a.systemPrompt != "" && '/' !in a.name
    requires temp !in FilesOf(files, key)
    requires exists digits ::
      IsDigits(digits) && temp == PROMPTS + (PromptFileName(c, a.name, a.systemPrompt) + ".tmp-") + digits
    ensures var dir, with := FilesOf(files, key), FilesOf(files, key)[temp := data];
            && StageEffect(c, a, files, Put(files, key, temp, data), key)
            && StageEffect(c, a, files, Put(files, key, temp, data)[key := with - {temp}], key)
            && StageEffect(c, a, files,
                           Put(files, key, temp, data)[key := (with - {temp})[PromptPath(c, a) := a.systemPrompt]], key)
  {
    var dir := FilesOf(files, key);
    var digits :| IsDigits(digits) && temp == PROMPTS + (PromptFileName(c, a.name, a.systemPrompt) + ".tmp-") + digits;
    TempIsPromptEntry(c, a, digits);
    TempIsStaged(c, a, dir, temp, data);
    PlacingIsStaged(c, a, dir);
    assert dir[temp := data] - {temp} == dir;
    UpdateIsLocal(files, key, dir[temp := data]);
    var put := Put(files, key, temp, data);
    UpdateIsLocal(put, key, dir);
    UpdateIsLocal(put, key, dir[PromptPath(c, a) := a.systemPrompt]);
  }

  lemma SlashInName(c: Codec, a: Agent)
    ensures '/' in PromptFileName(c, a.name, a.systemPrompt) + ".tmp-" <==> '/' in a.name
  {
    var f := PromptFileName(c, a.name, a.systemPrompt) + ".tmp-";
    assert forall i :: 0 <= i < |a.name| ==> f[i] == a.name[i];
    if '/' !in a.name {
      FileNameIsSegment(c, a.name, a.systemPrompt);
    }
  }

  class AgentStorage {
    const fs: DataDir
    const codec: Codec

    constructor (fs: DataDir, codec: Codec)
      ensures this.fs == fs && this.codec == codec
    {
      this.fs, this.codec := fs, codec;
    }

    /** A temporary sibling is written, synced, closed and renamed into place. */
    method ReplacePrompt(key: string, a: Agent) returns (ok: bool)
      requires a.systemPrompt != ""
      modifies fs`files, fs`halted, fs`faulted
      ensures StageEffect(codec, a, old(fs.files), fs.files, key)
      ensures ok ==> PromptPlaced(codec, a, FilesOf(fs.files, key))
      ensures !ok ==> fs.faulted || '/' in a.name
      ensures old(fs.faulted) ==> fs.faulted
    {
      ghost var files := fs.files;
      var name := PromptFileName(codec, a.name, a.systemPrompt);
      var temp := fs.CreateTemp(key, PROMPTS, name + ".tmp-");
      SlashInName(codec, a);
      if temp.None? {
        return false;
      }
      ok := fs.WriteFile(key, temp.value, a.systemPrompt);
      ghost var written := FilesOf(fs.files, key)[temp.value];
      PutTwice(files, key, temp.value, "", written);
      assert fs.files == Put(files, key, temp.value, written);
      TempEffect(codec, a, files, key, temp.value, written);
      if ok {
        ok := fs.Proceed(); // Sync
      }
      if ok {
        ok := fs.Proceed(); // Close
      }
      if ok {
        ok := fs.Rename(key, temp.value, PROMPTS + name);
        if ok {
          return;
        }
      }
      var _ := fs.Remove(key, temp.value);
    }

    /** One turn of writeSystemPromptFiles. */
    method StagePrompt(key: string, a: Agent) returns (ok: bool)
      modifies fs`files, fs`halted, fs`faulted
      ensures StageEffect(codec, a, old(fs.files), fs.files, key)
      ensures ok ==> PromptPlaced(codec, a, FilesOf(fs.files, key))
      ensures !ok ==> fs.faulted || '/' in a.name
      ensures old(fs.faulted) ==> fs.faulted
    {
      if a.systemPrompt == "" {
        return true;
      }
      ok := fs.MkdirAll(key);
      if !ok {
        return;
      }
      var existing := fs.ReadFile(key, PromptPath(codec, a));
      if existing == Some(a.systemPrompt) {
        return true;
      }
      ok := ReplacePrompt(key, a);
    }

    /** writeSystemPromptFiles */
    method StagePrompts(key: string, agents: seq<Agent>) returns (ok: bool)
      modifies fs`files, fs`halted, fs`faulted
      ensures OnlyKey(old(fs.files), fs.files, key)
      ensures Staged(codec, agents, FilesOf(old(fs.files), key), FilesOf(fs.files, key))
      ensures ok && Coherent(codec, agents) ==> PromptsPlaced(codec, agents, FilesOf(fs.files, key))
      ensures !ok ==> fs.faulted || exists a :: a in agents && '/' in a.name
      ensures old(fs.faulted) ==> fs.faulted
    {
      ghost var start := FilesOf(fs.files, key);
      for i := 0 to |agents|
        invariant OnlyKey(old(fs.files), fs.files, key)
        invariant Staged(codec, agents, start, FilesOf(fs.files, key))
        invariant Coherent(codec, agents) ==> PromptsPlaced(codec, agents[..i], FilesOf(fs.files, key))
        invariant old(fs.faulted) ==> fs.faulted
      {
        ghost var before := FilesOf(fs.files, key);
        ok := StagePrompt(key, agents[i]);
        OneOfMany(codec, agents, i, before, FilesOf(fs.files, key));
        StagedTransitive(codec, agents, start, before, FilesOf(fs.files, key));
        if !ok {
          return;
        }
        if Coherent(codec, agents) {
          PlacedStaysPlaced(codec, agents, i, before, FilesOf(fs.files, key));
        }
      }
      assert agents[..|agents|] == agents;
      ok := true;
    }

    /** The document is built by loops over the agents. */
    method BuildDocument(r: WriteRequest) returns (doc: Doc, refs: map<string, string>)
      ensures doc == BuildDoc(codec, r) && refs == PromptRefs(codec, r.agents)
    {
      hide PromptRef, BuildEntry, AigcSection, HubSection;
      var agents := r.agents;
      refs := map[];
      for i := 0 to |agents|
        invariant refs == PromptRefs(codec, agents[..i])
      {
        assert agents[..i + 1][..i] == agents[..i];
        if agents[i].systemPrompt != "" {
          refs := refs[agents[i].name := PromptRef(codec, agents[i])];
        }
      }
      assert agents[..|agents|] == agents;
      var entries: seq<Entry> := [];
      for i := 0 to |agents|
        invariant |entries| == i
        invariant forall j :: 0 <= j < i ==> entries[j] == BuildEntries(codec, r, agents)[j]
      {
        entries := entries + [BuildEntry(codec, r, refs, agents[i])];
      }
      assert entries == BuildEntries(codec, r, agents);
      var embedded: map<string, Artifacts> := map[];
      for i := 0 to |agents|
        invariant embedded == Embedded(agents[..i])
      {
        assert agents[..i + 1][..i] == agents[..i];
        var a := agents[i];
        if Elems(a.skills) != [] || Elems(a.customTools) != [] {
          embedded := embedded[a.name := Artifacts(a.skills, a.customTools)];
        }
      }
      doc := Doc(AigcSection(r.aigc), HubSection(r.hub), entries, r.rootId, embedded);
    }

    /** gcPromptFiles: any of the removals may fail. */
    method CollectGarbage(key: string, refs: map<string, string>)
      modifies fs`files, fs`halted, fs`faulted
      ensures OnlyKey(old(fs.files), fs.files, key)
      ensures Pruned(refs, FilesOf(old(fs.files), key), FilesOf(fs.files, key))
      ensures SIDECAR in FilesOf(old(fs.files), key) ==> SIDECAR in FilesOf(fs.files, key)
      ensures old(fs.faulted) ==> fs.faulted
      ensures !fs.faulted ==> forall p :: p in FilesOf(fs.files, key) && IsPromptEntry(p) ==> p in Kept(refs)
    {
      var keep: set<string> := {};
      var pending := refs.Keys;
      while pending != {}
        invariant pending <= refs.Keys
        invariant keep == set id | id in refs.Keys - pending :: PROMPTS + Base(refs[id])
        decreases pending
      {
        var id :| id in pending;
        keep := keep + {PROMPTS + Base(refs[id])};
        pending := pending - {id};
      }
      assert keep == Kept(refs);
      var entries := fs.ReadDir(key, PROMPTS);
      if entries.None? {
        return;
      }
      ghost var start := FilesOf(fs.files, key);
      FixedNamesAreApart();
      for i := 0 to |entries.value|
        invariant OnlyKey(old(fs.files), fs.files, key)
        invariant Pruned(refs, start, FilesOf(fs.files, key))
        invariant SIDECAR in start ==> SIDECAR in FilesOf(fs.files, key)
        invariant old(fs.faulted) ==> fs.faulted
        invariant !fs.faulted ==>
          forall j :: 0 <= j < i && entries.value[j] in FilesOf(fs.files, key) ==> entries.value[j] in keep
      {
        var p := entries.value[i];
        if p !in keep {
          ghost var before := fs.files;
          var _ := fs.Remove(key, p);
          UpdateIsLocal(before, key, FilesOf(before, key) - {p});
        }
      }
    }

    /** WriteAgentYAML. Returns an error exactly when the document was not committed; what it
        does to the files of its key, cut off or failing anywhere, is CallEffect. */
    method WriteAgentYAML(r: WriteRequest) returns (error: Option<WriteError>)
      modifies fs`files, fs`halted, fs`faulted
      ensures OnlyKey(old(fs.files), fs.files, r.key)
      ensures CallEffect(codec, r, FilesOf(old(fs.files), r.key), FilesOf(fs.files, r.key), error.None?)
      ensures r.key in {"", ".", ".."} || '/' in r.key || '\\' in r.key || !HasId(r.agents, r.rootId) ==>
        error.Some? && fs.files == old(fs.files)
      ensures old(fs.faulted) ==> fs.faulted
      // without a fault a storable request commits, and exactly its prompts remain
      ensures !fs.faulted && IsSegment(r.key) && '\\' !in r.key && Storable(r) ==> error.None?
      ensures !fs.faulted && error.None? ==> SIDECAR !in FilesOf(fs.files, r.key)
      ensures !fs.faulted && error.None? && Storable(r) ==>
        forall p :: p in FilesOf(fs.files, r.key) && IsPromptEntry(p) <==> p in Kept(PromptRefs(codec, r.agents))
    {
      hide BuildDoc, Coherent, PromptRef, Base;
      ghost var start := FilesOf(fs.files, r.key);
      StagedReflexive(codec, r.agents, start);
      if !IsSegment(r.key) || '\\' in r.key {
        return Some(BadKey);
      }
      var byId: set<string> := {};
      for i := 0 to |r.agents|
        invariant byId == Ids(r.agents[..i])
      {
        assert r.agents[..i + 1] == r.agents[..i] + [r.agents[i]];
        byId := byId + {r.agents[i].name};
      }
      assert r.agents[..|r.agents|] == r.agents;
      if r.rootId !in byId {
        return Some(RootNotInGraph);
      }
      var doc, refs := BuildDocument(r);
      var data := codec.marshal(doc);
      var ok := fs.MkdirAll(r.key);
      if !ok {
        return Some(DirFault);
      }
      ok := StagePrompts(r.key, r.agents);
      if !ok {
        return Some(PromptFault);
      }
      ghost var files, staged := fs.files, FilesOf(fs.files, r.key);
      ok := fs.WriteFile(r.key, YAML_TMP, data);
      TmpEffect(codec, r.agents, start, files, fs.files, r.key);
      if !ok {
        return Some(DocumentFault);
      }
      ok := fs.Rename(r.key, YAML_TMP, YAML);
      if !ok {
        return Some(CommitFault);
      }
      assert FilesOf(fs.files, r.key) == Switched(staged, data) by {
        assert staged[YAML_TMP := data] - {YAML_TMP} == staged - {YAML_TMP};
      }
      assert OnlyKey(old(fs.files), fs.files, r.key) by {
        UpdateIsLocal(Put(files, r.key, YAML_TMP, data), r.key, Switched(staged, data));
      }
      // the switch has happened: from here on nothing is reported
      ghost var switched := fs.files;
      var _ := fs.Remove(r.key, SIDECAR);
      UpdateIsLocal(switched, r.key, FilesOf(switched, r.key) - {SIDECAR});
      ghost var swept := FilesOf(fs.files, r.key);
      CollectGarbage(r.key, refs);
      PruneAfterSidecar(refs, Switched(staged, data), swept, FilesOf(fs.files, r.key));
      error := None;
      if Storable(r) {
        CommitHolds(codec, r, start, FilesOf(fs.files, r.key));
        KeptArePlaced(codec, r, FilesOf(fs.files, r.key));
      }
    }

    /** The loop of ReadAgentYAML over the entries. */
    method ReadAgents(key: string, entries: seq<Entry>, rootId: string)
      returns (read: Result<seq<Agent>, ReadError>, foundRoot: bool)
      modifies fs`halted, fs`faulted
      ensures read != Err(ReadFault) ==> read == ReadEntries(FilesOf(fs.files, key), entries)
      ensures read == Err(ReadFault) ==> fs.faulted
      ensures read.Ok? ==> (foundRoot <==> HasEntry(entries, rootId))
      ensures old(fs.faulted) ==> fs.faulted
    {
      var dir := FilesOf(fs.files, key);
      var agents: seq<Agent> := [];
      foundRoot := false;
      for i := 0 to |entries|
        invariant ReadEntries(dir, entries[..i]) == Ok(agents)
        invariant foundRoot <==> HasEntry(entries[..i], rootId)
        invariant old(fs.faulted) ==> fs.faulted
      {
        var e := entries[i];
        assert entries[..i + 1][..i] == entries[..i];
        assert entries[..i + 1] == entries[..i] + [e];
        HasEntrySnoc(entries[..i], e, rootId);
        foundRoot := foundRoot || e.id == rootId;
        var prompt := e.systemPrompt;
        if e.systemPromptFile != "" {
          var path := Clean(e.systemPromptFile);
          if !(PROMPTS <= path) {
            ReadAllFails(Reader(dir), entries, i, EscapesPrompts(EntryName(e)));
            return Err(EscapesPrompts(EntryName(e))), foundRoot;
          }
          var content := fs.ReadFile(key, path);
          if content.None? {
            if path !in dir {
              ReadAllFails(Reader(dir), entries, i, MissingPrompt(EntryName(e)));
              return Err(MissingPrompt(EntryName(e))), foundRoot;
            }
            return Err(ReadFault), foundRoot;
          }
          prompt := content.value;
        }
        agents := agents + [EntryAgent(e, prompt)];
      }
      assert entries[..|entries|] == entries;
      read := Ok(agents);
    }

    /** ReadAgentYAML: on an undisturbed disk exactly ReadGraph. */
    method ReadAgentYAML(key: string) returns (graph: Result<Graph, ReadError>)
      modifies fs`halted, fs`faulted
      ensures graph != Err(ReadFault) ==> graph == ReadGraph(codec, key, FilesOf(fs.files, key))
      ensures graph == Err(ReadFault) ==> fs.faulted
      ensures old(fs.faulted) ==> fs.faulted
    {
      var dir := FilesOf(fs.files, key);
      var data := fs.ReadFile(key, YAML);
      if data.None? {
        return Err(if YAML in dir then ReadFault else NotFound);
      }
      var doc := codec.unmarshal(data.value);
      if doc.None? {
        return Err(BadYaml);
      }
      if |doc.value.agents| == 0 {
        return Err(NoAgents);
      }
      var rootId := RootOf(key, doc.value);
      var agents, foundRoot := ReadAgents(key, doc.value.agents, rootId);
      if agents.Err? {
        return Err(agents.error);
      }
      if !foundRoot {
        return Err(NoRootEntry(rootId));
      }
      if doc.value.manifest != map[] {
        return Ok(Graph(rootId, Merge(doc.value.manifest, agents.value)));
      }
      var sidecar := fs.ReadFile(key, SIDECAR);
      if sidecar.None? {
        return if SIDECAR in dir then Err(ReadFault) else Ok(Graph(rootId, agents.value));
      }
      match codec.parseSidecar(sidecar.value)
      case None =>
        graph := Err(BadSidecar);
      case Some(m) =>
        if m.yamlDigest == "" || m.yamlDigest != codec.sha(data.value) {
          graph := Ok(Graph(rootId, agents.value));
        } else {
          graph := Ok(Graph(rootId, Merge(m.artifacts, agents.value)));
        }
    }

    /** ListAgentDirs: the keys of the deployments, sorted; a directory whose document cannot be
        examined is skipped. */
    method ListAgentDirs() returns (names: Option<seq<string>>)
      modifies fs`halted, fs`faulted
      ensures names.Some? ==> Increasing(names.value) && ToSet(names.value) <= Deployments(fs.files)
      ensures names.Some? && !fs.faulted ==> ToSet(names.value) == Deployments(fs.files)
      ensures names.None? ==> fs.faulted
      ensures old(fs.faulted) ==> fs.faulted
    {
      var ok := fs.Proceed(); // os.ReadDir of the data directory
      if !ok {
        return None;
      }
      var found: seq<string>, pending := [], fs.files.Keys;
      while pending != {}
        invariant pending <= fs.files.Keys
        invariant Distinct(found) && ToSet(found) <= Deployments(fs.files) - pending
        invariant !fs.faulted ==> ToSet(found) == Deployments(fs.files) - pending
        invariant old(fs.faulted) ==> fs.faulted
        decreases pending
      {
        var key :| key in pending;
        var stat := fs.ReadFile(key, YAML);
        pending := pending - {key};
        if stat.Some? {
          assert key !in ToSet(found);
          ToSetSnoc(found, key);
          found := found + [key];
        }
      }
      SortedIsIncreasing(found);
      names := Some(Order.SortBy(found, (name: string) => name));
    }
  }
}
