/** Reading back what was written: the round trip, its fixpoint, and which files it rests on. */
module RoundTrip {
  import opened Common
  import opened Paths
  import opened Model
  import opened FileSystem
  import opened Document
  import Naming
  import Order

  // ---- Prompt file names -------------------------------------------------------------

  /** The fixed-length suffix makes the file name determine the id and the hash prefix. */
  lemma PromptFileNameInjective(c: Codec, id1: string, text1: string, id2: string, text2: string)
    requires PromptFileName(c, id1, text1) == PromptFileName(c, id2, text2)
    ensures id1 == id2 && c.sha(text1)[..16] == c.sha(text2)[..16]
  {
    var f1, f2 := PromptFileName(c, id1, text1), PromptFileName(c, id2, text2);
    assert |f1| == |id1| + 20 && |f2| == |id2| + 20;
    assert id1 == f1[..|f1| - 20] && id2 == f2[..|f2| - 20];
    assert c.sha(text1)[..16] == f1[|f1| - 19..|f1| - 3] && c.sha(text2)[..16] == f2[|f2| - 19..|f2| - 3];
  }

  /** Where the files of a store lie: prompt files are apart from the three fixed names. */
  lemma PromptPathIsApart(c: Codec, a: Agent)
    ensures PROMPTS <= PromptPath(c, a)
    ensures PromptPath(c, a) != YAML && PromptPath(c, a) != YAML_TMP && PromptPath(c, a) != SIDECAR
  {
    assert PromptPath(c, a)[0] == 'p';
  }

  lemma FileNameIsSegment(c: Codec, id: string, text: string)
    requires '/' !in id
    ensures var f := PromptFileName(c, id, text); IsSegment(f) && IsEntryOf(PROMPTS, PROMPTS + f)
  {
    var f, hash := PromptFileName(c, id, text), c.sha(text)[..16];
    assert f[|id|] == '-' && |f| > 2;
    assert '/' !in hash by {
      assert forall i :: 0 <= i < |hash| ==> IsHex(c.sha(text)[i]);
    }
    assert (PROMPTS + f)[|PROMPTS|..] == f;
  }

  /** The reference in the document resolves to the file that was staged. */
  lemma PromptRefResolves(c: Codec, a: Agent)
    requires '/' !in a.name
    ensures Clean(PromptRef(c, a)) == PromptPath(c, a)
    ensures PROMPTS + Base(PromptRef(c, a)) == PromptPath(c, a)
  {
    var f := PromptFileName(c, a.name, a.systemPrompt);
    FileNameIsSegment(c, a.name, a.systemPrompt);
    SplitPlain(f);
    SplitAtSlash("prompts", f);
    SplitAtSlash(".", "prompts/" + f);
    assert PromptRef(c, a) == "." + "/" + ("prompts/" + f);
    assert "prompts/" + f == "prompts" + "/" + f;
    var segs := [".", "prompts", f];
    assert Split(PromptRef(c, a)) == segs;
    assert segs[1..] == ["prompts", f];
    RunPushes([], ["prompts", f], false);
    assert [] + ["prompts", f] == ["prompts", f];
    assert Join(["prompts", f]) == "prompts" + "/" + Join(["prompts", f][1..]);
  }

  // ---- The maps built from a request ---------------------------------------------------

  lemma {:induction false} PromptRefsSpec(c: Codec, agents: seq<Agent>)
    ensures forall id :: id in PromptRefs(c, agents) ==>
      exists a :: a in agents && a.name == id && a.systemPrompt != "" && PromptRefs(c, agents)[id] == PromptRef(c, a)
    ensures UniqueIds(agents) ==> forall a :: a in agents ==>
      (a.name in PromptRefs(c, agents) <==> a.systemPrompt != "")
      && (a.systemPrompt != "" ==> PromptRefs(c, agents)[a.name] == PromptRef(c, a))
  {
    if agents != [] {
      var n := |agents| - 1;
      PromptRefsSpec(c, agents[..n]);
      assert agents == agents[..n] + [agents[n]];
    }
  }

  /** The artifacts of an agent are embedded under its id, and only if it declares some. */
  predicate EmbeddedAs(m: map<string, Artifacts>, a: Agent) {
    && (a.name in m <==> Elems(a.skills) != [] || Elems(a.customTools) != [])
    && (a.name in m ==> m[a.name] == Artifacts(a.skills, a.customTools))
  }

  lemma {:induction false} EmbeddedSpec(agents: seq<Agent>)
    ensures Embedded(agents).Keys <= Ids(agents)
    ensures UniqueIds(agents) ==> forall a :: a in agents ==> EmbeddedAs(Embedded(agents), a)
  {
    if agents != [] {
      var n := |agents| - 1;
      EmbeddedSpec(agents[..n]);
      assert agents == agents[..n] + [agents[n]];
      if UniqueIds(agents) {
        assert agents[n].name !in Ids(agents[..n]);
        forall a | a in agents
          ensures EmbeddedAs(Embedded(agents), a)
        {
          assert a == agents[n] || EmbeddedAs(Embedded(agents[..n]), a);
        }
      }
    }
  }

  lemma ReadEntriesPointwise(dir: Dir, entries: seq<Entry>)
    ensures ReadEntries(dir, entries).Ok? ==>
      && |ReadEntries(dir, entries).value| == |entries|
      && forall i :: 0 <= i < |entries| ==> ReadEntry(dir, entries[i]) == Ok(ReadEntries(dir, entries).value[i])
    ensures (forall i :: 0 <= i < |entries| ==> ReadEntry(dir, entries[i]).Ok?) ==> ReadEntries(dir, entries).Ok?
  {
    ReadAllPointwise(Reader(dir), entries);
  }

  predicate PromptPlaced(c: Codec, a: Agent, dir: Dir) {
    a.systemPrompt != "" ==> PromptPath(c, a) in dir && dir[PromptPath(c, a)] == a.systemPrompt
  }

  predicate PromptsPlaced(c: Codec, agents: seq<Agent>, dir: Dir) {
    forall i :: 0 <= i < |agents| ==> PromptPlaced(c, agents[i], dir)
  }

  // ---- The committed state of a request ------------------------------------------------

  /** The document of request r is committed and each of its prompts is in its file. */
  ghost predicate Holds(c: Codec, r: WriteRequest, dir: Dir) {
    && YAML in dir && dir[YAML] == c.marshal(BuildDoc(c, r))
    && PromptsPlaced(c, r.agents, dir)
  }

  /** A normal agent without its artifact declarations. */
  function Bare(a: Agent): Agent {
    a.(skills := None, customTools := None)
  }

  lemma EntryRoundTrip(c: Codec, r: WriteRequest, dir: Dir, i: nat)
    requires Storable(r) && PromptsPlaced(c, r.agents, dir) && i < |r.agents|
    ensures ReadEntry(dir, WireEntry(BuildEntries(c, r, r.agents)[i])) == Ok(Bare(NormAgent(r.rootId, r.agents[i])))
  {
    var a := r.agents[i];
    PromptRefsSpec(c, r.agents);
    assert a in r.agents && PromptPlaced(c, a, dir);
    PromptRefResolves(c, a);
    PromptPathIsApart(c, a);
  }

  lemma MergeRoundTrip(r: WriteRequest, m: map<string, Artifacts>, i: nat)
    requires Storable(r) && i < |r.agents|
    requires m == map id | id in Embedded(r.agents) :: WireArtifacts(Embedded(r.agents)[id])
    ensures MergeOne(m, Bare(NormAgent(r.rootId, r.agents[i]))) == NormAgent(r.rootId, r.agents[i])
  {
    EmbeddedSpec(r.agents);
    assert r.agents[i] in r.agents;
  }

  /** Without embedded declarations no agent declares artifacts. */
  lemma NothingEmbedded(r: WriteRequest, i: nat)
    requires Storable(r) && i < |r.agents| && Embedded(r.agents) == map[]
    ensures Bare(NormAgent(r.rootId, r.agents[i])) == NormAgent(r.rootId, r.agents[i])
  {
    EmbeddedSpec(r.agents);
    assert r.agents[i] in r.agents;
  }

  /** A leftover sidecar adds nothing to the committed document of r. */
  predicate SidecarQuiet(c: Codec, r: WriteRequest, dir: Dir)
    requires YAML in dir
  {
    Embedded(r.agents) != map[] || SIDECAR !in dir
    || match c.parseSidecar(dir[SIDECAR])
       case None => false
       case Some(m) =>
         m.yamlDigest == "" || m.yamlDigest != c.sha(dir[YAML])
         || forall a :: a in r.agents ==> ArtifactsOf(m.artifacts, a.name) == Artifacts(None, None)
  }

  /** A sidecar found before the write will add nothing to the document of r: it is not there,
      it is not read because declarations are embedded, or it is well formed and either bound
      to another document or silent about the agents of r. */
  predicate SidecarHarmless(c: Codec, r: WriteRequest, dir: Dir) {
    Embedded(r.agents) != map[] || SIDECAR !in dir
    || match c.parseSidecar(dir[SIDECAR])
       case None => false
       case Some(m) =>
         m.yamlDigest == "" || m.yamlDigest != c.sha(c.marshal(BuildDoc(c, r)))
         || forall a :: a in r.agents ==> ArtifactsOf(m.artifacts, a.name) == Artifacts(None, None)
  }

  /** For a sidecar that a commit leaves behind, that is exactly what keeps it quiet. */
  lemma HarmlessIsQuiet(c: Codec, r: WriteRequest, before: Dir, after: Dir)
    requires Holds(c, r, after)
    requires SIDECAR in after ==> SIDECAR in before && after[SIDECAR] == before[SIDECAR]
    ensures SidecarHarmless(c, r, before) ==> SidecarQuiet(c, r, after)
    ensures SIDECAR in after ==> (SidecarHarmless(c, r, before) <==> SidecarQuiet(c, r, after))
  {
  }

  function BareNorm(r: WriteRequest): (bare: seq<Agent>)
    ensures |bare| == |r.agents|
  {
    seq(|r.agents|, i requires 0 <= i < |r.agents| => Bare(NormAgent(r.rootId, r.agents[i])))
  }

  lemma EntriesRoundTrip(c: Codec, r: WriteRequest, dir: Dir, entries: seq<Entry>)
    requires Storable(r) && PromptsPlaced(c, r.agents, dir)
    requires |entries| == |r.agents|
    requires forall i :: 0 <= i < |entries| ==> entries[i] == WireEntry(BuildEntries(c, r, r.agents)[i])
    ensures ReadEntries(dir, entries) == Ok(BareNorm(r))
  {
    forall i | 0 <= i < |entries|
      ensures ReadEntry(dir, entries[i]) == Ok(BareNorm(r)[i])
    {
      EntryRoundTrip(c, r, dir, i);
    }
    ReadEntriesPointwise(dir, entries);
    var read := ReadEntries(dir, entries).value;
    forall i | 0 <= i < |read|
      ensures read[i] == BareNorm(r)[i]
    {
      assert ReadEntry(dir, entries[i]) == Ok(read[i]);
    }
    assert read == BareNorm(r);
  }

  /** The embedded declarations complete the agents read from the entries. */
  lemma EmbeddedRoundTrip(r: WriteRequest, m: map<string, Artifacts>)
    requires Storable(r)
    requires m == map id | id in Embedded(r.agents) :: WireArtifacts(Embedded(r.agents)[id])
    ensures Merge(m, BareNorm(r)) == Norm(r.rootId, r.agents)
    ensures m == map[] ==> BareNorm(r) == Norm(r.rootId, r.agents)
  {
    forall i | 0 <= i < |r.agents|
      ensures Merge(m, BareNorm(r))[i] == Norm(r.rootId, r.agents)[i]
    {
      MergeRoundTrip(r, m, i);
    }
    if m == map[] {
      assert m.Keys == Embedded(r.agents).Keys;
      forall i | 0 <= i < |r.agents|
        ensures BareNorm(r)[i] == Norm(r.rootId, r.agents)[i]
      {
        NothingEmbedded(r, i);
      }
    }
  }

  lemma RootEntryExists(c: Codec, r: WriteRequest)
    requires Storable(r)
    ensures HasEntry(Wire(BuildDoc(c, r)).agents, r.rootId)
  {
    var i :| 0 <= i < |r.agents| && r.agents[i].name == r.rootId;
    assert Wire(BuildDoc(c, r)).agents[i].id == r.rootId;
  }

  /** What a committed request reads back as, whatever sidecar is left. */
  lemma CommittedReads(c: Codec, r: WriteRequest, dir: Dir)
    requires c.Lawful() && Storable(r) && Holds(c, r, dir)
    ensures ReadGraph(c, r.key, dir) ==
      var normal := Norm(r.rootId, r.agents);
      if Embedded(r.agents) != map[] then Ok(Graph(r.rootId, normal))
      else match LoadSidecar(c, dir, normal, c.sha(dir[YAML]))
           case Err(error) => Err(error)
           case Ok(all) => Ok(Graph(r.rootId, all))
  {
    hide BuildEntry, ReadEntries, NormAgent, HasEntry;
    var doc := Wire(BuildDoc(c, r));
    assert c.unmarshal(dir[YAML]) == Some(doc);
    EntriesRoundTrip(c, r, dir, doc.agents);
    RootEntryExists(c, r);
    EmbeddedRoundTrip(r, doc.manifest);
    assert doc.manifest.Keys == Embedded(r.agents).Keys;
    assert doc.agents != [] by { assert HasEntry(doc.agents, r.rootId); }
  }

  /** Declarations of a bound sidecar leave the graph alone iff there are none for its agents. */
  lemma SidecarEffect(r: WriteRequest, m: map<string, Artifacts>, normal: seq<Agent>)
    requires normal == Norm(r.rootId, r.agents)
    requires forall i :: 0 <= i < |normal| ==> Bare(normal[i]) == normal[i]
    ensures Merge(m, normal) == normal <==>
      forall a :: a in r.agents ==> ArtifactsOf(m, a.name) == Artifacts(None, None)
  {
    forall i | 0 <= i < |normal|
      ensures Merge(m, normal)[i] == normal[i] <==> ArtifactsOf(m, r.agents[i].name) == Artifacts(None, None)
    {
      assert normal[i].name == r.agents[i].name && normal[i].skills.None? && normal[i].customTools.None?;
    }
    if Merge(m, normal) == normal {
      forall a | a in r.agents
        ensures ArtifactsOf(m, a.name) == Artifacts(None, None)
      {
        var i :| 0 <= i < |r.agents| && r.agents[i] == a;
        assert Merge(m, normal)[i] == normal[i];
      }
    } else {
      var i :| 0 <= i < |normal| && Merge(m, normal)[i] != normal[i];
      assert r.agents[i] in r.agents;
    }
  }

  /** Round trip: a committed request reads back as its normal form, exactly when no
      leftover sidecar interferes. */
  lemma WriteThenRead(c: Codec, r: WriteRequest, dir: Dir)
    requires c.Lawful() && Storable(r) && Holds(c, r, dir)
    ensures ReadGraph(c, r.key, dir) == Ok(Graph(r.rootId, Norm(r.rootId, r.agents))) <==> SidecarQuiet(c, r, dir)
  {
    CommittedReads(c, r, dir);
    var normal := Norm(r.rootId, r.agents);
    if Embedded(r.agents) == map[] && SIDECAR in dir && c.parseSidecar(dir[SIDECAR]).Some? {
      forall i | 0 <= i < |normal|
        ensures Bare(normal[i]) == normal[i]
      {
        NothingEmbedded(r, i);
      }
      SidecarEffect(r, c.parseSidecar(dir[SIDECAR]).value.artifacts, normal);
    }
  }

  lemma PromptRefText(c: Codec, a: Agent)
    ensures PromptRef(c, a) == "./prompts/" + a.name + "-" + c.sha(a.systemPrompt)[..16] + ".md"
  {
    var rest := "-" + c.sha(a.systemPrompt)[..16] + ".md";
    assert PromptFileName(c, a.name, a.systemPrompt) == a.name + rest;
  }

  // ---- What a read does not show ---------------------------------------------------------

  /** An entry of the document: identified by the agent's id, its prompt only by file reference,
      credentials and runtime-global fields on the root alone, the custom tool paths sorted and
      complete, the skill directory listed iff the agent declares skills; the rest is the agent's. */
  lemma EntryShape(c: Codec, r: WriteRequest, i: nat)
    requires Storable(r) && i < |r.agents|
    ensures var e, a := BuildDoc(c, r).agents[i], r.agents[i];
            && e.id == e.name == a.name && e.systemPrompt == "" && e.legacyMaxSessionTurns.None?
            && e.systemPromptFile == (if a.systemPrompt == "" then ""
                                      else "./prompts/" + a.name + "-" + c.sha(a.systemPrompt)[..16] + ".md")
            && (a.name == r.rootId ==>
                 && [e.apiType, e.baseURL, e.apiKey] == [r.provider.protocol, r.provider.baseURL, r.provider.apiKey]
                 && [e.model, e.permissionMode, e.effort] == [a.model, a.permissionMode, a.effort]
                 && e.maxSessionQueries == a.maxSessionQueries && e.thinking == a.thinking)
            && (a.name != r.rootId ==>
                 [e.apiType, e.baseURL, e.apiKey, e.model, e.permissionMode, e.effort] == ["", "", "", "", "", ""]
                                       && e.maxSessionQueries.None? && e.thinking.None?)
    ensures var e, a := BuildDoc(c, r).agents[i], r.agents[i];
            && multiset(Elems(e.customTools)) == multiset(PathsOf(r.toolPaths, a.name))
            && Order.SortedBy(Elems(e.customTools), path => path)
            && Elems(e.extraUserSkillDirs) == (if Elems(a.skills) == [] then [] else ["/app/config/skills/" + a.name])
            && Elems(e.settingSources) == (if a.name == r.rootId && Elems(a.settingSources) == [] then ["project"]
                                           else Elems(a.settingSources))
            && e.description == a.description && e.maxTurns == a.maxTurns
            && e.allowedTools == a.tools && e.disallowedTools == a.disallowedTools && e.subagents == a.subagents
            && e.mcpServers == a.mcpServers && e.datasets == a.datasets
  {
    var a := r.agents[i];
    assert a in r.agents;
    PromptRefsSpec(c, r.agents);
    PromptRefText(c, a);
    assert Naming.ContainerSkillDir(a.name) == "/app/config/skills/" + a.name;
    if a.name in r.toolPaths {
      Order.SortByIsSort(r.toolPaths[a.name], path => path);
    }
  }

  /** The document: one entry per agent in the request's order, the root marked by its id, and
      the optional sections exactly when enabled, with the explicit hint on unless refused. */
  lemma DocumentShape(c: Codec, r: WriteRequest)
    ensures var d := BuildDoc(c, r);
            && |d.agents| == |r.agents| && (forall i :: 0 <= i < |r.agents| ==> d.agents[i].id == r.agents[i].name)
            && d.rootId == r.rootId
            && (d.aigc.Some? <==> r.aigc.Some? && r.aigc.value.enabled)
            && (d.aigc.Some? ==> d.aigc.value.explicitHint == Some(r.aigc.value.explicitHint != Some(false))
                                 && d.aigc.value.(explicitHint := None) == r.aigc.value.(explicitHint := None))
            && (d.hub.Some? <==> r.hub.Some? && r.hub.value.enabled) && (d.hub.Some? ==> d.hub == r.hub)
  {
    if r.aigc.Some? && r.aigc.value.explicitHint.Some? {
      var hint := r.aigc.value.explicitHint.value;
      assert Some(hint) == Some(Some(hint) != Some(false));
    }
  }

  /** What may become of servers: an empty map of them, or of headers, becomes absent. */
  predicate SameServers(before: Option<map<string, McpServer>>, after: Option<map<string, McpServer>>) {
    match after
    case None => before in {None, Some(map[])}
    case Some(servers) =>
      && servers != map[] && before.Some? && servers.Keys == before.value.Keys
      && forall name :: name in servers ==>
           var was, now := before.value[name], servers[name];
           && now.transport == was.transport && now.url == was.url
           && (now.headers == was.headers || was.headers == Some(map[])) && now.headers != Some(map[])
           && (was.headers == Some(map[]) ==> now.headers == None)
  }

  lemma WireMcpKeeps(servers: Option<map<string, McpServer>>)
    ensures SameServers(servers, WireMcp(servers))
  {
    if OmitEmptyMap(servers).Some? {
      assert WireMcp(servers).value.Keys == servers.value.Keys;
    }
  }

  /** For an accepted graph the normal form loses nothing: it only makes empty collections
      absent and gives the root its default setting source. */
  lemma NormLosesNothing(rootId: string, a: Agent)
    requires a.name != rootId ==> RuntimeGlobalFree(a)
    ensures var n := NormAgent(rootId, a);
            && Elems(n.tools) == Elems(a.tools) && Elems(n.disallowedTools) == Elems(a.disallowedTools)
            && Elems(n.customTools) == Elems(a.customTools) && Elems(n.skills) == Elems(a.skills)
            && Elems(n.subagents) == Elems(a.subagents)
            && Elems(n.settingSources) == (if a.name == rootId && Elems(a.settingSources) == [] then ["project"]
                                           else Elems(a.settingSources))
            && SameServers(a.mcpServers, n.mcpServers)
            && (n.datasets == a.datasets || (a.datasets == Some(map[]) && n.datasets == None))
            && n == a.(tools := n.tools, disallowedTools := n.disallowedTools, customTools := n.customTools,
                       skills := n.skills, subagents := n.subagents, settingSources := n.settingSources,
                       mcpServers := n.mcpServers, datasets := n.datasets)
  {
    hide WireMcp, SameServers;
    WireMcpKeeps(a.mcpServers);
  }

  /** Nothing in a normal form is present and empty. */
  lemma NormHasNoEmpty(rootId: string, a: Agent)
    ensures var n := NormAgent(rootId, a);
            && n.tools != Some([]) && n.disallowedTools != Some([]) && n.customTools != Some([]) && n.skills != Some([])
            && n.settingSources != Some([]) && n.subagents != Some([])
            && n.mcpServers != Some(map[]) && n.datasets != Some(map[])
            && (n.mcpServers.Some? ==>
                 forall name :: name in n.mcpServers.value ==> n.mcpServers.value[name].headers != Some(map[]))
  {
    hide WireMcp;
    WireMcpKeeps(a.mcpServers);
  }

  /** Encoding and decoding a document drops nothing but what is empty. */
  lemma WireLosesNothing(d: Doc, i: nat, id: string)
    ensures var w := Wire(d);
            && w.rootId == d.rootId && w.hub == d.hub && (w.aigc.Some? <==> d.aigc.Some?)
            && (w.aigc.Some? ==>
                 && w.aigc.value.(modelCodes := None) == d.aigc.value.(modelCodes := None)
                 && (w.aigc.value.modelCodes == d.aigc.value.modelCodes || d.aigc.value.modelCodes == Some(map[])))
            && |w.agents| == |d.agents|
    ensures i < |d.agents| ==>
      var e, was := Wire(d).agents[i], d.agents[i];
      && Elems(e.allowedTools) == Elems(was.allowedTools) && Elems(e.disallowedTools) == Elems(was.disallowedTools)
      && Elems(e.customTools) == Elems(was.customTools) && Elems(e.settingSources) == Elems(was.settingSources)
      && Elems(e.extraUserSkillDirs) == Elems(was.extraUserSkillDirs) && Elems(e.subagents) == Elems(was.subagents)
      && SameServers(was.mcpServers, e.mcpServers)
      && (e.datasets == was.datasets || was.datasets == Some(map[]))
      && e == was.(allowedTools := e.allowedTools, disallowedTools := e.disallowedTools,
                   customTools := e.customTools, settingSources := e.settingSources,
                   extraUserSkillDirs := e.extraUserSkillDirs, subagents := e.subagents,
                   mcpServers := e.mcpServers, datasets := e.datasets)
    ensures (id in Wire(d).manifest <==> id in d.manifest)
            && (id in d.manifest ==>
                 && Elems(Wire(d).manifest[id].skills) == Elems(d.manifest[id].skills)
                 && Elems(Wire(d).manifest[id].customTools) == Elems(d.manifest[id].customTools))
  {
    hide WireMcp, SameServers;
    if i < |d.agents| {
      WireMcpKeeps(d.agents[i].mcpServers);
    }
  }

  lemma WireMcpIdempotent(servers: Option<map<string, McpServer>>)
    ensures WireMcp(WireMcp(servers)) == WireMcp(servers)
  {
    if OmitEmptyMap(servers).Some? {
      var m := OmitEmptyMap(servers).value;
      var once := WireMcp(servers).value;
      assert once.Keys == m.Keys;
      assert once != map[];
      assert WireMcp(Some(once)).Some?;
      assert WireMcp(Some(once)).value == once;
    }
  }

  // ---- Normal forms are fixed ------------------------------------------------------------

  lemma NormIdempotent(rootId: string, agents: seq<Agent>)
    ensures Norm(rootId, Norm(rootId, agents)) == Norm(rootId, agents)
  {
    var once := Norm(rootId, agents);
    forall i | 0 <= i < |agents|
      ensures NormAgent(rootId, once[i]) == once[i]
    {
      WireMcpIdempotent(agents[i].mcpServers);
    }
  }

  /** The request that writes back what a read of r returns, with the other arguments kept. */
  function Rewrite(r: WriteRequest): WriteRequest {
    r.(agents := Norm(r.rootId, r.agents))
  }

  lemma {:induction false} NormKeepsRefs(c: Codec, rootId: string, agents: seq<Agent>)
    ensures PromptRefs(c, Norm(rootId, agents)) == PromptRefs(c, agents)
  {
    if agents != [] {
      var n := |agents| - 1;
      NormKeepsRefs(c, rootId, agents[..n]);
      assert Norm(rootId, agents)[..n] == Norm(rootId, agents[..n]);
    }
  }

  lemma {:induction false} NormKeepsEmbedded(rootId: string, agents: seq<Agent>)
    ensures Embedded(Norm(rootId, agents)).Keys == Embedded(agents).Keys
    ensures forall id :: id in Embedded(agents) ==>
      Embedded(Norm(rootId, agents))[id] == WireArtifacts(Embedded(agents)[id])
  {
    if agents != [] {
      var n := |agents| - 1;
      NormKeepsEmbedded(rootId, agents[..n]);
      assert Norm(rootId, agents)[..n] == Norm(rootId, agents[..n]);
    }
  }

  lemma NormKeepsEntry(c: Codec, r: WriteRequest, refs: map<string, string>, a: Agent)
    ensures WireEntry(BuildEntry(c, Rewrite(r), refs, NormAgent(r.rootId, a))) == WireEntry(BuildEntry(c, r, refs, a))
  {
    WireMcpIdempotent(a.mcpServers);
  }

  /** Fixpoint: writing back what was read yields the same document, byte for byte. */
  lemma RewriteIsStable(c: Codec, r: WriteRequest)
    requires c.Lawful()
    ensures c.marshal(BuildDoc(c, Rewrite(r))) == c.marshal(BuildDoc(c, r))
  {
    var d, d' := BuildDoc(c, r), BuildDoc(c, Rewrite(r));
    NormKeepsRefs(c, r.rootId, r.agents);
    NormKeepsEmbedded(r.rootId, r.agents);
    var refs := PromptRefs(c, r.agents);
    forall i | 0 <= i < |r.agents|
      ensures Wire(d').agents[i] == Wire(d).agents[i]
    {
      NormKeepsEntry(c, r, refs, r.agents[i]);
    }
    assert Wire(d').agents == Wire(d).agents;
    assert Wire(d').manifest == Wire(d).manifest;
    assert Wire(d') == Wire(d);
    assert c.marshal(Wire(d')) == c.marshal(d') && c.marshal(Wire(d)) == c.marshal(d);
  }
}
