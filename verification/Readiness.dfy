/** What one creation leaves among the files of its deployment, wherever it stops, and why they
    are ready when its container is created. */
module Readiness {
  import opened Common
  import opened Model
  import opened FileSystem
  import opened Document
  import opened RoundTrip
  import opened Store
  import opened Artifacts
  import opened SkillDirs
  import opened ToolLists
  import Naming
  import Paths
  import Skills
  import Tools
  import Validate

  // ---- Requests --------------------------------------------------------------------------------

  lemma ValidKeyIsSegment(checks: Checks, req: CreateRequest)
    requires ValidRequest(checks, req)
    ensures Paths.IsSegment(req.key) && '\\' !in req.key && Naming.IsSanitized(req.key)
  {
    Naming.SanitizedIsSegment(req.key);
  }

  function ToWrite(req: CreateRequest, paths: map<string, seq<string>>): WriteRequest {
    WriteRequest(req.key, req.rootId, req.agents, req.provider, req.aigc, req.hub, paths)
  }

  /** A validated request meets what the store and the installers demand. */
  lemma ValidIsStorable(checks: Checks, req: CreateRequest, paths: map<string, seq<string>>)
    requires ValidRequest(checks, req)
    ensures Storable(ToWrite(req, paths)) && Paths.IsSegment(req.key) && '\\' !in req.key
    ensures ToolsValid(checks, req.agents) && SkillsValid(checks, req.agents)
  {
    ValidKeyIsSegment(checks, req);
    forall a | a in req.agents
      ensures '/' !in a.name && MatchesNamePattern(a.name)
      ensures forall s :: s in Elems(a.skills) ==> SkillOk(checks, s)
    {
      assert AgentOk(checks, a);
      NameHasNoSlash(a.name);
    }
    forall a | a in req.agents
      ensures DistinctToolNames(Elems(a.customTools)) && forall t :: t in Elems(a.customTools) ==> ToolOk(checks, t)
    {
      assert AgentOk(checks, a);
    }
  }

  /** The prompts of one valid request never share a file. */
  lemma NoClashWithin(c: Codec, agents: seq<Agent>)
    requires UniqueIds(agents)
    ensures NoClash(c, agents, agents)
  {
    forall i, j | 0 <= i < |agents| && 0 <= j < |agents|
      ensures PromptsCompatible(c, agents[i], agents[j])
    {
      assert i < j ==> agents[i].name != agents[j].name;
      assert j < i ==> agents[j].name != agents[i].name;
    }
  }

  // ---- Installed tools ---------------------------------------------------------------------------

  /** What the installation of tools passed on: the declaration behind each tool name, and the
      paths each agent lists. */
  datatype Provision = Provision(decl: map<string, ToolSource>, paths: map<string, seq<string>>)

  ghost predicate ToolFilesKept(before: Dir, after: Dir) {
    forall p :: "tools/" <= p ==> SameAt(before, after, p)
  }

  lemma StagingKeepsOthers(c: Codec, agents: seq<Agent>, before: Dir, after: Dir, path: string)
    requires Staged(c, agents, before, after) && !(PROMPTS <= path) && path != YAML_TMP
    ensures SameAt(before, after, path)
  {
    forall i | 0 <= i < |agents| {
      PromptPathIsApart(c, agents[i]);
    }
    if path in before {
      assert Survives(c, agents, before, after, path);
    }
  }

  /** Writing the document leaves the tools alone, wherever it is cut off. */
  lemma WriteKeepsTools(c: Codec, r: WriteRequest, before: Dir, after: Dir, committed: bool)
    requires CallEffect(c, r, before, after, committed)
    ensures ToolFilesKept(before, after)
  {
    forall p | "tools/" <= p
      ensures SameAt(before, after, p)
    {
      assert p[0] == 't' && PROMPTS[0] == 'p' && YAML[0] == 'a' && YAML_TMP[0] == 'a' && SIDECAR[0] == 'd';
      if committed {
        var staged :| Staged(c, r.agents, before, staged)
                      && Pruned(PromptRefs(c, r.agents), Switched(staged, c.marshal(BuildDoc(c, r))), after);
        StagingKeepsOthers(c, r.agents, before, staged, p);
        assert !Removable(PromptRefs(c, r.agents), p);
      } else {
        StagingKeepsOthers(c, r.agents, before, after, p);
      }
    }
  }

  lemma ToolsStayInstalled(c: Codec, agents: seq<Agent>, before: Dir, after: Dir, p: Provision)
    requires ToolFilesKept(before, after) && ToolsInstalled(c.sha, agents, before, p.decl, p.paths)
    ensures ToolsInstalled(c.sha, agents, after, p.decl, p.paths)
  {
    forall a | a in agents
      ensures AgentToolsInstalled(c.sha, a, after, p.decl, PathsOf(p.paths, a.name))
    {
      assert AgentToolsInstalled(c.sha, a, before, p.decl, PathsOf(p.paths, a.name));
      forall t | t in Elems(a.customTools)
        ensures ToolPresent(c.sha, after, p.decl[t.name], t.hash)
      {
        assert ToolPresent(c.sha, before, p.decl[t.name], t.hash);
        assert SameAt(before, after, Tools.ToolPath(p.decl[t.name]));
      }
    }
  }

  lemma MarkersStayTruthful(sha: Bytes -> Digest, before: Dir, after: Dir)
    requires ToolFilesKept(before, after) && Tools.CacheSound(sha, before)
    ensures Tools.CacheSound(sha, after)
  {
    forall path | Tools.IsArtifactPath(path)
      ensures Tools.ArtifactSound(sha, after, path)
    {
      assert Tools.ArtifactSound(sha, before, path);
      assert SameAt(before, after, path) && SameAt(before, after, Tools.MarkerPath(path));
    }
  }

  // ---- Artifacts beside the store ------------------------------------------------------------------

  lemma ToolsAreArtifacts(before: Dir, after: Dir)
    requires ToolsOnly(before, after)
    ensures ArtifactsOnly(before, after)
  {
  }

  /** Skills in directories of their agents' own are artifacts, and leave the tools alone. */
  lemma SkillsAreArtifacts(checks: Checks, agents: seq<Agent>, before: Dir, after: Dir)
    requires SkillsValid(checks, agents) && SkillDirsApart(agents) && SkillsOnly(agents, before, after)
    ensures ArtifactsOnly(before, after) && ToolFilesKept(before, after)
  {
    forall p | !("skills/" <= p)
      ensures SameAt(before, after, p)
    {
      if UnderSkills(agents, p) {
        ApartSkillsStayBelow(checks, agents, p);
      }
    }
    assert "tools/"[0] == 't' && "skills/"[0] == 's';
  }

  lemma ArtifactsTwice(d0: Dir, d1: Dir, d2: Dir)
    requires ArtifactsOnly(d0, d1) && ArtifactsOnly(d1, d2)
    ensures ArtifactsOnly(d0, d2)
  {
    forall p | !IsArtifactFile(p)
      ensures SameAt(d0, d2, p)
    {
      assert SameAt(d0, d1, p) && SameAt(d1, d2, p);
    }
  }

  // ---- The document ----------------------------------------------------------------------------------------

  lemma DocumentAfterWrite(c: Codec, r: WriteRequest, before: Dir, after: Dir, committed: bool)
    requires CallEffect(c, r, before, after, committed)
    ensures YAML in after <==> committed || YAML in before
  {
    FixedNamesAreApart();
    if !committed {
      StagedKeepsFixedFiles(c, r.agents, before, after, YAML);
    }
  }

  /** Where no skill directory is the document, it stays through the installation of skills. */
  lemma DocumentStays(checks: Checks, req: CreateRequest, after: Dir, last: Dir)
    requires ValidRequest(checks, req) && SkillsOnly(req.agents, after, last) && DocumentApart(req.agents)
    ensures SameAt(after, last, YAML)
  {
    ValidIsStorable(checks, req, map[]);
    DocumentOutOfReachIff(checks, req.agents);
  }

  // ---- Creations as writes ---------------------------------------------------------------------------

  ghost predicate PathsAreListed(agents: seq<Agent>, paths: map<string, seq<string>>) {
    exists decl :: ToolsListed(agents, decl, paths)
  }

  /** Tools are installed and the document of the request is written, cut off anywhere. */
  ghost predicate IsWrite(c: Codec, req: CreateRequest, start: Dir, call: Call) {
    && call.request == ToWrite(req, call.request.toolPaths)
    && ArtifactsOnly(start, call.before)
    && CallEffect(c, call.request, call.before, call.after, call.committed)
    && (call.committed ==> PathsAreListed(req.agents, call.request.toolPaths))
  }

  /** Nothing is written yet, or never. */
  lemma NothingWritten(c: Codec, req: CreateRequest, start: Dir, dir: Dir)
    requires ArtifactsOnly(start, dir)
    ensures IsWrite(c, req, start, Call(ToWrite(req, map[]), dir, false, dir))
  {
    StagedReflexive(c, req.agents, dir);
  }

  /** One creation among the files of its deployment: after that skills are installed. */
  ghost predicate IsCreation(c: Codec, req: CreateRequest, start: Dir, call: Call, last: Dir) {
    IsWrite(c, req, start, call) && (SkillDirsApart(req.agents) ==> ArtifactsOnly(call.after, last))
  }

  /** A creation of a run: its request, its write, and the files after it. */
  datatype Creation = Creation(request: CreateRequest, call: Call, files: Dir)

  function LastFiles(start: Dir, run: seq<Creation>): Dir {
    if run == [] then start else run[|run| - 1].files
  }

  /** Serial creations of one deployment, each stopping anywhere. */
  ghost predicate CreationRun(c: Codec, key: string, start: Dir, run: seq<Creation>) {
    run != [] ==>
      var last, rest := run[|run| - 1], run[..|run| - 1];
      && CreationRun(c, key, start, rest)
      && last.request.key == key && SkillDirsApart(last.request.agents)
      && IsCreation(c, last.request, LastFiles(start, rest), last.call, last.files)
  }

  function CallsOf(run: seq<Creation>): (calls: seq<Call>)
    ensures |calls| == |run|
  {
    seq(|run|, i requires 0 <= i < |run| => run[i].call)
  }

  lemma {:induction false} CreationsAreHistory(c: Codec, key: string, start: Dir, run: seq<Creation>)
    requires CreationRun(c, key, start, run)
    ensures History(c, key, start, CallsOf(run))
    ensures ArtifactsOnly(FinalDir(start, CallsOf(run)), LastFiles(start, run))
  {
    if run != [] {
      var n := |run| - 1;
      var rest := run[..n];
      CreationsAreHistory(c, key, start, rest);
      assert CallsOf(run)[..n] == CallsOf(rest);
      ArtifactsTwice(FinalDir(start, CallsOf(rest)), LastFiles(start, rest), run[n].call.before);
    }
  }

  /** Crash atomicity of whole creations: after any serial run of them, whatever is installed
      and wherever each stops, the deployment reads as the normal form of the last request whose
      document was committed, or as it read at the start. */
  lemma CreationsRefineARegister(c: Codec, key: string, start: Dir, run: seq<Creation>)
    requires c.Lawful() && CreationRun(c, key, start, run)
    requires WellBehaved(c, CallsOf(run)) && StartFits(c, key, start, CallsOf(run))
    ensures ReadGraph(c, key, LastFiles(start, run)) ==
            match LastCommitted(CallsOf(run))
            case Some(r) => Ok(Graph(r.rootId, Norm(r.rootId, r.agents)))
            case None => ReadGraph(c, key, start)
  {
    CreationsAreHistory(c, key, start, run);
    HistoriesRefineARegister(c, key, start, CallsOf(run), LastFiles(start, run));
  }

  // ---- One creation ------------------------------------------------------------------------------------

  ghost predicate ReadsAsRequested(c: Codec, req: CreateRequest, dir: Dir) {
    ReadGraph(c, req.key, dir) == Ok(Graph(req.rootId, Norm(req.rootId, req.agents)))
  }

  /** Skill directories that are their agents' own, and no sidecar that would be taken for one of
      this request. */
  ghost predicate StoreReady(c: Codec, req: CreateRequest, dir: Dir) {
    c.Lawful() && SkillDirsApart(req.agents) && SidecarHarmless(c, ToWrite(req, map[]), dir)
  }

  /** A deployment, if there is one, that reads and whose prompts this request does not replace. */
  ghost predicate Replaceable(c: Codec, req: CreateRequest, dir: Dir) {
    StagingSafe(c, req.agents, dir) && (YAML in dir ==> ReadGraph(c, req.key, dir).Ok?)
  }

  /** Without embedded declarations no agent lists tools, and the paths do not matter. */
  lemma SameDocumentWithoutTools(c: Codec, req: CreateRequest, paths: map<string, seq<string>>)
    requires UniqueIds(req.agents) && Embedded(req.agents) == map[] && PathsAreListed(req.agents, paths)
    ensures BuildDoc(c, ToWrite(req, paths)) == BuildDoc(c, ToWrite(req, map[]))
  {
    var r, s := ToWrite(req, paths), ToWrite(req, map[]);
    var decl :| ToolsListed(req.agents, decl, paths);
    EmbeddedSpec(req.agents);
    forall i | 0 <= i < |req.agents|
      ensures BuildEntries(c, r, r.agents)[i] == BuildEntries(c, s, s.agents)[i]
    {
      var a := req.agents[i];
      assert a in req.agents && EmbeddedAs(Embedded(req.agents), a);
      assert AgentToolsListed(a, decl, PathsOf(paths, a.name));
      assert PathsOf(paths, a.name) == [];
    }
    assert BuildEntries(c, r, r.agents) == BuildEntries(c, s, s.agents);
  }

  /** A sidecar found harmless before the call is so for the document that is written. */
  lemma StillHarmless(c: Codec, req: CreateRequest, dir: Dir, paths: map<string, seq<string>>)
    requires UniqueIds(req.agents) && SidecarHarmless(c, ToWrite(req, map[]), dir) && PathsAreListed(req.agents, paths)
    ensures SidecarHarmless(c, ToWrite(req, paths), dir)
  {
    if Embedded(req.agents) == map[] {
      SameDocumentWithoutTools(c, req, paths);
    }
  }

  /** Wherever a creation stops, the stored graph is the old one or that of the request: the
      request's exactly once its document is committed. */
  lemma CreationIsAtomic(c: Codec, checks: Checks, req: CreateRequest, start: Dir, call: Call, last: Dir)
    requires ValidRequest(checks, req) && StoreReady(c, req, start) && IsCreation(c, req, start, call, last)
    ensures call.committed ==> ReadsAsRequested(c, req, last)
    ensures !call.committed && Replaceable(c, req, start) ==>
      ReadGraph(c, req.key, last) == ReadGraph(c, req.key, start)
  {
    ValidIsStorable(checks, req, call.request.toolPaths);
    NoClashWithin(c, req.agents);
    var run := [Creation(req, call, last)];
    assert run[..0] == [] && CallsOf(run) == [call] && [call][..0] == [];
    assert CreationRun(c, req.key, start, run[..0]) && LastFiles(start, run[..0]) == start;
    assert CreationRun(c, req.key, start, run);
    if call.committed {
      StillHarmless(c, req, start, call.request.toolPaths);
    }
    if call.committed || Replaceable(c, req, start) {
      CreationsRefineARegister(c, req.key, start, run);
    }
  }

  /** What holds when the container is created: the committed document reads back as this
      request's graph, and every declared tool and skill is installed with its declared hash. */
  ghost predicate PreStart(c: Codec, lib: Skills.Library, req: CreateRequest, dir: Dir, slots: Slots, p: Provision) {
    && Holds(c, ToWrite(req, p.paths), dir) && ReadsAsRequested(c, req, dir)
    && ToolsInstalled(c.sha, req.agents, dir, p.decl, p.paths)
    && SkillsInstalled(lib, slots, req.agents)
  }

  /** The markers of tools and skills tell the truth. */
  ghost predicate CachesSound(c: Codec, lib: Skills.Library, dir: Dir, slots: Slots) {
    Tools.CacheSound(c.sha, dir) && Skills.SkillsSound(lib, slots)
  }

  lemma EmptyCachesAreSound(c: Codec, lib: Skills.Library)
    ensures CachesSound(c, lib, map[], map[])
  {
  }

  /** Tools, document, skills, one after the other: the disk is ready for the container. */
  lemma DeploymentIsReady(c: Codec, lib: Skills.Library, checks: Checks, req: CreateRequest, p: Provision,
                          start: Dir, call: Call, last: Dir, slots: Slots)
    requires ValidRequest(checks, req) && StoreReady(c, req, start) && IsCreation(c, req, start, call, last)
    requires call.committed && call.request == ToWrite(req, p.paths)
    requires ToolsInstalled(c.sha, req.agents, call.before, p.decl, p.paths)
    requires SkillsOnly(req.agents, call.after, last) && SkillsInstalled(lib, slots, req.agents)
    ensures PreStart(c, lib, req, last, slots, p)
  {
    ValidIsStorable(checks, req, p.paths);
    CreationIsAtomic(c, checks, req, start, call, last);
    CommitHolds(c, call.request, call.before, call.after);
    ArtifactsKeepHolds(c, call.request, call.after, last);
    WriteKeepsTools(c, call.request, call.before, call.after, true);
    ToolsStayInstalled(c, req.agents, call.before, call.after, p);
    SkillsAreArtifacts(checks, req.agents, call.after, last);
    ToolsStayInstalled(c, req.agents, call.after, last, p);
  }

  /** What a creation leaves, by the files and skills it finds: where the store is ready, the old
      graph or that of the request, and that of the request once a container was tried; where
      the markers are truthful, truthful markers, unless a fault met a marker of another hash;
      where both hold, everything the container needs; and never a sidecar that was not there. */
  ghost predicate CreationOutcome(c: Codec, lib: Skills.Library, req: CreateRequest, dir: Dir, slots: Slots,
                                  dir': Dir, slots': Slots, started: Option<Provision>, faulted: bool)
  {
    && (StoreReady(c, req, dir) && started.Some? ==> ReadsAsRequested(c, req, dir'))
    && (StoreReady(c, req, dir) && Replaceable(c, req, dir) ==>
          ReadsAsRequested(c, req, dir') || ReadGraph(c, req.key, dir') == ReadGraph(c, req.key, dir))
    && (SkillDirsApart(req.agents) && CachesSound(c, lib, dir, slots)
        && !(faulted && HasForeignMarker(Validate.AllTools(req.agents), dir)) ==>
          CachesSound(c, lib, dir', slots'))
    && (StoreReady(c, req, dir) && CachesSound(c, lib, dir, slots) && started.Some? ==>
          PreStart(c, lib, req, dir', slots', started.value))
    && (SkillDirsApart(req.agents) && SIDECAR !in dir ==> SIDECAR !in dir')
  }

  lemma NoNewSidecar(c: Codec, checks: Checks, req: CreateRequest, start: Dir, call: Call, last: Dir)
    requires ValidRequest(checks, req) && IsCreation(c, req, start, call, last) && SkillDirsApart(req.agents)
    requires SIDECAR !in start
    ensures SIDECAR !in last
  {
    StoreFilesAreNoArtifacts(SIDECAR);
    assert SameAt(start, call.before, SIDECAR) && SameAt(call.after, last, SIDECAR);
    if call.committed {
      ValidIsStorable(checks, req, call.request.toolPaths);
      CommitHolds(c, call.request, call.before, call.after);
    } else {
      StagedKeepsFixedFiles(c, req.agents, call.before, call.after, SIDECAR);
    }
  }

  lemma NothingCreated(c: Codec, lib: Skills.Library, req: CreateRequest, dir: Dir, slots: Slots, faulted: bool)
    ensures CreationOutcome(c, lib, req, dir, slots, dir, slots, None, faulted)
  {
  }

  lemma OutcomeOfCreation(c: Codec, lib: Skills.Library, checks: Checks, req: CreateRequest,
                          dir: Dir, slots: Slots, call: Call, dir': Dir, slots': Slots,
                          started: Option<Provision>, faulted: bool, spoiled: bool)
    requires ValidRequest(checks, req) && IsWrite(c, req, dir, call) && SkillsOnly(req.agents, call.after, dir')
    requires started.Some? ==>
      && call.committed && call.request == ToWrite(req, started.value.paths)
      && (Tools.CacheSound(c.sha, dir) ==>
            ToolsInstalled(c.sha, req.agents, call.before, started.value.decl, started.value.paths))
      && (SkillDirsApart(req.agents) && Skills.SkillsSound(lib, slots) ==> SkillsInstalled(lib, slots', req.agents))
    requires Tools.CacheSound(c.sha, dir) && !spoiled ==> Tools.CacheSound(c.sha, call.after)
    requires spoiled ==> faulted && HasForeignMarker(Validate.AllTools(req.agents), dir)
    requires SkillDirsApart(req.agents) && Skills.SkillsSound(lib, slots) ==> Skills.SkillsSound(lib, slots')
    ensures CreationOutcome(c, lib, req, dir, slots, dir', slots', started, faulted)
  {
    ValidIsStorable(checks, req, map[]);
    if SkillDirsApart(req.agents) {
      SkillsAreArtifacts(checks, req.agents, call.after, dir');
      if SIDECAR !in dir {
        NoNewSidecar(c, checks, req, dir, call, dir');
      }
      if StoreReady(c, req, dir) {
        CreationIsAtomic(c, checks, req, dir, call, dir');
      }
      if Tools.CacheSound(c.sha, call.after) {
        MarkersStayTruthful(c.sha, call.after, dir');
      }
      if StoreReady(c, req, dir) && CachesSound(c, lib, dir, slots) && started.Some? {
        DeploymentIsReady(c, lib, checks, req, started.value, dir, call, dir', slots');
      }
    }
  }

  // ---- Runs from the empty directory ---------------------------------------------------------------------

  /** One creation of a run, with what it left and whether a fault was met. */
  datatype Attempt = Attempt(request: CreateRequest, files: Dir, skills: Slots, started: Option<Provision>,
                             faulted: bool)

  function FilesAfter(run: seq<Attempt>): Dir {
    if run == [] then map[] else run[|run| - 1].files
  }

  function SkillsAfter(run: seq<Attempt>): Slots {
    if run == [] then map[] else run[|run| - 1].skills
  }

  /** Serial creations of one deployment from nothing, with skill directories of their agents'
      own, in which no fault meets a marker of another hash. */
  ghost predicate AttemptRun(c: Codec, lib: Skills.Library, run: seq<Attempt>) {
    run != [] ==>
      var last, rest := run[|run| - 1], run[..|run| - 1];
      && AttemptRun(c, lib, rest)
      && SkillDirsApart(last.request.agents)
      && CreationOutcome(c, lib, last.request, FilesAfter(rest), SkillsAfter(rest),
                         last.files, last.skills, last.started, last.faulted)
      && !(last.faulted && HasForeignMarker(Validate.AllTools(last.request.agents), FilesAfter(rest)))
  }

  lemma {:induction false} RunsKeepCachesSound(c: Codec, lib: Skills.Library, run: seq<Attempt>)
    requires AttemptRun(c, lib, run)
    ensures CachesSound(c, lib, FilesAfter(run), SkillsAfter(run)) && SIDECAR !in FilesAfter(run)
  {
    if run == [] {
      EmptyCachesAreSound(c, lib);
    } else {
      RunsKeepCachesSound(c, lib, run[..|run| - 1]);
    }
  }

  /** Pre-start completeness: in every such run, whenever the creation of a container is tried,
      the committed document reads back as its request and every declared tool and skill is
      installed with its declared hash. */
  lemma RunsAreReady(c: Codec, lib: Skills.Library, run: seq<Attempt>)
    requires c.Lawful() && AttemptRun(c, lib, run) && run != [] && run[|run| - 1].started.Some?
    ensures var last := run[|run| - 1];
            PreStart(c, lib, last.request, last.files, last.skills, last.started.value)
  {
    RunsKeepCachesSound(c, lib, run[..|run| - 1]);
  }
}
