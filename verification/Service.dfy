/** The deployment operations, across Docker, the data directory and the artifact installers. */
module Service {
  import opened Common
  import opened Model
  import opened FileSystem
  import opened Docker
  import opened Document
  import opened Lifecycle
  import opened Naming
  import opened Readiness
  import opened Steps
  import Artifacts
  import Listing
  import Order
  import Paths
  import SkillDirs
  import Skills
  import Storage
  import Store
  import ToolLists
  import Tools
  import Validate

  datatype ServiceError = InvalidRequest | RuntimeIncompatible | AgentNotFound | DockerFault | DiskFault | ArtifactFault

  /** What a creation draws from outside: the random instance id, the clock read for the label
      of the container, and the clock read again for the answer. */
  datatype Stamp = Stamp(instance: string, labelledAt: string, answeredAt: string)

  /** The container Create asks for; Docker assigns its id and port. */
  function NewContainer(req: CreateRequest, stamp: Stamp): Container {
    Container("", ContainerName("cloud-agent", req.key, stamp.instance), req.key, req.rootId, stamp.instance,
              "running", 0, stamp.labelledAt)
  }

  lemma DocumentIsNoTool(before: Dir, after: Dir)
    requires ToolLists.ToolsOnly(before, after)
    ensures YAML in after <==> YAML in before
  {
    assert YAML[0] == 'a' && "tools/"[0] == 't';
  }

  /** The number of installed tools tells whether the graph declares any. */
  lemma ToolsAreCounted(req: CreateRequest, decl: map<string, ToolSource>, log: seq<string>)
    requires ToolLists.FirstDeclarations(decl, Validate.AllTools(req.agents)) && ToSet(log) == decl.Keys
    ensures |log| > 0 <==> Validate.AllTools(req.agents) != []
  {
    var tools := Validate.AllTools(req.agents);
    if |log| > 0 {
      assert log[0] in ToSet(log);
      assert ToolLists.DeclaredAs(decl[log[0]], log[0], tools);
    }
    if tools != [] {
      assert tools[0].name in Validate.NamesOf(tools);
    }
  }

  /** The calls that dispose of the container of a key, if it has one. */
  function Disposal(c: Option<Container>): seq<DockerCall> {
    if c.None? then [] else [StopCall(c.value.id), RemoveCall(c.value.id)]
  }

  lemma ToolsAreDeclared(agents: seq<Agent>)
    ensures Validate.AllTools(agents) != [] <==> exists a :: a in agents && Elems(a.customTools) != []
  {
    hide Validate.AllTools;
    Validate.AllToolsAreDeclared(agents);
    if Validate.AllTools(agents) != [] {
      assert Validate.AllTools(agents)[0] in Validate.AllTools(agents);
    }
    forall a | a in agents && Elems(a.customTools) != []
      ensures Validate.AllTools(agents) != []
    {
      assert Elems(a.customTools)[0] in Validate.AllTools(agents);
    }
  }

  class AgentService {
    const fs: DataDir
    const docker: DockerClient
    const storage: Storage.AgentStorage
    const artifacts: Artifacts.ArtifactInstaller
    const checks: Checks
    const dataDir: Paths.Root

    ghost predicate Wired() {
      && docker.fs == fs && storage.fs == fs && artifacts.fs == fs && artifacts.Wired()
      && artifacts.checks == checks && artifacts.tools.sha == storage.codec.sha
    }

    constructor (fs: DataDir, docker: DockerClient, storage: Storage.AgentStorage,
                 artifacts: Artifacts.ArtifactInstaller, dataDir: Paths.Root)
      requires docker.fs == fs && storage.fs == fs && artifacts.fs == fs && artifacts.Wired()
      requires artifacts.tools.sha == storage.codec.sha
      ensures this.fs == fs && this.docker == docker && this.storage == storage && this.artifacts == artifacts
      ensures checks == artifacts.checks && this.dataDir == dataDir && Wired()
    {
      this.fs, this.docker, this.storage, this.artifacts := fs, docker, storage, artifacts;
      this.checks, this.dataDir := artifacts.checks, dataDir;
    }

    ghost function Now(): World
      reads fs, docker
    {
      World(docker.containers, fs.files, fs.skills)
    }

    ghost function DirOf(key: string): Dir
      reads fs
    {
      FilesOf(fs.files, key)
    }

    ghost function SlotsAt(key: string): Slots
      reads fs
    {
      SlotsOf(fs.skills, key)
    }

    /** The markers beside the artifacts of this key tell the truth. */
    ghost predicate Truthful(key: string)
      reads fs
    {
      CachesSound(storage.codec, artifacts.skills.lib, DirOf(key), SlotsAt(key))
    }

    /** What a creation has made of the files and skills that it found. */
    ghost predicate Outcome(req: CreateRequest, dir: Dir, slots: Slots, started: Option<Provision>)
      reads fs
    {
      CreationOutcome(storage.codec, artifacts.skills.lib, req, dir, slots,
                      DirOf(req.key), SlotsAt(req.key), started, fs.faulted)
    }

    /** The response to a creation: the directories of artifacts only if there are any, the time
        of the answer, and the token of the request. */
    function CreatedResponse(req: CreateRequest, c: Container, answeredAt: string): Response {
      var hasTools := Validate.AllTools(req.agents) != [];
      var hasSkills := Artifacts.DeclaresSkills(req.agents, |req.agents|);
      ToResponse(dataDir, c).(
        createdAt := answeredAt, runtimeToken := req.runtimeToken,
        toolsDir := if hasTools then AgentsPath(dataDir, c.key, "tools") else "",
        skillsDir := if hasSkills then AgentsPath(dataDir, c.key, "skills") else "",
        containerSkillsDir := if hasSkills then CONTAINER_SKILLS_ROOT else "")
    }

    /** The container in front is the one asked for, and the response describes it. */
    predicate IsNewest(req: CreateRequest, stamp: Stamp, response: Response)
      reads docker
    {
      && |docker.containers| > 0
      && SameContainer(docker.containers[0], NewContainer(req, stamp))
      && response == CreatedResponse(req, docker.containers[0], stamp.answeredAt)
    }

    /** What a creation asks Docker for and what it answers, on the fields of the request: the
        labels by which the deployment is found again, the paths of its files, and the token. */
    lemma NewestMeans(req: CreateRequest, stamp: Stamp, response: Response)
      requires ValidRequest(checks, req) && IsNewest(req, stamp, response)
      ensures var c := docker.containers[0];
              && c.key == req.key && c.rootId == req.rootId && c.instance == stamp.instance
              && c.name == "cloud-agent-" + req.key + "-" + stamp.instance
              && c.createdAt == stamp.labelledAt && c.status == "running"
              && response.containerId == c.id && response.containerName == c.name && response.hostPort == c.hostPort
      ensures response.agentName == req.rootId && response.key == req.key && response.instance == stamp.instance
      ensures response.status == Running && response.createdAt == stamp.answeredAt
      ensures response.runtimeToken == req.runtimeToken
      ensures var base := Paths.CleanSegs(dataDir) + [req.key];
              && Paths.CleanSegs(response.yamlPath) == base + ["agents", "agents.yaml"]
              && Paths.CleanSegs(response.sessionDir) == base + ["sessions"]
              && (if exists a :: a in req.agents && Elems(a.customTools) != [] then
                    Paths.CleanSegs(response.toolsDir) == base + ["agents", "tools"]
                  else response.toolsDir == "")
              && (if exists a :: a in req.agents && Elems(a.skills) != [] then
                    && Paths.CleanSegs(response.skillsDir) == base + ["agents", "skills"]
                    && response.containerSkillsDir == "/app/config/skills"
                  else response.skillsDir == response.containerSkillsDir == "")
    {
      hide ValidRequest, AgentsPath, Validate.AllTools, Paths.CleanSegs, Paths.JoinPath, SanitizeName;
      ValidKeyIsSegment(checks, req);
      SanitizeIsNormalForm(req.key);
      LayoutOfPaths(dataDir, req.key);
      AgentsPathLies(dataDir, req.key, "tools");
      ToolsAreDeclared(req.agents);
      assert Artifacts.DeclaresSkills(req.agents, |req.agents|) <==>
        exists a :: a in req.agents && Elems(a.skills) != [];
    }

    /** Every artifact of the request can be downloaded as declared. */
    predicate Delivered(req: CreateRequest) {
      && artifacts.ToolsDelivered(Validate.AllTools(req.agents))
      && artifacts.SkillsDelivered(Validate.AllSkills(req.agents))
    }

    /** Directories, tools and document. `call` is the write, or one of nothing; `spoiled` says
        that the stamp of a tool failed over a marker of another hash. */
    method ProvideDocument(req: CreateRequest)
      returns (failure: Option<ServiceError>, toolCount: nat, ghost call: Store.Call,
               ghost provided: Option<Provision>, ghost spoiled: bool)
      requires Wired() && ValidRequest(checks, req)
      modifies fs`files, fs`halted, fs`faulted
      ensures OnlyKey(old(fs.files), fs.files, req.key)
      ensures IsWrite(storage.codec, req, old(DirOf(req.key)), call) && call.after == DirOf(req.key)
      ensures failure.None? <==> call.committed
      ensures failure.None? <==> provided.Some?
      ensures YAML in old(DirOf(req.key)) || call.committed ==> YAML in DirOf(req.key)
      ensures provided.Some? ==>
        && call.request == ToWrite(req, provided.value.paths)
        && (toolCount > 0 <==> Validate.AllTools(req.agents) != [])
        && (Tools.CacheSound(storage.codec.sha, old(DirOf(req.key))) ==>
              ToolLists.ToolsInstalled(storage.codec.sha, req.agents, call.before,
                                       provided.value.decl, provided.value.paths))
      ensures Tools.CacheSound(storage.codec.sha, old(DirOf(req.key))) && !spoiled ==>
        Tools.CacheSound(storage.codec.sha, DirOf(req.key))
      ensures spoiled ==>
        fs.faulted && ToolLists.HasForeignMarker(Validate.AllTools(req.agents), old(DirOf(req.key)))
      ensures old(fs.faulted) ==> fs.faulted
      ensures !fs.faulted && Delivered(req) ==> failure.None?
    {
      hide ValidRequest, Tools.CacheSound, Store.Committed, Artifacts.DeclaresSkills, Validate.AllTools;
      hide ToolLists.ToolsInstalled, ToolLists.HasForeignMarker, SkillDirs.SkillDirsApart, SkillDirs.DocumentApart;
      ghost var start, dir := fs.files, DirOf(req.key);
      NothingWritten(storage.codec, req, dir, dir);
      toolCount, provided, spoiled := 0, None, false;
      call := Store.Call(ToWrite(req, map[]), dir, false, dir);
      var ok := fs.MkdirAll(req.key);
      if !ok {
        return Some(DiskFault), 0, call, None, false;
      }
      ValidIsStorable(checks, req, map[]);
      var paths;
      ghost var log, decl;
      paths, toolCount, log, decl, spoiled := artifacts.InstallClosureTools(req.key, req.agents);
      ghost var files, before := fs.files, DirOf(req.key);
      ToolsAreArtifacts(dir, before);
      NothingWritten(storage.codec, req, dir, before);
      DocumentIsNoTool(dir, before);
      if paths.None? {
        call := Store.Call(ToWrite(req, map[]), before, false, before);
        return Some(ArtifactFault), 0, call, None, spoiled;
      }
      ToolsAreCounted(req, decl, log);
      var write := ToWrite(req, paths.value);
      var error := storage.WriteAgentYAML(write);
      call := Store.Call(write, before, error.None?, DirOf(req.key));
      OnlyKeyTransitive(start, files, fs.files, req.key);
      DocumentAfterWrite(storage.codec, write, before, call.after, call.committed);
      WriteKeepsTools(storage.codec, write, before, call.after, call.committed);
      if Tools.CacheSound(storage.codec.sha, before) {
        MarkersStayTruthful(storage.codec.sha, before, call.after);
      }
      if error.Some? {
        ValidIsStorable(checks, req, paths.value);
        return Some(DiskFault), 0, call, None, spoiled;
      }
      assert PathsAreListed(req.agents, paths.value);
      failure, provided := None, Some(Provision(decl, paths.value));
    }

    /** The disk part of a creation. */
    method Provide(req: CreateRequest)
      returns (failure: Option<ServiceError>, hasTools: bool, hasSkills: bool, ghost provided: Option<Provision>)
      requires Wired() && ValidRequest(checks, req)
      modifies fs
      ensures OnlyKey(old(fs.files), fs.files, req.key) && OnlyKey(old(fs.skills), fs.skills, req.key)
      ensures failure.None? <==> provided.Some?
      ensures failure.None? ==> (hasTools <==> Validate.AllTools(req.agents) != [])
      ensures failure.None? ==> (hasSkills <==> Artifacts.DeclaresSkills(req.agents, |req.agents|))
      ensures SkillDirs.DocumentApart(req.agents) && (YAML in old(DirOf(req.key)) || failure.None?) ==>
        YAML in DirOf(req.key)
      ensures Outcome(req, old(DirOf(req.key)), old(SlotsAt(req.key)), provided)
      ensures old(fs.faulted) ==> fs.faulted
      ensures !fs.faulted && Delivered(req) ==> failure.None?
    {
      hide ValidRequest, Tools.CacheSound, Skills.SkillsSound, CreationOutcome, IsWrite;
      hide ToolLists.ToolsInstalled, Artifacts.SkillsInstalled, ToolLists.HasForeignMarker, SkillDirs.SkillsOnly;
      hide SkillDirs.DocumentApart, Artifacts.DeclaresSkills, SkillDirs.SkillDirsApart, Validate.AllTools;
      ghost var w := Now();
      var count;
      ghost var call, spoiled;
      failure, count, call, provided, spoiled := ProvideDocument(req);
      ghost var files, written := fs.files, DirOf(req.key);
      hasTools, hasSkills := count > 0, false;
      SkillDirs.SkillsOnlyNothing(req.agents, written);
      if failure.None? {
        ValidIsStorable(checks, req, map[]);
        var ok;
        ok, hasSkills := artifacts.InstallClosureSkills(req.key, req.agents);
        OnlyKeyTransitive(w.files, files, fs.files, req.key);
        if SkillDirs.DocumentApart(req.agents) {
          DocumentStays(checks, req, written, DirOf(req.key));
        }
        if !ok {
          failure, provided := Some(ArtifactFault), None;
        }
      }
      OutcomeOfCreation(storage.codec, artifacts.skills.lib, checks, req,
                        FilesOf(w.files, req.key), SlotsOf(w.skills, req.key), call,
                        DirOf(req.key), SlotsAt(req.key), provided, fs.faulted, spoiled);
    }

    /** The part of Create after the old container is gone: directories, tools, document,
        skills, container. `started` says that the container creation was attempted. */
    method Deploy(req: CreateRequest, stamp: Stamp)
      returns (result: Result<Response, ServiceError>, ghost started: Option<Provision>)
      requires Wired() && DistinctIds(docker.containers) && ValidRequest(checks, req)
      modifies fs, docker
      ensures DistinctIds(docker.containers)
      ensures OnlyKey(old(fs.files), fs.files, req.key) && OnlyKey(old(fs.skills), fs.skills, req.key)
      ensures SkillDirs.DocumentApart(req.agents) && (YAML in old(DirOf(req.key)) || started.Some?) ==>
        YAML in DirOf(req.key)
      ensures started.None? ==> docker.containers == old(docker.containers)
      ensures docker.containers == old(docker.containers)
              || (|docker.containers| > 0 && docker.containers[1..] == old(docker.containers)
                  && docker.containers[0].key == req.key)
      ensures result.Ok? ==>
        started.Some? && |docker.containers| > 0 && docker.containers[1..] == old(docker.containers)
      ensures result.Ok? ==> IsNewest(req, stamp, result.value)
      ensures result.Ok? ==> docker.log == old(docker.log) + [CreateCall(docker.containers[0].id)]
      ensures Outcome(req, old(DirOf(req.key)), old(SlotsAt(req.key)), started)
      ensures old(fs.faulted) ==> fs.faulted
      ensures old(docker.troubled) ==> docker.troubled
      ensures !fs.faulted && !docker.troubled && Delivered(req) ==> result.Ok?
    {
      hide ValidRequest, CreationOutcome, SkillDirs.DocumentApart, Artifacts.DeclaresSkills, Validate.AllTools;
      var failure, hasTools, hasSkills;
      failure, hasTools, hasSkills, started := Provide(req);
      if failure.Some? {
        return Err(failure.value), None;
      }
      var made := docker.CreateAgentContainer(NewContainer(req, stamp));
      if made.Err? {
        return Err(DockerFault), started;
      }
      result := Ok(ToResponse(dataDir, made.value).(
        createdAt := stamp.answeredAt, runtimeToken := req.runtimeToken,
        toolsDir := if hasTools then AgentsPath(dataDir, req.key, "tools") else "",
        skillsDir := if hasSkills then AgentsPath(dataDir, req.key, "skills") else "",
        containerSkillsDir := if hasSkills then CONTAINER_SKILLS_ROOT else ""));
    }

    /** findManagedContainer, for a key that is already sanitized. */
    method FindManaged(key: string) returns (found: Result<Option<Container>, ServiceError>)
      modifies docker`troubled
      ensures found.Err? ==> found.error == DockerFault && docker.troubled
      ensures found.Ok? ==> docker.troubled == old(docker.troubled)
      ensures found.Ok? ==> found.value == FirstOf(docker.containers, key)
      ensures found.Ok? && found.value.Some? ==> found.value.value in docker.containers && found.value.value.key == key
    {
      var c := docker.FindAgentContainer(key);
      SelectMembers(docker.containers, key, true);
      found := if c.Ok? then Ok(c.value) else Err(DockerFault);
    }

    /** Stop and Restart: the container's state may change, nothing else. */
    method ChangeState(name: string, restart: bool) returns (error: Option<ServiceError>)
      requires Wired() && DistinctIds(docker.containers)
      modifies docker
      ensures DistinctIds(docker.containers)
      ensures Step(if restart then Restart else Stop, SanitizeName(name), old(Now()), Now())
      ensures |OfKey(docker.containers, SanitizeName(name))| == |OfKey(old(docker.containers), SanitizeName(name))|
      ensures OfKey(old(docker.containers), SanitizeName(name)) == [] ==> error.Some? && Now() == old(Now())
      ensures error.Some? ==> docker.troubled || OfKey(old(docker.containers), SanitizeName(name)) == []
      ensures error.None? ==> FirstOf(old(docker.containers), SanitizeName(name)).Some?
                              && var id := FirstOf(old(docker.containers), SanitizeName(name)).value.id;
                                 docker.log == old(docker.log) + [if restart then RestartCall(id) else StopCall(id)]
    {
      var key := SanitizeName(name);
      var c := FindManaged(key);
      if c.Err? {
        return Some(c.error);
      }
      if c.value.None? {
        return Some(AgentNotFound);
      }
      var ok := docker.ChangeState(c.value.value, restart);
      error := if ok then None else Some(DockerFault);
    }

    /** Stops and removes a container; success means it is gone. */
    method StopAndRemove(c: Container) returns (ok: bool)
      requires Wired() && DistinctIds(docker.containers) && c in docker.containers
      modifies docker
      ensures DistinctIds(docker.containers) && OnlyContainersOf(old(docker.containers), docker.containers, c.key)
      ensures |OfKey(docker.containers, c.key)| == |OfKey(old(docker.containers), c.key)| - 1
              || (!ok && |OfKey(docker.containers, c.key)| == |OfKey(old(docker.containers), c.key)|)
      ensures ok ==> docker.log == old(docker.log) + Disposal(Some(c))
      ensures old(docker.troubled) ==> docker.troubled
      ensures !ok ==> docker.troubled
    {
      ok := docker.ChangeState(c, false);
      if !ok {
        return;
      }
      ok := docker.RemoveContainer(c.id, c.key);
    }

    /** Create. An invalid request changes nothing; an existing container is returned unchanged
        unless force is set; otherwise the deployment is rebuilt, and what that leaves is told by
        its outcome, wherever it stops. */
    method Create(req: CreateRequest, imageOk: bool, stamp: Stamp)
      returns (result: Result<Response, ServiceError>, created: bool, ghost started: Option<Provision>)
      requires Wired() && DistinctIds(docker.containers)
      modifies fs, docker
      ensures DistinctIds(docker.containers)
      ensures !ValidRequest(checks, req) ==> result == Err(InvalidRequest)
      ensures !ValidRequest(checks, req) || !imageOk ==>
        result.Err? && Now() == old(Now()) && docker.log == old(docker.log)
      ensures ValidRequest(checks, req) ==> GoodKey(req.key)
      ensures ValidRequest(checks, req) ==>
        Step(Operation.Create(req.force, SkillDirs.DocumentApart(req.agents)), req.key, old(Now()), Now())
      ensures result.Ok? && !created ==> Now() == old(Now()) && docker.log == old(docker.log)
                                         && GetResponse(dataDir, Now(), req.key) == Some(result.value)
      ensures created ==> started.Some? && result.Ok? && IsNewest(req, stamp, result.value)
      ensures created ==>
        docker.log == old(docker.log) + Disposal(FirstOf(old(docker.containers), req.key))
                      + [CreateCall(docker.containers[0].id)]
      ensures ValidRequest(checks, req) && imageOk && Delivered(req) && !fs.faulted && !docker.troubled ==> result.Ok?
      ensures Outcome(req, old(DirOf(req.key)), old(SlotsAt(req.key)), started)
    {
      hide ValidRequest, CreationOutcome, SkillDirs.DocumentApart, Artifacts.DeclaresSkills, Validate.AllTools;
      NothingCreated(storage.codec, artifacts.skills.lib, req, DirOf(req.key), SlotsAt(req.key), fs.faulted);
      created, started := false, None;
      var fault := Validate.ValidateRequest(checks, req);
      if fault.Some? {
        return Err(InvalidRequest), false, None;
      }
      ValidKeyIsSegment(checks, req);
      if !imageOk {
        return Err(RuntimeIncompatible), false, None;
      }
      var existing := FindManaged(req.key);
      if existing.Err? {
        return Err(existing.error), false, None;
      }
      if existing.value.Some? && !req.force {
        return Ok(ToResponse(dataDir, existing.value.value)), false, None;
      }
      result, started := Rebuild(req, existing.value, stamp);
      created := result.Ok?;
    }

    /** The part of Create that is not idempotent: disposes of the old container and deploys. */
    method Rebuild(req: CreateRequest, existing: Option<Container>, stamp: Stamp)
      returns (result: Result<Response, ServiceError>, ghost started: Option<Provision>)
      requires Wired() && DistinctIds(docker.containers) && ValidRequest(checks, req)
      requires existing == FirstOf(docker.containers, req.key)
      requires existing.Some? ==> req.force && existing.value in docker.containers && existing.value.key == req.key
      modifies fs, docker
      ensures DistinctIds(docker.containers)
      ensures Step(Operation.Create(req.force, SkillDirs.DocumentApart(req.agents)), req.key, old(Now()), Now())
      ensures result.Ok? ==> started.Some? && IsNewest(req, stamp, result.value)
      ensures result.Ok? ==>
        docker.log == old(docker.log) + Disposal(existing) + [CreateCall(docker.containers[0].id)]
      ensures Outcome(req, old(DirOf(req.key)), old(SlotsAt(req.key)), started)
      ensures Delivered(req) && !fs.faulted && !docker.troubled ==> result.Ok?
    {
      hide ValidRequest, Step, CreationOutcome, SkillDirs.DocumentApart, Artifacts.DeclaresSkills, Validate.AllTools;
      ghost var w, apart := Now(), SkillDirs.DocumentApart(req.agents);
      NothingCreated(storage.codec, artifacts.skills.lib, req, DirOf(req.key), SlotsAt(req.key), fs.faulted);
      if existing.Some? {
        var ok := StopAndRemove(existing.value);
        if !ok {
          RemovalIsStep(w, docker.containers, req.key, apart);
          return Err(DockerFault), None;
        }
      }
      ghost var removed := docker.containers;
      result, started := Deploy(req, stamp);
      RebuildIsStep(w, removed, Now(), req.key, req.force, apart);
    }

    /** Get for any name: it is sanitized first. */
    method Get(name: string) returns (result: Result<Response, ServiceError>)
      requires Wired()
      modifies fs`halted, fs`faulted, docker`troubled
      ensures result.Ok? ==> GetResponse(dataDir, Now(), SanitizeName(name)) == Some(result.value)
      ensures result == Err(AgentNotFound) ==> GetResponse(dataDir, Now(), SanitizeName(name)).None? || fs.faulted
      ensures result.Err? && result.error != AgentNotFound ==> docker.troubled
    {
      var key := SanitizeName(name);
      var c := FindManaged(key);
      if c.Err? {
        return Err(c.error);
      }
      if c.value.Some? {
        return Ok(ToResponse(dataDir, c.value.value));
      }
      var stat := fs.ReadFile(key, YAML);
      result := if stat.Some? then Ok(ToArchivedResponse(dataDir, key)) else Err(AgentNotFound);
    }

    /** List: the responses of the current state, in strictly increasing order of their keys.
        Archived deployments that cannot be examined are missing; `listed` maps the keys shown. */
    method List(includeArchived: bool)
      returns (result: Result<seq<Response>, ServiceError>, ghost listed: map<string, Response>)
      requires Wired()
      modifies fs`halted, fs`faulted, docker`troubled
      ensures result.Ok? ==> IsListing(listed, result.value)
      ensures result.Ok? ==> Extends(ContainerResponses(dataDir, docker.containers), listed)
      ensures result.Ok? ==> Extends(listed, Responses(dataDir, Now(), includeArchived))
      ensures result.Ok? && !fs.faulted ==> listed == Responses(dataDir, Now(), includeArchived)
      ensures result.Err? ==> docker.troubled || fs.faulted
    {
      listed := map[];
      var all := docker.ListManagedContainers();
      if all.Err? {
        return Err(DockerFault), listed;
      }
      var cs := all.value;
      var active: map<string, Response> := map[];
      for i := 0 to |cs|
        invariant active == ContainerResponses(dataDir, cs[..i])
      {
        assert cs[..i + 1][..i] == cs[..i];
        active := active[cs[i].key := ToResponse(dataDir, cs[i])];
      }
      assert cs[..|cs|] == cs;
      var names: seq<string> := [];
      if includeArchived {
        var dirs := storage.ListAgentDirs();
        if dirs.None? {
          return Err(DiskFault), listed;
        }
        names := dirs.value;
      }
      var responses := Listing.AddArchived(dataDir, active, names);
      listed := responses;
      Listing.CompletedExtends(dataDir, active, ToSet(names), if includeArchived then Deployments(fs.files) else {});
      Listing.ContainerResponsesKnowTheirKeys(dataDir, cs);
      var out := Listing.Values(responses);
      Listing.SortedIsListing(responses, out);
      result := Ok(Order.SortBy(out, (r: Response) => r.key));
    }

    /** Delete: by default only the container goes; a purge also removes the files, as far as
        that succeeds. The name must contain a letter or digit for a purge to stay local. */
    method Delete(name: string, purge: bool) returns (error: Option<ServiceError>)
      requires Wired() && DistinctIds(docker.containers)
      modifies fs, docker
      ensures DistinctIds(docker.containers)
      ensures SanitizeName(name) != "" || !purge ==>
        Step(Operation.Delete(purge), SanitizeName(name), old(Now()), Now())
      ensures error.None? && Healthy(old(Now()), SanitizeName(name)) ==>
        OfKey(docker.containers, SanitizeName(name)) == []
      ensures error.None? ==>
        docker.log == old(docker.log) + Disposal(FirstOf(old(docker.containers), SanitizeName(name)))
      ensures error.Some? ==> docker.troubled && fs.files == old(fs.files) && fs.skills == old(fs.skills)
      ensures !purge ==> fs.files == old(fs.files) && fs.skills == old(fs.skills)
      ensures old(Truthful(SanitizeName(name))) && !(purge && fs.faulted) ==> Truthful(SanitizeName(name))
      ensures purge && error.None? && !fs.faulted ==>
        && fs.files == Purged(old(fs.files), dataDir, SanitizeName(name))
        && fs.skills == Purged(old(fs.skills), dataDir, SanitizeName(name))
    {
      hide Step, CachesSound, Purged;
      ghost var w := Now();
      var key := SanitizeName(name);
      var c := FindManaged(key);
      if c.Err? {
        DeletionIsStep(w, Now(), key, purge);
        return Some(c.error);
      }
      if c.value.Some? {
        var ok := StopAndRemove(c.value.value);
        if !ok {
          DeletionIsStep(w, Now(), key, purge);
          return Some(DockerFault);
        }
      }
      if purge {
        var _ := fs.RemoveTree(dataDir, key);
        EmptyCachesAreSound(storage.codec, artifacts.skills.lib);
        SanitizeIsNormalForm(name);
        if key == "" {
          PurgedTrees(w.files, dataDir, key);
          PurgedTrees(w.skills, dataDir, key);
        } else {
          SanitizedIsSegment(key);
          PurgedTrees(w.skills, dataDir, key);
          PurgeIsLocal(w.files, dataDir, key);
          PurgeIsLocal(w.skills, dataDir, key);
          PurgedTrees(w.files, dataDir, key);
        }
      }
      if key != "" || !purge {
        DeletionIsStep(w, Now(), key, purge);
      }
      error := None;
    }
  }
}
