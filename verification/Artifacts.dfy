/** Installation of the artifacts of a whole deployment graph. */
module Artifacts {
  import opened Common
  import opened Model
  import opened FileSystem
  import opened Validate
  import opened Tools
  import opened ToolLists
  import opened Skills
  import opened SkillDirs
  import opened Download

  ghost predicate SkillInstalled(lib: Library, slots: Slots, a: Agent, s: SkillSource) {
    Slot(a.name, s.name) in slots && IsInstall(lib, s.name, NormalizeSha256(s.hash), slots[Slot(a.name, s.name)])
  }

  ghost predicate AgentSkillsInstalled(lib: Library, slots: Slots, a: Agent, n: nat)
    requires n <= |Elems(a.skills)|
  {
    forall i :: 0 <= i < n ==> SkillInstalled(lib, slots, a, Elems(a.skills)[i])
  }

  ghost predicate SkillsInstalled(lib: Library, slots: Slots, agents: seq<Agent>) {
    forall i :: 0 <= i < |agents| ==> AgentSkillsInstalled(lib, slots, agents[i], |Elems(agents[i].skills)|)
  }

  /** A skill installed before survives the install of another declaration of the graph. */
  lemma SkillSurvives(lib: Library, agents: seq<Agent>, before: Slots, after: Slots,
                      a: Agent, s: SkillSource, b: Agent, t: SkillSource)
    requires SkillsShared(agents) && a in agents && b in agents && s in Elems(a.skills) && t in Elems(b.skills)
    requires Proper(Slot(a.name, s.name)) && Proper(Slot(b.name, t.name))
    requires SkillInstalled(lib, before, a, s)
    requires SlotsKept(before, after, PlaceOf(Slot(b.name, t.name))) && SkillInstalled(lib, after, b, t)
    ensures SkillInstalled(lib, after, a, s)
  {
    var slot := Slot(a.name, s.name);
    ProperSlotsAreApart(Slot(b.name, t.name), slot);
    if slot == Slot(b.name, t.name) {
      assert SkillsAgreeBetween(a, b) && SkillsAgree(s, t);
    } else {
      assert SameAt(before, after, slot);
    }
  }

  /** After installing skill j of agent i, what was installed before still is. */
  lemma SkillsSurvive(lib: Library, checks: Checks, agents: seq<Agent>, before: Slots, after: Slots, i: nat, j: nat)
    requires SkillsValid(checks, agents) && SkillDirsApart(agents) && i < |agents| && j < |Elems(agents[i].skills)|
    requires SkillsInstalled(lib, before, agents[..i]) && AgentSkillsInstalled(lib, before, agents[i], j)
    requires SlotsKept(before, after, PlaceOf(Slot(agents[i].name, Elems(agents[i].skills)[j].name)))
    requires SkillInstalled(lib, after, agents[i], Elems(agents[i].skills)[j])
    ensures SkillsInstalled(lib, after, agents[..i]) && AgentSkillsInstalled(lib, after, agents[i], j + 1)
  {
    var b, t := agents[i], Elems(agents[i].skills)[j];
    forall a, s | a in agents && s in Elems(a.skills)
      ensures Proper(Slot(a.name, s.name))
    {
      SkillNameIsSegment(checks, s);
    }
    forall k | 0 <= k < i
      ensures AgentSkillsInstalled(lib, after, agents[..i][k], |Elems(agents[..i][k].skills)|)
    {
      var a := agents[k];
      assert agents[..i][k] == a;
      assert AgentSkillsInstalled(lib, before, agents[..i][k], |Elems(a.skills)|);
      forall m | 0 <= m < |Elems(a.skills)|
        ensures SkillInstalled(lib, after, a, Elems(a.skills)[m])
      {
        SkillSurvives(lib, agents, before, after, a, Elems(a.skills)[m], b, t);
      }
    }
    forall m | 0 <= m < j + 1
      ensures SkillInstalled(lib, after, b, Elems(b.skills)[m])
    {
      if m < j {
        SkillSurvives(lib, agents, before, after, b, Elems(b.skills)[m], b, t);
      }
    }
  }

  lemma SkillsInstalledSnoc(lib: Library, slots: Slots, agents: seq<Agent>, i: nat)
    requires i < |agents|
    ensures SkillsInstalled(lib, slots, agents[..i])
            && AgentSkillsInstalled(lib, slots, agents[i], |Elems(agents[i].skills)|)
            ==> SkillsInstalled(lib, slots, agents[..i + 1])
  {
    hide AgentSkillsInstalled;
    assert forall j :: 0 <= j < i ==> agents[..i + 1][j] == agents[..i][j];
  }

  /** One of the first n agents declares skills. */
  predicate DeclaresSkills(agents: seq<Agent>, n: nat)
    requires n <= |agents|
  {
    exists j :: 0 <= j < n && Elems(agents[j].skills) != []
  }

  lemma SkillsOfAgent(agents: seq<Agent>, i: nat)
    requires i < |agents|
    ensures forall s :: s in Elems(agents[i].skills) ==> s in AllSkills(agents)
  {
    AllSkillsAreDeclared(agents);
    assert agents[i] in agents;
  }

  class ArtifactInstaller {
    const fs: DataDir
    const tools: ToolInstaller
    const skills: SkillInstaller
    const checks: Checks
    // what a download of each URL brings
    const network: string -> Response

    ghost predicate Wired() {
      tools.fs == fs && skills.fs == fs && tools.checks == checks && skills.checks == checks
        && tools.sha == skills.lib.sha
    }

    constructor (fs: DataDir, tools: ToolInstaller, skills: SkillInstaller, network: string -> Response)
      requires tools.fs == fs && skills.fs == fs && tools.checks == skills.checks && tools.sha == skills.lib.sha
      ensures this.fs == fs && this.tools == tools && this.skills == skills && this.network == network
      ensures checks == tools.checks && Wired()
    {
      this.fs, this.tools, this.skills, this.checks, this.network := fs, tools, skills, tools.checks, network;
    }

    /** Every download of these sources brings what they declare. */
    predicate ToolsDelivered(sources: seq<ToolSource>) {
      forall t :: t in sources ==> tools.Delivers(t, network(t.url))
    }

    predicate SkillsDelivered(sources: seq<SkillSource>) {
      forall s :: s in sources ==>
        SkillOk(checks, s) && skills.Countable(network(s.url)) && skills.Delivers(s, network(s.url))
    }

    /** A tool of a new name. */
    method InstallNew(key: string, src: ToolSource, installed: map<string, string>,
                      ghost decl: map<string, ToolSource>, ghost start: Dir)
      returns (ok: bool, installed': map<string, string>, ghost spoiled: bool)
      requires Wired() && ToolOk(checks, src) && src.name !in decl && NamedAndInstallable(decl)
      requires OtherMarkersKept(start, FilesOf(fs.files, key), decl)
      modifies fs`files, fs`halted, fs`faulted
      ensures OnlyKey(old(fs.files), fs.files, key)
      ensures installed' == if ok then installed[src.name := src.LocalRelPath()] else installed
      ensures ok ==> Advances(tools.sha, FilesOf(old(fs.files), key), FilesOf(fs.files, key), start,
                              decl, decl[src.name := src])
      ensures !ok ==> Stops(tools.sha, FilesOf(old(fs.files), key), FilesOf(fs.files, key), start, [src], spoiled)
      ensures spoiled ==> !ok && fs.faulted
      ensures old(fs.faulted) ==> fs.faulted
      ensures !fs.faulted && tools.Delivers(src, network(src.url)) ==> ok
    {
      hide CacheSound, ToolStep, Advances, Stops, OtherMarkersKept, NamedAndInstallable, OnlyKey;
      installed' := installed;
      ToolOkIsInstallable(checks, src);
      ghost var before := FilesOf(fs.files, key);
      var rel, outcome := tools.Install(key, src, network(src.url));
      ghost var after := FilesOf(fs.files, key);
      ok := rel.Some?;
      spoiled := !StampedOrHarmless(src, before, outcome);
      if ok {
        installed' := installed[src.name := rel.value];
        NewToolAdvances(tools.sha, src, before, after, outcome, start, decl);
      } else {
        NewToolStops(tools.sha, src, before, after, outcome, start, decl);
      }
    }

    /** One tool: installed unless a tool of its name already is. */
    method InstallOnce(key: string, src: ToolSource, installed: map<string, string>,
                       ghost seen: seq<ToolSource>, ghost decl: map<string, ToolSource>, ghost log: seq<string>,
                       ghost start: Dir)
      returns (ok: bool, installed': map<string, string>, ghost decl': map<string, ToolSource>,
               ghost log': seq<string>, ghost spoiled: bool)
      requires Wired() && Progress(seen, installed, decl, log) && ToolOk(checks, src)
      requires OtherMarkersKept(start, FilesOf(fs.files, key), decl)
      modifies fs`files, fs`halted, fs`faulted
      ensures OnlyKey(old(fs.files), fs.files, key)
      ensures Distinct(log')
      ensures ok ==> Progress(seen + [src], installed', decl', log') && NamedAndInstallable(decl')
      ensures ok ==> src.name in decl' && src.name in installed'
                     && installed'[src.name] == decl'[src.name].LocalRelPath()
      ensures ok ==> Advances(tools.sha, FilesOf(old(fs.files), key), FilesOf(fs.files, key), start, decl, decl')
      ensures !ok ==> Stops(tools.sha, FilesOf(old(fs.files), key), FilesOf(fs.files, key), start, [src], spoiled)
      ensures spoiled ==> !ok && fs.faulted
      ensures old(fs.faulted) ==> fs.faulted
      ensures !fs.faulted && tools.Delivers(src, network(src.url)) ==> ok
    {
      hide CacheSound, FilesSound;
      installed', decl', log', spoiled := installed, decl, log, false;
      if src.name in installed {
        ProgressOld(seen, installed, decl, log, src);
        return true, installed, decl, log, false;
      }
      ok, installed', spoiled := InstallNew(key, src, installed, decl, start);
      if ok {
        ToolOkIsInstallable(checks, src);
        ProgressNew(seen, installed, decl, log, src);
        decl', log' := decl[src.name := src], log + [src.name];
      }
    }

    /** One turn of that loop: the next tool of an agent is installed and listed. */
    method InstallNext(key: string, tools: seq<ToolSource>, j: nat, installed: map<string, string>, listed: seq<string>,
                       ghost seen: seq<ToolSource>, ghost decl: map<string, ToolSource>, ghost log: seq<string>,
                       ghost start: Dir)
      returns (ok: bool, installed': map<string, string>, listed': seq<string>,
               ghost decl': map<string, ToolSource>, ghost log': seq<string>, ghost spoiled: bool)
      requires Wired() && j < |tools| && DistinctToolNames(tools) && ToolOk(checks, tools[j])
      requires Progress(seen + tools[..j], installed, decl, log) && ListsPrefix(decl, tools, j, listed)
      requires OtherMarkersKept(start, FilesOf(fs.files, key), decl)
      modifies fs`files, fs`halted, fs`faulted
      ensures OnlyKey(old(fs.files), fs.files, key)
      ensures Distinct(log')
      ensures ok ==>
        Progress(seen + tools[..j + 1], installed', decl', log') && ListsPrefix(decl', tools, j + 1, listed')
      ensures ok ==> Advances(this.tools.sha, FilesOf(old(fs.files), key), FilesOf(fs.files, key), start, decl, decl')
      ensures !ok ==>
        Stops(this.tools.sha, FilesOf(old(fs.files), key), FilesOf(fs.files, key), start, [tools[j]], spoiled)
      ensures spoiled ==> !ok && fs.faulted
      ensures old(fs.faulted) ==> fs.faulted
      ensures !fs.faulted && this.tools.Delivers(tools[j], network(tools[j].url)) ==> ok
    {
      hide Progress, ListsPrefix, Stops, OtherMarkersKept, FilesSound, CacheSound, ToolsOnly;
      var src := tools[j];
      PrefixSnoc(seen, tools, j);
      listed' := listed;
      ok, installed', decl', log', spoiled := InstallOnce(key, src, installed, seen + tools[..j], decl, log, start);
      if ok {
        var rel := installed'[src.name];
        NextTool(decl, decl', tools, j, listed);
        if rel !in listed {
          listed' := listed + [rel];
        }
      }
    }

    /** The inner loop of installClosureTools: the tools of one agent. */
    method InstallToolsOf(key: string, a: Agent, installed: map<string, string>,
                          ghost seen: seq<ToolSource>, ghost decl: map<string, ToolSource>, ghost log: seq<string>,
                          ghost start: Dir)
      returns (ok: bool, installed': map<string, string>, listed: seq<string>,
               ghost decl': map<string, ToolSource>, ghost log': seq<string>, ghost spoiled: bool)
      requires Wired() && Progress(seen, installed, decl, log) && Distinct(log)
      requires DistinctToolNames(Elems(a.customTools)) && forall t :: t in Elems(a.customTools) ==> ToolOk(checks, t)
      requires OtherMarkersKept(start, FilesOf(fs.files, key), decl)
      modifies fs`files, fs`halted, fs`faulted
      ensures OnlyKey(old(fs.files), fs.files, key)
      ensures Distinct(log')
      ensures ok ==> Progress(seen + Elems(a.customTools), installed', decl', log')
      ensures ok ==> ListsAll(decl', Elems(a.customTools), listed)
      ensures ok ==> Advances(tools.sha, FilesOf(old(fs.files), key), FilesOf(fs.files, key), start, decl, decl')
      ensures !ok ==> Stops(tools.sha, FilesOf(old(fs.files), key), FilesOf(fs.files, key), start,
                            Elems(a.customTools), spoiled)
      ensures spoiled ==> !ok && fs.faulted
      ensures old(fs.faulted) ==> fs.faulted
      ensures !fs.faulted && ToolsDelivered(Elems(a.customTools)) ==> ok
    {
      hide Progress, ListsPrefix, ListsAll, Stops, Advances, OtherMarkersKept, Grows, Distinct;
      var sources := Elems(a.customTools);
      ghost var first := FilesOf(fs.files, key);
      ListsNothing(decl, sources);
      AdvancesNowhere(tools.sha, first, start, decl);
      installed', listed, decl', log', spoiled := installed, [], decl, log, false;
      assert seen + sources[..0] == seen;
      for j := 0 to |sources|
        invariant OnlyKey(old(fs.files), fs.files, key)
        invariant Distinct(log') && !spoiled && Progress(seen + sources[..j], installed', decl', log')
        invariant ListsPrefix(decl', sources, j, listed)
        invariant Advances(tools.sha, first, FilesOf(fs.files, key), start, decl, decl')
        invariant Grows(decl, decl') && OtherMarkersKept(start, FilesOf(fs.files, key), decl')
        invariant old(fs.faulted) ==> fs.faulted
      {
        ghost var known, middle := decl', FilesOf(fs.files, key);
        ok, installed', listed, decl', log', spoiled :=
          InstallNext(key, sources, j, installed', listed, seen, decl', log', start);
        if !ok {
          AdvancesThenStops(tools.sha, first, middle, FilesOf(fs.files, key), start, decl, known,
                            [sources[j]], sources, spoiled);
          return;
        }
        AdvancesTwice(tools.sha, first, middle, FilesOf(fs.files, key), start, decl, known, decl');
      }
      assert sources[..|sources|] == sources;
      AllListed(decl', sources, listed);
      ok := true;
    }

    /** installClosureTools. `log` records the names handed to the installer. */
    method InstallClosureTools(key: string, agents: seq<Agent>)
      returns (paths: Option<map<string, seq<string>>>, count: nat, ghost log: seq<string>,
               ghost decl: map<string, ToolSource>, ghost spoiled: bool)
      requires Wired() && ToolsValid(checks, agents)
      modifies fs`files, fs`halted, fs`faulted
      ensures OnlyKey(old(fs.files), fs.files, key)
      ensures ToolsOnly(FilesOf(old(fs.files), key), FilesOf(fs.files, key))
      ensures Distinct(log)
      ensures paths.Some? ==> FirstDeclarations(decl, AllTools(agents)) && ToSet(log) == decl.Keys && count == |log|
      ensures paths.Some? ==> ToolsListed(agents, decl, paths.value)
      ensures paths.Some? && CacheSound(tools.sha, FilesOf(old(fs.files), key)) ==>
        ToolsInstalled(tools.sha, agents, FilesOf(fs.files, key), decl, paths.value)
      // markers stay truthful unless a stamp fails over a marker of another hash found before
      ensures CacheSound(tools.sha, FilesOf(old(fs.files), key)) && !spoiled ==>
        CacheSound(tools.sha, FilesOf(fs.files, key))
      ensures spoiled ==>
        paths.None? && fs.faulted && HasForeignMarker(AllTools(agents), FilesOf(old(fs.files), key))
      ensures old(fs.faulted) ==> fs.faulted
      ensures !fs.faulted && ToolsDelivered(AllTools(agents)) ==> paths.Some?
    {
      var installed: map<string, string>, agentPaths: map<string, seq<string>> := map[], map[];
      log, decl, spoiled := [], map[], false;
      ghost var start := FilesOf(fs.files, key);
      assert Advances(tools.sha, start, start, start, map[], map[]);
      hide CacheSound, HasForeignMarker, OtherMarkersKept, ToolsInstalled, ToolsListed;
      for i := 0 to |agents|
        invariant OnlyKey(old(fs.files), fs.files, key)
        invariant Progress(AllTools(agents[..i]), installed, decl, log)
        invariant ListedSoFar(agents, i, decl, agentPaths)
        invariant !spoiled && Advances(tools.sha, start, FilesOf(fs.files, key), start, map[], decl)
        invariant old(fs.faulted) ==> fs.faulted
      {
        var a := agents[i];
        assert agents[..i + 1][..i] == agents[..i];
        ghost var known, middle := decl, FilesOf(fs.files, key);
        var ok, listed;
        ok, installed, listed, decl, log, spoiled :=
          InstallToolsOf(key, a, installed, AllTools(agents[..i]), decl, log, start);
        if !ok {
          ToolsOfAgent(agents, i);
          AdvancesThenStops(tools.sha, start, middle, FilesOf(fs.files, key), start, map[], known,
                            Elems(a.customTools), AllTools(agents), spoiled);
          return None, 0, log, decl, spoiled;
        }
        AdvancesTwice(tools.sha, start, middle, FilesOf(fs.files, key), start, map[], known, decl);
        assert AllTools(agents[..i + 1]) == AllTools(agents[..i]) + Elems(a.customTools);
        ListedStep(agents, i, known, decl, agentPaths, listed);
        if listed != [] {
          agentPaths := agentPaths[a.name := listed];
        }
      }
      assert agents[..|agents|] == agents;
      ListsConclude(checks, agents, decl, agentPaths);
      if CacheSound(tools.sha, start) {
        ToolsConclude(tools.sha, checks, agents, FilesOf(fs.files, key), decl, agentPaths);
      }
      DistinctCounts(log);
      assert |installed| == |installed.Keys|;
      paths, count := Some(agentPaths), |installed|;
    }

    /** The markers are truthful and the skills of the first n agents are installed. */
    ghost predicate Ready(slots: Slots, agents: seq<Agent>, n: nat)
      requires n <= |agents|
    {
      SkillsSound(skills.lib, slots) && SkillsInstalled(skills.lib, slots, agents[..n])
    }

    /** The inner loop of installClosureSkills: the skills of one agent. */
    method InstallSkillsOf(key: string, agents: seq<Agent>, i: nat) returns (ok: bool)
      requires Wired() && SkillsValid(checks, agents) && i < |agents|
      modifies fs
      ensures OnlyKey(old(fs.files), fs.files, key) && OnlyKey(old(fs.skills), fs.skills, key)
      ensures SkillsOnly(agents, FilesOf(old(fs.files), key), FilesOf(fs.files, key))
      ensures SkillDirsApart(agents) && SkillsSound(skills.lib, SlotsOf(old(fs.skills), key)) ==>
        SkillsSound(skills.lib, SlotsOf(fs.skills, key))
      ensures ok && SkillDirsApart(agents) && Ready(SlotsOf(old(fs.skills), key), agents, i) ==>
        Ready(SlotsOf(fs.skills, key), agents, i + 1)
      ensures old(fs.faulted) ==> fs.faulted
      ensures !fs.faulted && SkillsDelivered(Elems(agents[i].skills)) ==> ok
    {
      hide SkillsSound, SkillsInstalled, PlaceOf, IsInstall;
      ghost var start, files := SlotsOf(fs.skills, key), FilesOf(fs.files, key);
      ghost var apart := SkillDirsApart(agents);
      ghost var ready := apart && Ready(start, agents, i);
      var a := agents[i];
      var sources := Elems(a.skills);
      for j := 0 to |sources|
        invariant OnlyKey(old(fs.files), fs.files, key) && OnlyKey(old(fs.skills), fs.skills, key)
        invariant SkillsOnly(agents, files, FilesOf(fs.files, key))
        invariant apart && SkillsSound(skills.lib, start) ==> SkillsSound(skills.lib, SlotsOf(fs.skills, key))
        invariant ready ==> Ready(SlotsOf(fs.skills, key), agents, i)
        invariant ready ==> AgentSkillsInstalled(skills.lib, SlotsOf(fs.skills, key), a, j)
        invariant old(fs.faulted) ==> fs.faulted
      {
        ghost var before, filesBefore := SlotsOf(fs.skills, key), FilesOf(fs.files, key);
        ghost var hit;
        ok, hit := skills.Install(key, a.name, sources[j], network(sources[j].url));
        SkillsOnlyStep(agents, a, sources[j], files, filesBefore, FilesOf(fs.files, key));
        if !ok {
          return;
        }
        if ready {
          SkillsSurvive(skills.lib, checks, agents, before, SlotsOf(fs.skills, key), i, j);
        }
      }
      if ready {
        SkillsInstalledSnoc(skills.lib, SlotsOf(fs.skills, key), agents, i);
      }
      ok := true;
    }

    /** installClosureSkills. Where every agent that declares skills has a directory of its own,
        success means that all of them are installed. */
    method InstallClosureSkills(key: string, agents: seq<Agent>) returns (ok: bool, hasSkills: bool)
      requires Wired() && SkillsValid(checks, agents)
      modifies fs
      ensures OnlyKey(old(fs.files), fs.files, key) && OnlyKey(old(fs.skills), fs.skills, key)
      ensures SkillsOnly(agents, FilesOf(old(fs.files), key), FilesOf(fs.files, key))
      ensures SkillDirsApart(agents) && SkillsSound(skills.lib, SlotsOf(old(fs.skills), key)) ==>
        SkillsSound(skills.lib, SlotsOf(fs.skills, key))
        && (ok ==> SkillsInstalled(skills.lib, SlotsOf(fs.skills, key), agents))
      ensures ok ==> (hasSkills <==> DeclaresSkills(agents, |agents|))
      ensures old(fs.faulted) ==> fs.faulted
      ensures !fs.faulted && SkillsDelivered(AllSkills(agents)) ==> ok
    {
      hasSkills := false;
      ghost var files := FilesOf(fs.files, key);
      ghost var sound := SkillDirsApart(agents) && SkillsSound(skills.lib, SlotsOf(fs.skills, key));
      for i := 0 to |agents|
        invariant OnlyKey(old(fs.files), fs.files, key) && OnlyKey(old(fs.skills), fs.skills, key)
        invariant SkillsOnly(agents, files, FilesOf(fs.files, key))
        invariant sound ==> Ready(SlotsOf(fs.skills, key), agents, i)
        invariant hasSkills <==> DeclaresSkills(agents, i)
        invariant old(fs.faulted) ==> fs.faulted
      {
        if Elems(agents[i].skills) == [] {
          SkillsInstalledSnoc(skills.lib, SlotsOf(fs.skills, key), agents, i);
          continue;
        }
        hasSkills := true;
        ok := fs.Proceed(); // EnsureDirs
        if !ok {
          return;
        }
        ghost var before := FilesOf(fs.files, key);
        ok := InstallSkillsOf(key, agents, i);
        SkillsOnlyTransitive(agents, files, before, FilesOf(fs.files, key));
        if !ok {
          SkillsOfAgent(agents, i);
          return;
        }
      }
      assert agents[..|agents|] == agents;
      ok := true;
    }
  }
}
