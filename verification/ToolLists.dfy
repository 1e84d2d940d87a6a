/** The bookkeeping of the tool installation over a graph: which declaration stands behind each
    name, what each agent lists, and what the installations leave among the files. */
module ToolLists {
  import opened Common
  import opened Model
  import opened Paths
  import opened FileSystem
  import opened Validate
  import opened Tools

  /** What validation guarantees for the tools of a graph. */
  ghost predicate ToolsValid(checks: Checks, agents: seq<Agent>) {
    && UniqueIds(agents) && ToolsShared(agents)
    && forall a :: a in agents ==>
         DistinctToolNames(Elems(a.customTools)) && forall t :: t in Elems(a.customTools) ==> ToolOk(checks, t)
  }

  predicate DeclaredAs(t: ToolSource, name: string, seen: seq<ToolSource>) {
    t in seen && t.name == name
  }

  /** The declaration under which each tool name was installed: the first one of that name. */
  predicate FirstDeclarations(decl: map<string, ToolSource>, seen: seq<ToolSource>) {
    decl.Keys == NamesOf(seen) && forall name :: name in decl ==> DeclaredAs(decl[name], name, seen)
  }

  /** The tool's file is there and has its declared hash. */
  predicate ToolPresent(sha: Bytes -> Digest, dir: Dir, t: ToolSource, hash: string) {
    ToolPath(t) in dir && sha(dir[ToolPath(t)]) == NormalizeSha256(hash)
  }

  ghost predicate AllPresent(sha: Bytes -> Digest, dir: Dir, decl: map<string, ToolSource>) {
    forall name :: name in decl ==> ToolPresent(sha, dir, decl[name], decl[name].hash)
  }

  /** The paths an agent lists: one per declared tool, in order, under the installed name. */
  function RelsOf(decl: map<string, ToolSource>, tools: seq<ToolSource>): seq<string>
    requires forall t :: t in tools ==> t.name in decl
  {
    seq(|tools|, i requires 0 <= i < |tools| => assert tools[i] in tools; decl[tools[i].name].LocalRelPath())
  }

  /** Later declarations do not disturb earlier ones. */
  predicate Grows(decl: map<string, ToolSource>, decl': map<string, ToolSource>) {
    forall name :: name in decl ==> name in decl' && decl'[name] == decl[name]
  }

  lemma RelsStable(decl: map<string, ToolSource>, decl': map<string, ToolSource>, tools: seq<ToolSource>)
    requires Grows(decl, decl') && forall t :: t in tools ==> t.name in decl
    ensures (forall t :: t in tools ==> t.name in decl') && RelsOf(decl', tools) == RelsOf(decl, tools)
  {
    forall i | 0 <= i < |tools|
      ensures RelsOf(decl', tools)[i] == RelsOf(decl, tools)[i]
    {
      assert tools[i] in tools;
    }
  }

  predicate NamedAndInstallable(decl: map<string, ToolSource>) {
    forall name :: name in decl ==> decl[name].name == name && Installable(decl[name])
  }

  /** What was handed to the installer: each name once, under its first declaration. */
  predicate Logged(installed: map<string, string>, decl: map<string, ToolSource>, log: seq<string>) {
    && installed.Keys == decl.Keys && (forall name :: name in decl ==> installed[name] == decl[name].LocalRelPath())
    && Distinct(log) && ToSet(log) == decl.Keys
  }

  /** The bookkeeping of the install loops over the declarations seen so far. */
  predicate Progress(seen: seq<ToolSource>, installed: map<string, string>, decl: map<string, ToolSource>,
                     log: seq<string>)
  {
    FirstDeclarations(decl, seen) && NamedAndInstallable(decl) && Logged(installed, decl, log)
  }

  lemma NamesSnoc(tools: seq<ToolSource>, t: ToolSource)
    ensures NamesOf(tools + [t]) == NamesOf(tools) + {t.name}
  {
    assert (tools + [t])[|tools|] == t;
    assert forall i :: 0 <= i < |tools| ==> (tools + [t])[i] == tools[i];
  }

  lemma LogGrows(log: seq<string>, name: string)
    requires Distinct(log) && name !in ToSet(log)
    ensures Distinct(log + [name]) && ToSet(log + [name]) == ToSet(log) + {name}
  {
    assert forall i :: 0 <= i < |log| ==> log[i] in ToSet(log);
  }

  lemma LoggedNew(installed: map<string, string>, decl: map<string, ToolSource>, log: seq<string>, t: ToolSource)
    requires Logged(installed, decl, log) && t.name !in decl
    ensures Logged(installed[t.name := t.LocalRelPath()], decl[t.name := t], log + [t.name])
  {
    LogGrows(log, t.name);
    var decl', installed' := decl[t.name := t], installed[t.name := t.LocalRelPath()];
    assert decl'.Keys == decl.Keys + {t.name} && installed'.Keys == installed.Keys + {t.name};
  }

  lemma DeclaredNew(seen: seq<ToolSource>, decl: map<string, ToolSource>, t: ToolSource)
    requires FirstDeclarations(decl, seen) && t.name !in decl
    ensures FirstDeclarations(decl[t.name := t], seen + [t])
  {
    var decl' := decl[t.name := t];
    NamesSnoc(seen, t);
    assert decl'.Keys == decl.Keys + {t.name};
    forall name | name in decl'
      ensures DeclaredAs(decl'[name], name, seen + [t])
    {
      assert name != t.name ==> DeclaredAs(decl[name], name, seen);
    }
  }

  lemma ProgressNew(seen: seq<ToolSource>, installed: map<string, string>, decl: map<string, ToolSource>,
                    log: seq<string>, t: ToolSource)
    requires Progress(seen, installed, decl, log) && t.name !in decl && Installable(t)
    ensures Progress(seen + [t], installed[t.name := t.LocalRelPath()], decl[t.name := t], log + [t.name])
  {
    LoggedNew(installed, decl, log, t);
    DeclaredNew(seen, decl, t);
    var decl' := decl[t.name := t];
    assert NamedAndInstallable(decl') by {
      forall name | name in decl'
        ensures decl'[name].name == name && Installable(decl'[name])
      {
      }
    }
  }

  lemma ProgressOld(seen: seq<ToolSource>, installed: map<string, string>, decl: map<string, ToolSource>,
                    log: seq<string>, t: ToolSource)
    requires Progress(seen, installed, decl, log) && t.name in decl
    ensures Progress(seen + [t], installed, decl, log)
  {
    NamesSnoc(seen, t);
    forall name | name in decl
      ensures DeclaredAs(decl[name], name, seen + [t])
    {
      assert DeclaredAs(decl[name], name, seen);
    }
  }

  /** Files outside the tools directory are as they were. */
  predicate ToolsOnly(before: Dir, after: Dir) {
    && (forall p :: p in before && !("tools/" <= p) ==> p in after && after[p] == before[p])
    && (forall p :: p in after && !("tools/" <= p) ==> p in before)
  }

  lemma ToolsOnlyTransitive(d0: Dir, d1: Dir, d2: Dir)
    requires ToolsOnly(d0, d1) && ToolsOnly(d1, d2)
    ensures ToolsOnly(d0, d2)
  {
  }

  lemma StepIsToolsOnly(sha: Bytes -> Digest, t: ToolSource, before: Dir, after: Dir, outcome: Outcome)
    requires ToolStep(sha, t, before, after, outcome)
    ensures ToolsOnly(before, after)
  {
    assert "tools/" <= ToolPath(t) && "tools/" <= MarkerPath(ToolPath(t));
  }

  /** Installing one more tool keeps those installed before. */
  lemma OthersStayPresent(sha: Bytes -> Digest, t: ToolSource, before: Dir, after: Dir, outcome: Outcome,
                          decl: map<string, ToolSource>)
    requires Installable(t) && ToolStep(sha, t, before, after, outcome) && AllPresent(sha, before, decl)
    requires t.name !in decl
    requires NamedAndInstallable(decl)
    ensures AllPresent(sha, after, decl)
  {
    forall name | name in decl
      ensures ToolPresent(sha, after, decl[name], decl[name].hash)
    {
      assert ToolPresent(sha, before, decl[name], decl[name].hash);
      ToolPathsAreApart(decl[name], t);
    }
  }

  lemma RelsDistinct(decl: map<string, ToolSource>, tools: seq<ToolSource>)
    requires DistinctToolNames(tools) && forall t :: t in tools ==> t.name in decl
    requires NamedAndInstallable(decl)
    ensures Distinct(RelsOf(decl, tools))
  {
    forall i, j | 0 <= i < j < |tools|
      ensures RelsOf(decl, tools)[i] != RelsOf(decl, tools)[j]
    {
      var s, t := decl[tools[i].name], decl[tools[j].name];
      assert tools[i] in tools && tools[j] in tools;
      if s.LocalRelPath() == t.LocalRelPath() {
        assert s.LocalFileName() == s.LocalRelPath()[8..] && t.LocalFileName() == t.LocalRelPath()[8..];
        LocalFileNameInjective(s, t);
      }
    }
  }

  /** The paths of all tools are listed. */
  predicate ListsAll(decl: map<string, ToolSource>, tools: seq<ToolSource>, listed: seq<string>) {
    (forall t :: t in tools ==> t.name in decl) && listed == RelsOf(decl, tools)
  }

  ghost predicate AgentToolsListed(a: Agent, decl: map<string, ToolSource>, listed: seq<string>) {
    ListsAll(decl, Elems(a.customTools), listed) && Distinct(listed)
  }

  /** What each agent of a graph lists: exactly the files of its declared names, in order and
      without repetition. */
  ghost predicate ToolsListed(agents: seq<Agent>, decl: map<string, ToolSource>, paths: map<string, seq<string>>) {
    forall a :: a in agents ==> AgentToolsListed(a, decl, PathsOf(paths, a.name))
  }

  predicate ResolvesTo(listed: string, path: string) {
    Clean(listed) == path
  }

  ghost predicate AgentToolsInstalled(sha: Bytes -> Digest, a: Agent, dir: Dir,
                                      decl: map<string, ToolSource>, listed: seq<string>)
  {
    && AgentToolsListed(a, decl, listed)
    && (forall t :: t in Elems(a.customTools) ==> ToolPresent(sha, dir, decl[t.name], t.hash))
    && (forall j :: 0 <= j < |listed| ==> ResolvesTo(listed[j], ToolPath(decl[Elems(a.customTools)[j].name])))
  }

  /** The path at position j of an agent's list leads to a file with the hash of its tool j. */
  lemma ListedToolsAreThere(sha: Bytes -> Digest, a: Agent, dir: Dir, decl: map<string, ToolSource>,
                            listed: seq<string>, j: nat)
    requires AgentToolsInstalled(sha, a, dir, decl, listed)
    ensures |listed| == |Elems(a.customTools)|
    ensures j < |listed| ==> Clean(listed[j]) in dir
                             && sha(dir[Clean(listed[j])]) == NormalizeSha256(Elems(a.customTools)[j].hash)
  {
    if j < |listed| {
      var t := Elems(a.customTools)[j];
      assert ResolvesTo(listed[j], ToolPath(decl[t.name])) && ToolPresent(sha, dir, decl[t.name], t.hash);
    }
  }

  /** The outcome of installing the tools of a valid graph: each agent lists the files of its
      names, and each listed file has the hash that this agent declared. */
  ghost predicate ToolsInstalled(sha: Bytes -> Digest, agents: seq<Agent>, dir: Dir,
                                 decl: map<string, ToolSource>, paths: map<string, seq<string>>)
  {
    NamedAndInstallable(decl)
    && forall a :: a in agents ==> AgentToolsInstalled(sha, a, dir, decl, PathsOf(paths, a.name))
  }

  /** The markers of tools not yet installed are as they were. */
  ghost predicate OtherMarkersKept(before: Dir, after: Dir, decl: map<string, ToolSource>) {
    forall t :: Installable(t) && t.name !in decl ==> SameAt(before, after, MarkerPath(ToolPath(t)))
  }

  lemma StepKeepsOtherMarkers(sha: Bytes -> Digest, src: ToolSource, start: Dir, before: Dir, after: Dir,
                              outcome: Outcome, decl: map<string, ToolSource>)
    requires Installable(src) && ToolStep(sha, src, before, after, outcome)
    requires OtherMarkersKept(start, before, decl)
    ensures OtherMarkersKept(start, after, decl[src.name := src])
  {
    forall t | Installable(t) && t.name !in decl[src.name := src]
      ensures SameAt(start, after, MarkerPath(ToolPath(t)))
    {
      ToolPathsAreApart(src, t);
      ToolPathsAreApart(t, src);
      assert SameAt(start, before, MarkerPath(ToolPath(t)));
    }
  }

  /** A marker beside one of these tools names another hash than the tool declares. */
  predicate HasForeignMarker(tools: seq<ToolSource>, dir: Dir) {
    exists t :: t in tools && !MarkerHarmless(dir, ToolPath(t), NormalizeSha256(t.hash))
  }

  lemma ForeignFromStart(src: ToolSource, start: Dir, before: Dir, decl: map<string, ToolSource>)
    requires Installable(src) && src.name !in decl && OtherMarkersKept(start, before, decl)
    requires !MarkerHarmless(before, ToolPath(src), NormalizeSha256(src.hash))
    ensures HasForeignMarker([src], start)
  {
    assert SameAt(start, before, MarkerPath(ToolPath(src))) && src in [src];
  }

  ghost predicate FilesSound(sha: Bytes -> Digest, dir: Dir, decl: map<string, ToolSource>) {
    CacheSound(sha, dir) && AllPresent(sha, dir, decl)
  }

  /** What successful installations do to the files: the tools declared before stay, markers stay
      truthful, and the markers of tools not yet declared are those of the start. */
  ghost predicate Advances(sha: Bytes -> Digest, before: Dir, after: Dir, start: Dir,
                           decl: map<string, ToolSource>, decl': map<string, ToolSource>)
  {
    && ToolsOnly(before, after) && Grows(decl, decl')
    && (FilesSound(sha, before, decl) ==> FilesSound(sha, after, decl'))
    && (CacheSound(sha, before) ==> CacheSound(sha, after))
    && OtherMarkersKept(start, after, decl')
  }

  /** What a failed one may do: markers stay truthful unless a stamp failed over a marker of
      another hash, found at the start beside one of these tools. */
  ghost predicate Stops(sha: Bytes -> Digest, before: Dir, after: Dir, start: Dir,
                        tools: seq<ToolSource>, spoiled: bool)
  {
    && ToolsOnly(before, after)
    && (CacheSound(sha, before) && !spoiled ==> CacheSound(sha, after))
    && (spoiled ==> HasForeignMarker(tools, start))
  }

  /** A tool of a new name, replaced and stamped or served from the cache. */
  lemma NewToolAdvances(sha: Bytes -> Digest, src: ToolSource, before: Dir, after: Dir, outcome: Outcome,
                        start: Dir, decl: map<string, ToolSource>)
    requires Installable(src) && src.name !in decl && NamedAndInstallable(decl)
    requires ToolStep(sha, src, before, after, outcome) && (outcome.Replaced? ==> outcome.stamped)
    requires CacheSound(sha, before) ==> ToolPresent(sha, after, src, src.hash)
    requires OtherMarkersKept(start, before, decl)
    ensures Advances(sha, before, after, start, decl, decl[src.name := src])
  {
    hide CacheSound, ToolStep;
    StepIsToolsOnly(sha, src, before, after, outcome);
    StepKeepsOtherMarkers(sha, src, start, before, after, outcome, decl);
    if CacheSound(sha, before) {
      InstallKeepsCacheSound(sha, src, before, after, outcome);
      if AllPresent(sha, before, decl) {
        OthersStayPresent(sha, src, before, after, outcome, decl);
      }
    }
  }

  /** An install that fails. */
  lemma NewToolStops(sha: Bytes -> Digest, src: ToolSource, before: Dir, after: Dir, outcome: Outcome,
                     start: Dir, decl: map<string, ToolSource>)
    requires Installable(src) && src.name !in decl && ToolStep(sha, src, before, after, outcome)
    requires OtherMarkersKept(start, before, decl)
    ensures Stops(sha, before, after, start, [src], !StampedOrHarmless(src, before, outcome))
  {
    StepIsToolsOnly(sha, src, before, after, outcome);
    if !StampedOrHarmless(src, before, outcome) {
      ForeignFromStart(src, start, before, decl);
    } else if CacheSound(sha, before) {
      InstallKeepsCacheSound(sha, src, before, after, outcome);
    }
  }

  lemma AdvancesNowhere(sha: Bytes -> Digest, dir: Dir, start: Dir, decl: map<string, ToolSource>)
    requires OtherMarkersKept(start, dir, decl)
    ensures Advances(sha, dir, dir, start, decl, decl) && Grows(decl, decl)
  {
  }

  lemma AdvancesTwice(sha: Bytes -> Digest, d0: Dir, d1: Dir, d2: Dir, start: Dir,
                      decl0: map<string, ToolSource>, decl1: map<string, ToolSource>, decl2: map<string, ToolSource>)
    requires Advances(sha, d0, d1, start, decl0, decl1) && Advances(sha, d1, d2, start, decl1, decl2)
    ensures Advances(sha, d0, d2, start, decl0, decl2)
    ensures Grows(decl0, decl2) && OtherMarkersKept(start, d2, decl2)
  {
    ToolsOnlyTransitive(d0, d1, d2);
  }

  lemma AdvancesThenStops(sha: Bytes -> Digest, d0: Dir, d1: Dir, d2: Dir, start: Dir,
                          decl0: map<string, ToolSource>, decl1: map<string, ToolSource>,
                          some: seq<ToolSource>, all: seq<ToolSource>, spoiled: bool)
    requires Advances(sha, d0, d1, start, decl0, decl1) && Stops(sha, d1, d2, start, some, spoiled)
    requires forall t :: t in some ==> t in all
    ensures Stops(sha, d0, d2, start, all, spoiled)
  {
    ToolsOnlyTransitive(d0, d1, d2);
  }

  lemma ToolsOfAgent(agents: seq<Agent>, i: nat)
    requires i < |agents|
    ensures forall t :: t in Elems(agents[i].customTools) ==> t in AllTools(agents)
  {
    AllToolsAreDeclared(agents);
    assert agents[i] in agents;
  }

  lemma RelsSnoc(decl: map<string, ToolSource>, tools: seq<ToolSource>, t: ToolSource)
    requires (forall s :: s in tools ==> s.name in decl) && t.name in decl
    ensures forall s :: s in tools + [t] ==> s.name in decl
    ensures RelsOf(decl, tools + [t]) == RelsOf(decl, tools) + [decl[t.name].LocalRelPath()]
  {
    var all := tools + [t];
    assert forall i :: 0 <= i < |tools| ==> all[i] == tools[i];
  }

  /** The list of an agent grows by the path of its next tool, which is new to it. */
  lemma RelsGrow(decl: map<string, ToolSource>, tools: seq<ToolSource>, t: ToolSource)
    requires DistinctToolNames(tools + [t])
    requires (forall s :: s in tools ==> s.name in decl) && t.name in decl
    requires NamedAndInstallable(decl)
    ensures forall s :: s in tools + [t] ==> s.name in decl
    ensures RelsOf(decl, tools + [t]) == RelsOf(decl, tools) + [decl[t.name].LocalRelPath()]
    ensures decl[t.name].LocalRelPath() !in RelsOf(decl, tools)
  {
    RelsSnoc(decl, tools, t);
    RelsDistinct(decl, tools + [t]);
    var rels, rel := RelsOf(decl, tools), decl[t.name].LocalRelPath();
    forall i | 0 <= i < |rels|
      ensures rels[i] != rel
    {
      assert (rels + [rel])[i] == rels[i] && (rels + [rel])[|rels|] == rel;
    }
  }

  /** The paths of the first n tools are listed. */
  predicate ListsPrefix(decl: map<string, ToolSource>, tools: seq<ToolSource>, n: nat, listed: seq<string>)
    requires n <= |tools|
  {
    (forall t :: t in tools[..n] ==> t.name in decl) && listed == RelsOf(decl, tools[..n])
  }

  lemma ListsNothing(decl: map<string, ToolSource>, tools: seq<ToolSource>)
    ensures ListsPrefix(decl, tools, 0, [])
  {
  }

  lemma AllListed(decl: map<string, ToolSource>, tools: seq<ToolSource>, listed: seq<string>)
    requires ListsPrefix(decl, tools, |tools|, listed)
    ensures ListsAll(decl, tools, listed)
  {
    assert tools[..|tools|] == tools;
  }

  /** One turn of the inner loop: the list grows by the path of tool j, which is new to it. */
  lemma NextTool(known: map<string, ToolSource>, decl: map<string, ToolSource>, tools: seq<ToolSource>, j: nat,
                 listed: seq<string>)
    requires j < |tools| && DistinctToolNames(tools) && NamedAndInstallable(decl) && Grows(known, decl)
    requires ListsPrefix(known, tools, j, listed) && tools[j].name in decl
    ensures var rel := decl[tools[j].name].LocalRelPath();
            rel !in listed && ListsPrefix(decl, tools, j + 1, listed + [rel])
  {
    assert tools[..j + 1] == tools[..j] + [tools[j]];
    PrefixIsDistinct(tools, j + 1);
    RelsStable(known, decl, tools[..j]);
    RelsGrow(decl, tools[..j], tools[j]);
  }

  ghost predicate Lists(a: Agent, decl: map<string, ToolSource>, paths: map<string, seq<string>>) {
    ListsAll(decl, Elems(a.customTools), PathsOf(paths, a.name))
  }

  /** The agents handled so far list their paths; the others list nothing yet. */
  ghost predicate ListedSoFar(agents: seq<Agent>, i: nat, decl: map<string, ToolSource>,
                              paths: map<string, seq<string>>)
    requires i <= |agents|
  {
    && (forall id :: id in paths ==> exists j :: 0 <= j < i && agents[j].name == id)
    && (forall j :: 0 <= j < i ==> Lists(agents[j], decl, paths))
  }

  lemma ListedStep(agents: seq<Agent>, i: nat, decl: map<string, ToolSource>, decl': map<string, ToolSource>,
                   paths: map<string, seq<string>>, listed: seq<string>)
    requires i < |agents| && UniqueIds(agents) && ListedSoFar(agents, i, decl, paths) && Grows(decl, decl')
    requires ListsAll(decl', Elems(agents[i].customTools), listed)
    ensures ListedSoFar(agents, i + 1, decl', if listed != [] then paths[agents[i].name := listed] else paths)
  {
    var paths' := if listed != [] then paths[agents[i].name := listed] else paths;
    assert agents[i].name !in paths;
    forall j | 0 <= j < i + 1
      ensures Lists(agents[j], decl', paths')
    {
      if j < i {
        assert Lists(agents[j], decl, paths);
        RelsStable(decl, decl', Elems(agents[j].customTools));
      }
    }
  }

  lemma ListsConclude(checks: Checks, agents: seq<Agent>, decl: map<string, ToolSource>,
                      paths: map<string, seq<string>>)
    requires ToolsValid(checks, agents) && NamedAndInstallable(decl) && ListedSoFar(agents, |agents|, decl, paths)
    ensures ToolsListed(agents, decl, paths)
  {
    forall a | a in agents
      ensures AgentToolsListed(a, decl, PathsOf(paths, a.name))
    {
      var i :| 0 <= i < |agents| && agents[i] == a;
      assert Lists(agents[i], decl, paths);
      RelsDistinct(decl, Elems(a.customTools));
    }
  }

  /** The first declaration of a name has the hash that every agent declares for it. */
  lemma SharedHash(agents: seq<Agent>, a: Agent, t: ToolSource, decl: map<string, ToolSource>)
    requires ToolsShared(agents) && FirstDeclarations(decl, AllTools(agents))
    requires a in agents && t in Elems(a.customTools)
    ensures t.name in decl && decl[t.name].hash == t.hash
  {
    AllToolsAreDeclared(agents);
    assert t in AllTools(agents);
    assert t.name in NamesOf(AllTools(agents));
    var first := decl[t.name];
    assert DeclaredAs(first, t.name, AllTools(agents));
    var b :| b in agents && first in Elems(b.customTools);
    assert ToolsAgreeBetween(b, a) && ToolsAgree(first, t);
  }

  lemma ToolsConclude(sha: Bytes -> Digest, checks: Checks, agents: seq<Agent>, dir: Dir,
                      decl: map<string, ToolSource>, paths: map<string, seq<string>>)
    requires ToolsValid(checks, agents) && FirstDeclarations(decl, AllTools(agents))
    requires AllPresent(sha, dir, decl) && NamedAndInstallable(decl) && ToolsListed(agents, decl, paths)
    ensures ToolsInstalled(sha, agents, dir, decl, paths)
  {
    forall a | a in agents
      ensures AgentToolsInstalled(sha, a, dir, decl, PathsOf(paths, a.name))
    {
      assert AgentToolsListed(a, decl, PathsOf(paths, a.name));
      forall t | t in Elems(a.customTools)
        ensures ToolPresent(sha, dir, decl[t.name], t.hash)
      {
        SharedHash(agents, a, t, decl);
        assert ToolPresent(sha, dir, decl[t.name], decl[t.name].hash);
      }
      var listed := PathsOf(paths, a.name);
      forall j | 0 <= j < |listed|
        ensures ResolvesTo(listed[j], ToolPath(decl[Elems(a.customTools)[j].name]))
      {
        assert Elems(a.customTools)[j] in Elems(a.customTools);
        LocalRelPathResolves(decl[Elems(a.customTools)[j].name]);
      }
    }
  }
}
