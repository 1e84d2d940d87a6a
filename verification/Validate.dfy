/** Request validation: one pass of checks over mutable maps, proved to accept exactly the
    requests that meet the quantified specification `Model.ValidRequest`. */
module Validate {
  import opened Common
  import opened Text
  import opened Naming
  import opened Model
  import opened Cycle

  datatype AgentFault = BadName | BadNode | BadSkill | BadTool | DuplicateToolName | DuplicateToolFile

  datatype Fault =
    | BadRootId | BadKey | NoAgents | BadSettings
    | DuplicateAgent(id: string) | BadAgent(agent: Agent, fault: AgentFault)
    | RootMissing | RootIncomplete | NotRuntimeGlobalFree(id: string)
    | SelfReference(id: string) | UnknownReference(id: string, ref: string)
    | DuplicateReference(id: string, ref: string) | ReferenceCycle(found: Found)
    | ToolConflict(name: string) | SkillConflict(name: string) | SkillsInvisible(id: string)

  // ---- One node ----------------------------------------------------------------

  method ValidateSkills(checks: Checks, skills: seq<SkillSource>) returns (ok: bool)
    ensures ok <==> forall s :: s in skills ==> SkillOk(checks, s)
  {
    for i := 0 to |skills|
      invariant forall j :: 0 <= j < i ==> SkillOk(checks, skills[j])
    {
      if !SkillOk(checks, skills[i]) {
        return false;
      }
    }
    ok := true;
  }

  function NamesOf(tools: seq<ToolSource>): set<string> {
    set t | t in tools :: t.name
  }

  function LocalFilesOf(tools: seq<ToolSource>): set<string> {
    set t | t in tools :: t.LocalFileName()
  }

  /** A tool whose name is new has a local file that is new. */
  lemma NewNameMeansNewFile(checks: Checks, tools: seq<ToolSource>, tool: ToolSource)
    requires ToolOk(checks, tool) && forall t :: t in tools ==> ToolOk(checks, t)
    requires tool.name !in NamesOf(tools)
    ensures tool.LocalFileName() !in LocalFilesOf(tools)
  {
    forall t | t in tools
      ensures t.LocalFileName() != tool.LocalFileName()
    {
      if t.LocalFileName() == tool.LocalFileName() {
        LocalFileNameInjective(t, tool);
      }
    }
  }

  lemma DistinctSnoc(tools: seq<ToolSource>, tool: ToolSource)
    requires DistinctToolNames(tools)
    ensures DistinctToolNames(tools + [tool]) <==> tool.name !in NamesOf(tools)
    ensures NamesOf(tools + [tool]) == NamesOf(tools) + {tool.name}
    ensures LocalFilesOf(tools + [tool]) == LocalFilesOf(tools) + {tool.LocalFileName()}
  {
    var all := tools + [tool];
    assert forall k :: 0 <= k < |tools| ==> all[k] == tools[k];
    assert all[|tools|] == tool;
    if tool.name in NamesOf(tools) {
      var k :| 0 <= k < |tools| && tools[k].name == tool.name;
      assert all[k].name == all[|tools|].name;
    }
  }

  lemma PrefixIsDistinct(tools: seq<ToolSource>, n: nat)
    requires n <= |tools|
    ensures DistinctToolNames(tools) ==> DistinctToolNames(tools[..n])
  {
  }

  method ValidateTools(checks: Checks, tools: seq<ToolSource>) returns (fault: Option<AgentFault>)
    ensures fault.None? <==> DistinctToolNames(tools) && forall t :: t in tools ==> ToolOk(checks, t)
    ensures fault != Some(DuplicateToolFile)
  {
    var seenNames: set<string>, seenFiles: set<string> := {}, {};
    for i := 0 to |tools|
      invariant seenNames == NamesOf(tools[..i]) && seenFiles == LocalFilesOf(tools[..i])
      invariant DistinctToolNames(tools[..i]) && forall t :: t in tools[..i] ==> ToolOk(checks, t)
    {
      var tool := tools[i];
      assert tools[..i + 1] == tools[..i] + [tool];
      DistinctSnoc(tools[..i], tool);
      if tool.name in seenNames {
        PrefixIsDistinct(tools, i + 1);
        return Some(DuplicateToolName);
      }
      if !ToolOk(checks, tool) {
        return Some(BadTool);
      }
      var file := tool.LocalFileName();
      NewNameMeansNewFile(checks, tools[..i], tool);
      if file in seenFiles {
        assert false; // the source reports DuplicateToolFile here
      }
      seenNames := seenNames + {tool.name};
      seenFiles := seenFiles + {file};
    }
    assert tools[..|tools|] == tools;
    fault := None;
  }

  /** Accepts exactly the valid nodes. The duplicate-file check is never what rejects a
      node: the duplicate-name check in front of it decides. */
  method ValidateAgent(checks: Checks, a: Agent) returns (fault: Option<AgentFault>)
    ensures fault.None? <==> AgentOk(checks, a)
    ensures fault != Some(DuplicateToolFile)
  {
    if Blank(a.name) || !MatchesNamePattern(a.name) {
      return Some(BadName);
    }
    if !checks.node(a) {
      return Some(BadNode);
    }
    var skillsOk := ValidateSkills(checks, Elems(a.skills));
    if !skillsOk {
      return Some(BadSkill);
    }
    fault := ValidateTools(checks, Elems(a.customTools));
  }

  // ---- The graph ---------------------------------------------------------------

  method CheckNodes(checks: Checks, agents: seq<Agent>) returns (seen: set<string>, fault: Option<Fault>)
    ensures fault.None? <==> UniqueIds(agents) && forall a :: a in agents ==> AgentOk(checks, a)
    ensures fault.None? ==> seen == Ids(agents)
    ensures fault.Some? ==> (fault.value.DuplicateAgent? && !UniqueIds(agents))
                            || (fault.value.BadAgent? && fault.value.agent in agents
                                && !AgentOk(checks, fault.value.agent))
  {
    seen := {};
    for i := 0 to |agents|
      invariant UniqueIds(agents[..i]) && seen == Ids(agents[..i])
      invariant forall j :: 0 <= j < i ==> AgentOk(checks, agents[j])
    {
      var a := agents[i];
      assert agents[..i + 1] == agents[..i] + [a];
      if a.name in seen {
        var j :| 0 <= j < i && agents[j].name == a.name;
        return seen, Some(DuplicateAgent(a.name));
      }
      seen := seen + {a.name};
      var bad := ValidateAgent(checks, a);
      if bad.Some? {
        return seen, Some(BadAgent(a, bad.value));
      }
    }
    assert agents[..|agents|] == agents;
    fault := None;
  }

  /** AgentByID: the first agent with the id. */
  method AgentById(agents: seq<Agent>, id: string) returns (found: Option<Agent>)
    ensures found.Some? <==> HasId(agents, id)
    ensures found.Some? ==> found.value in agents && found.value.name == id
  {
    for i := 0 to |agents|
      invariant forall j :: 0 <= j < i ==> agents[j].name != id
    {
      if agents[i].name == id {
        return Some(agents[i]);
      }
    }
    found := None;
  }

  method CheckRuntimeGlobal(agents: seq<Agent>, rootId: string) returns (fault: Option<Fault>)
    ensures fault.None? <==> forall a :: a in agents && a.name != rootId ==> RuntimeGlobalFree(a)
    ensures fault.Some? ==> fault.value.NotRuntimeGlobalFree?
                            && exists a :: a in agents && a.name == fault.value.id != rootId && !RuntimeGlobalFree(a)
  {
    for i := 0 to |agents|
      invariant forall j :: 0 <= j < i && agents[j].name != rootId ==> RuntimeGlobalFree(agents[j])
    {
      var a := agents[i];
      if a.name != rootId && !RuntimeGlobalFree(a) {
        return Some(NotRuntimeGlobalFree(a.name));
      }
    }
    fault := None;
  }

  /** The references of one agent, checked against the ids of the graph. */
  method CheckReferencesOf(a: Agent, seen: set<string>) returns (fault: Option<Fault>)
    ensures fault.None? <==>
      Distinct(Elems(a.subagents)) && forall ref :: ref in Elems(a.subagents) ==> ref != a.name && ref in seen
    ensures fault.Some? ==> match fault.value
                            case SelfReference(id) => id == a.name && a.name in Elems(a.subagents)
                            case UnknownReference(id, ref) => id == a.name && ref in Elems(a.subagents) && ref !in seen
                            case DuplicateReference(id, ref) => id == a.name && !Distinct(Elems(a.subagents))
                            case _ => false
  {
    var subs := Elems(a.subagents);
    var refs: set<string> := {};
    for i := 0 to |subs|
      invariant forall j :: 0 <= j < i ==> subs[j] in refs && subs[j] != a.name && subs[j] in seen
      invariant forall ref :: ref in refs ==> exists j :: 0 <= j < i && subs[j] == ref
      invariant Distinct(subs[..i])
    {
      var ref := subs[i];
      if ref == a.name {
        return Some(SelfReference(a.name));
      }
      if ref !in seen {
        return Some(UnknownReference(a.name, ref));
      }
      if ref in refs {
        return Some(DuplicateReference(a.name, ref));
      }
      refs := refs + {ref};
    }
    assert subs[..|subs|] == subs;
    fault := None;
  }

  method CheckReferences(agents: seq<Agent>, seen: set<string>) returns (fault: Option<Fault>)
    requires seen == Ids(agents)
    ensures fault.None? <==> forall a :: a in agents ==> ReferencesOk(agents, a)
    ensures fault.Some? ==>
      fault.value.SelfReference? || fault.value.UnknownReference? || fault.value.DuplicateReference?
  {
    assert forall ref :: ref in seen <==> HasId(agents, ref);
    for i := 0 to |agents|
      invariant forall j :: 0 <= j < i ==> ReferencesOk(agents, agents[j])
    {
      fault := CheckReferencesOf(agents[i], seen);
      assert fault.None? <==> ReferencesOk(agents, agents[i]);
      if fault.Some? {
        return;
      }
    }
    fault := None;
  }

  // ---- Artifact sharing --------------------------------------------------------

  function AllTools(agents: seq<Agent>): seq<ToolSource> {
    if agents == [] then []
    else AllTools(agents[..|agents| - 1]) + Elems(agents[|agents| - 1].customTools)
  }

  function AllSkills(agents: seq<Agent>): seq<SkillSource> {
    if agents == [] then []
    else AllSkills(agents[..|agents| - 1]) + Elems(agents[|agents| - 1].skills)
  }

  lemma {:induction false} AllToolsAreDeclared(agents: seq<Agent>)
    ensures forall t :: t in AllTools(agents) <==> exists a :: a in agents && t in Elems(a.customTools)
  {
    if agents != [] {
      var n := |agents| - 1;
      AllToolsAreDeclared(agents[..n]);
      assert agents == agents[..n] + [agents[n]];
    }
  }

  lemma {:induction false} AllSkillsAreDeclared(agents: seq<Agent>)
    ensures forall s :: s in AllSkills(agents) <==> exists a :: a in agents && s in Elems(a.skills)
  {
    if agents != [] {
      var n := |agents| - 1;
      AllSkillsAreDeclared(agents[..n]);
      assert agents == agents[..n] + [agents[n]];
    }
  }

  /** The index built so far: one declaration per name, agreeing with all seen. */
  predicate ToolIndex(index: map<string, ToolSource>, seen: seq<ToolSource>) {
    && (forall t :: t in seen ==> t.name in index && ToolsAgree(index[t.name], t))
    && (forall name :: name in index ==> index[name] in seen && index[name].name == name)
  }

  predicate SkillIndex(index: map<string, SkillSource>, seen: seq<SkillSource>) {
    && (forall s :: s in seen ==> s.name in index && SkillsAgree(index[s.name], s))
    && (forall name :: name in index ==> index[name] in seen && index[name].name == name)
  }

  /** Adds one agent's tools to the index, or reports a clash with a declaration seen before. */
  method ShareTools(index: map<string, ToolSource>, ghost seen: seq<ToolSource>, tools: seq<ToolSource>)
    returns (index': map<string, ToolSource>, clash: Option<string>)
    requires ToolIndex(index, seen)
    ensures clash.None? ==> ToolIndex(index', seen + tools)
    ensures clash.Some? ==>
      exists s, t :: s in seen + tools && t in tools && s.name == t.name == clash.value && !ToolsAgree(s, t)
  {
    index' := index;
    for i := 0 to |tools|
      invariant ToolIndex(index', seen + tools[..i])
    {
      var src := tools[i];
      assert tools[..i + 1] == tools[..i] + [src];
      assert (seen + tools[..i]) + [src] == seen + tools[..i + 1];
      if src.name in index' {
        var prev := index'[src.name];
        if prev.url != src.url || prev.hash != src.hash {
          assert prev in seen + tools[..i];
          assert prev in seen + tools;
          return index', Some(src.name);
        }
      } else {
        index' := index'[src.name := src];
      }
    }
    assert tools[..|tools|] == tools;
    clash := None;
  }

  method ShareSkills(index: map<string, SkillSource>, ghost seen: seq<SkillSource>, skills: seq<SkillSource>)
    returns (index': map<string, SkillSource>, clash: Option<string>)
    requires SkillIndex(index, seen)
    ensures clash.None? ==> SkillIndex(index', seen + skills)
    ensures clash.Some? ==>
      exists s, t :: s in seen + skills && t in skills && s.name == t.name == clash.value && !SkillsAgree(s, t)
  {
    index' := index;
    for i := 0 to |skills|
      invariant SkillIndex(index', seen + skills[..i])
    {
      var src := skills[i];
      assert skills[..i + 1] == skills[..i] + [src];
      assert (seen + skills[..i]) + [src] == seen + skills[..i + 1];
      if src.name in index' {
        var prev := index'[src.name];
        if prev.url != src.url || prev.hash != src.hash {
          assert prev in seen + skills[..i];
          assert prev in seen + skills;
          return index', Some(src.name);
        }
      } else {
        index' := index'[src.name := src];
      }
    }
    assert skills[..|skills|] == skills;
    clash := None;
  }

  lemma IndexedToolsAgree(agents: seq<Agent>, index: map<string, ToolSource>)
    requires ToolIndex(index, AllTools(agents))
    ensures ToolsShared(agents)
  {
    AllToolsAreDeclared(agents);
    forall a, b | a in agents && b in agents
      ensures ToolsAgreeBetween(a, b)
    {
      forall s, t | s in Elems(a.customTools) && t in Elems(b.customTools)
        ensures ToolsAgree(s, t)
      {
        assert s in AllTools(agents) && t in AllTools(agents);
      }
    }
  }

  lemma IndexedSkillsAgree(agents: seq<Agent>, index: map<string, SkillSource>)
    requires SkillIndex(index, AllSkills(agents))
    ensures SkillsShared(agents)
  {
    AllSkillsAreDeclared(agents);
    forall a, b | a in agents && b in agents
      ensures SkillsAgreeBetween(a, b)
    {
      forall s, t | s in Elems(a.skills) && t in Elems(b.skills)
        ensures SkillsAgree(s, t)
      {
        assert s in AllSkills(agents) && t in AllSkills(agents);
      }
    }
  }

  /** A clash between an indexed tool and one of the next agent is a clash in the graph. */
  lemma ToolClashIsReal(agents: seq<Agent>, i: nat, s: ToolSource, t: ToolSource)
    requires i < |agents| && t in Elems(agents[i].customTools)
    requires s in AllTools(agents[..i]) + Elems(agents[i].customTools) && !ToolsAgree(s, t)
    ensures !ToolsShared(agents)
  {
    AllToolsAreDeclared(agents[..i]);
    var a :| a in agents && s in Elems(a.customTools);
    assert agents[i] in agents && !ToolsAgreeBetween(a, agents[i]);
  }

  lemma SkillClashIsReal(agents: seq<Agent>, i: nat, s: SkillSource, t: SkillSource)
    requires i < |agents| && t in Elems(agents[i].skills)
    requires s in AllSkills(agents[..i]) + Elems(agents[i].skills) && !SkillsAgree(s, t)
    ensures !SkillsShared(agents)
  {
    AllSkillsAreDeclared(agents[..i]);
    var a :| a in agents && s in Elems(a.skills);
    assert agents[i] in agents && !SkillsAgreeBetween(a, agents[i]);
  }

  /** The one-pass sharing check is equivalent to pairwise agreement of all declarations. */
  method CheckSharing(agents: seq<Agent>) returns (fault: Option<Fault>)
    ensures fault.None? <==> ToolsShared(agents) && SkillsShared(agents) && forall a :: a in agents ==> SkillsVisible(a)
    ensures fault.Some? ==> match fault.value
                            case ToolConflict(_) => !ToolsShared(agents)
                            case SkillConflict(_) => !SkillsShared(agents)
                            case SkillsInvisible(id) => exists a :: a in agents && a.name == id && !SkillsVisible(a)
                            case _ => false
  {
    var tools: map<string, ToolSource>, skills: map<string, SkillSource> := map[], map[];
    for i := 0 to |agents|
      invariant ToolIndex(tools, AllTools(agents[..i])) && SkillIndex(skills, AllSkills(agents[..i]))
      invariant forall j :: 0 <= j < i ==> SkillsVisible(agents[j])
    {
      var a := agents[i];
      assert agents[..i + 1][..i] == agents[..i];
      var clash;
      tools, clash := ShareTools(tools, AllTools(agents[..i]), Elems(a.customTools));
      if clash.Some? {
        ghost var s, t :| s in AllTools(agents[..i]) + Elems(a.customTools) && t in Elems(a.customTools)
                            && !ToolsAgree(s, t);
        ToolClashIsReal(agents, i, s, t);
        return Some(ToolConflict(clash.value));
      }
      skills, clash := ShareSkills(skills, AllSkills(agents[..i]), Elems(a.skills));
      if clash.Some? {
        ghost var s, t :| s in AllSkills(agents[..i]) + Elems(a.skills) && t in Elems(a.skills) && !SkillsAgree(s, t);
        SkillClashIsReal(agents, i, s, t);
        return Some(SkillConflict(clash.value));
      }
      if !SkillsVisible(a) {
        return Some(SkillsInvisible(a.name));
      }
    }
    assert agents[..|agents|] == agents;
    IndexedToolsAgree(agents, tools);
    IndexedSkillsAgree(agents, skills);
    fault := None;
  }

  // ---- The request -------------------------------------------------------------

  /** Accepts exactly the valid requests; the cycle search runs only on graphs whose
      references all resolve, and a reported cycle is genuine. */
  method ValidateRequest(checks: Checks, r: CreateRequest) returns (fault: Option<Fault>)
    ensures fault.None? <==> ValidRequest(checks, r)
    ensures fault.Some? && fault.value.ReferenceCycle? ==> Genuine(References(r.agents), fault.value.found)
  {
    if r.rootId == "" || !MatchesNamePattern(r.rootId) {
      return Some(BadRootId);
    }
    SanitizeIsNormalForm(r.key);
    if r.key == "" || !MatchesNamePattern(r.key) || SanitizeName(r.key) != r.key {
      return Some(BadKey);
    }
    if |r.agents| == 0 {
      return Some(NoAgents);
    }
    if !checks.settings(r) {
      return Some(BadSettings);
    }
    var seen;
    seen, fault := CheckNodes(checks, r.agents);
    if fault.Some? {
      return;
    }
    var root := AgentById(r.agents, r.rootId);
    if root.None? {
      return Some(RootMissing);
    }
    assert forall a :: a in r.agents && a.name == r.rootId ==> a == root.value;
    if !RootComplete(root.value) {
      return Some(RootIncomplete);
    }
    fault := CheckRuntimeGlobal(r.agents, r.rootId);
    if fault.Some? {
      return;
    }
    fault := CheckReferences(r.agents, seen);
    if fault.Some? {
      return;
    }
    ResolvedReferencesAreClosed(r.agents);
    var cycle := DetectSubagentCycle(r.agents);
    if cycle.Some? {
      return Some(ReferenceCycle(cycle.value));
    }
    fault := CheckSharing(r.agents);
  }
}
