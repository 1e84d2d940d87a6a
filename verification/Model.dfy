/** The deployment request: agent definitions, artifact sources and what a valid graph is. */
module Model {
  import opened Common
  import opened Paths
  import opened Text
  import opened Naming

  datatype Thinking = Thinking(kind: string, budgetTokens: Option<int>)

  datatype McpServer = McpServer(transport: string, url: string, headers: Option<map<string, string>>)

  datatype SkillSource = SkillSource(name: string, url: string, hash: string)

  datatype ToolSource = ToolSource(name: string, url: string, hash: string, fileName: string)
  {
    function Extension(): string { Ext(fileName) }
    function LocalFileName(): string { name + Extension() }
    function LocalRelPath(): string { "./tools/" + LocalFileName() }
  }

  datatype Agent = Agent(
    name: string, description: string, model: string, systemPrompt: string,
    maxTurns: Option<int>, maxSessionQueries: Option<int>, permissionMode: string,
    effort: string, thinking: Option<Thinking>,
    tools: Slice<string>, disallowedTools: Slice<string>,
    customTools: Slice<ToolSource>, skills: Slice<SkillSource>,
    settingSources: Slice<string>, subagents: Slice<string>,
    mcpServers: Option<map<string, McpServer>>, datasets: Option<map<string, string>>)

  datatype Provider = Provider(protocol: string, baseURL: string, apiKey: string)

  datatype Aigc = Aigc(
    enabled: bool, contentProducer: string, signingKey: string, explicitHint: Option<bool>,
    modelCodes: Option<map<string, string>>, labelCode: Option<string>, produceIdPrefix: string)

  datatype Hub = Hub(enabled: bool, baseURL: string, chatPushKey: string, org: string)

  datatype CreateRequest = CreateRequest(
    rootId: string, key: string, agents: seq<Agent>, provider: Provider,
    aigc: Option<Aigc>, hub: Option<Hub>, force: bool, runtimeToken: string)

  /** Per-field checks that are one branch each and stay uninterpreted: the URL parser;
      a node's description, thinking, effort, datasets and MCP servers; and the
      provider, aigc, hub and token settings. */
  datatype Checks = Checks(url: string -> bool, node: Agent -> bool, settings: CreateRequest -> bool)

  // ---- Artifact sources --------------------------------------------------------

  /** The pattern ^[A-Za-z0-9._-]{1,64}$ */
  predicate MatchesNamePattern(s: string) {
    1 <= |s| <= 64 && forall i :: 0 <= i < |s| ==> IsAlnum(s[i]) || s[i] in "._-"
  }

  predicate ArtifactNameOk(name: string) {
    !Blank(name) && name != "." && name != ".." && MatchesNamePattern(name)
  }

  function NormalizeSha256(h: string): string {
    TrimPrefix(ToLower(TrimSpace(h)), "sha256:")
  }

  predicate IsSha256Hex(s: string) {
    |s| == 64 && forall i :: 0 <= i < |s| ==> IsHex(s[i])
  }

  predicate HashOk(hash: string) {
    !Blank(hash) && IsSha256Hex(NormalizeSha256(hash))
  }

  const TOOL_EXTENSIONS := {".ts", ".mts", ".js", ".mjs"}

  predicate ToolOk(checks: Checks, t: ToolSource) {
    && ArtifactNameOk(t.name) && checks.url(t.url) && HashOk(t.hash)
    && !Blank(t.fileName) && t.Extension() in TOOL_EXTENSIONS
  }

  predicate SkillOk(checks: Checks, s: SkillSource) {
    ArtifactNameOk(s.name) && checks.url(s.url) && HashOk(s.hash)
  }

  /** The local file name determines the tool's name and extension. */
  lemma LocalFileNameInjective(s: ToolSource, t: ToolSource)
    requires s.Extension() in TOOL_EXTENSIONS && t.Extension() in TOOL_EXTENSIONS
    requires s.LocalFileName() == t.LocalFileName()
    ensures s.name == t.name && s.Extension() == t.Extension()
  {
    hide Ext;
    ExtOfConcat(s.name, s.Extension());
    ExtOfConcat(t.name, t.Extension());
    assert s.name == s.LocalFileName()[..|s.LocalFileName()| - |s.Extension()|];
    assert t.name == t.LocalFileName()[..|t.LocalFileName()| - |t.Extension()|];
  }

  lemma NameHasNoSlash(name: string)
    requires MatchesNamePattern(name)
    ensures '/' !in name && '\\' !in name && name != ""
  {
  }

  // ---- Node and graph validity -------------------------------------------------

  predicate DistinctToolNames(tools: seq<ToolSource>) {
    forall i, j :: 0 <= i < j < |tools| ==> tools[i].name != tools[j].name
  }

  predicate AgentOk(checks: Checks, a: Agent) {
    && !Blank(a.name) && MatchesNamePattern(a.name) && checks.node(a)
    && (forall s :: s in Elems(a.skills) ==> SkillOk(checks, s))
    && (forall t :: t in Elems(a.customTools) ==> ToolOk(checks, t))
    && DistinctToolNames(Elems(a.customTools))
  }

  predicate UniqueIds(agents: seq<Agent>) {
    forall i, j :: 0 <= i < j < |agents| ==> agents[i].name != agents[j].name
  }

  function Ids(agents: seq<Agent>): set<string> {
    set a | a in agents :: a.name
  }

  predicate HasId(agents: seq<Agent>, id: string) {
    exists a :: a in agents && a.name == id
  }

  /** Fields that only the root may declare. */
  predicate RuntimeGlobalFree(a: Agent) {
    a.model == "" && a.maxSessionQueries.None? && a.permissionMode == "" && a.effort == "" && a.thinking.None?
  }

  predicate RootComplete(a: Agent) {
    !Blank(a.model) && !Blank(a.systemPrompt)
  }

  /** Each reference names another agent of the graph, and names it once. */
  predicate ReferencesOk(agents: seq<Agent>, a: Agent) {
    && Distinct(Elems(a.subagents))
    && forall ref :: ref in Elems(a.subagents) ==> ref != a.name && HasId(agents, ref)
  }

  /** Declarations of the same name agree on url and hash. */
  predicate ToolsAgree(s: ToolSource, t: ToolSource) {
    s.name == t.name ==> s.url == t.url && s.hash == t.hash
  }

  predicate SkillsAgree(s: SkillSource, t: SkillSource) {
    s.name == t.name ==> s.url == t.url && s.hash == t.hash
  }

  predicate ToolsAgreeBetween(a: Agent, b: Agent) {
    forall s, t {:trigger ToolsAgree(s, t)} ::
      s in Elems(a.customTools) && t in Elems(b.customTools) ==> ToolsAgree(s, t)
  }

  predicate SkillsAgreeBetween(a: Agent, b: Agent) {
    forall s, t {:trigger SkillsAgree(s, t)} :: s in Elems(a.skills) && t in Elems(b.skills) ==> SkillsAgree(s, t)
  }

  /** All declarations of the graph agree pairwise. */
  predicate ToolsShared(agents: seq<Agent>) {
    forall a, b {:trigger ToolsAgreeBetween(a, b)} :: a in agents && b in agents ==> ToolsAgreeBetween(a, b)
  }

  predicate SkillsShared(agents: seq<Agent>) {
    forall a, b {:trigger SkillsAgreeBetween(a, b)} :: a in agents && b in agents ==> SkillsAgreeBetween(a, b)
  }

  predicate SkillsVisible(a: Agent) {
    Elems(a.skills) != [] ==> "user" in Elems(a.settingSources)
  }

  // ---- The reference graph -----------------------------------------------------

  /** `byID[id].Subagents`: with repeated ids the last definition counts. */
  function References(agents: seq<Agent>): map<string, seq<string>> {
    if agents == [] then map[]
    else
      var last := agents[|agents| - 1];
      References(agents[..|agents| - 1])[last.name := Elems(last.subagents)]
  }

  lemma {:induction false} ReferencesOfAgents(agents: seq<Agent>)
    ensures References(agents).Keys == Ids(agents)
    ensures forall id :: id in References(agents) ==>
      exists a :: a in agents && a.name == id && References(agents)[id] == Elems(a.subagents)
    ensures UniqueIds(agents) ==>
      forall a :: a in agents ==> a.name in References(agents) && References(agents)[a.name] == Elems(a.subagents)
  {
    if agents != [] {
      var n := |agents| - 1;
      ReferencesOfAgents(agents[..n]);
      assert agents == agents[..n] + [agents[n]];
    }
  }

  /** A walk along references. */
  predicate IsWalk(refs: map<string, seq<string>>, walk: seq<string>) {
    forall i {:trigger walk[i]} :: 0 <= i < |walk| - 1 ==> walk[i] in refs && walk[i + 1] in refs[walk[i]]
  }

  predicate IsCycle(refs: map<string, seq<string>>, walk: seq<string>) {
    |walk| >= 2 && walk[0] == walk[|walk| - 1] && IsWalk(refs, walk)
  }

  ghost predicate HasCycle(refs: map<string, seq<string>>) {
    exists walk :: IsCycle(refs, walk)
  }

  predicate Closed(refs: map<string, seq<string>>) {
    forall id, ref :: id in refs && ref in refs[id] ==> ref in refs
  }

  /** A request the deployer accepts, stated without the order of its checks. */
  ghost predicate ValidRequest(checks: Checks, r: CreateRequest) {
    && MatchesNamePattern(r.rootId)
    && MatchesNamePattern(r.key) && IsSanitized(r.key)
    && r.agents != [] && checks.settings(r)
    && UniqueIds(r.agents)
    && (forall a :: a in r.agents ==> AgentOk(checks, a))
    && HasId(r.agents, r.rootId)
    && (forall a :: a in r.agents && a.name == r.rootId ==> RootComplete(a))
    && (forall a :: a in r.agents && a.name != r.rootId ==> RuntimeGlobalFree(a))
    && (forall a :: a in r.agents ==> ReferencesOk(r.agents, a))
    && !HasCycle(References(r.agents))
    && ToolsShared(r.agents) && SkillsShared(r.agents)
    && (forall a :: a in r.agents ==> SkillsVisible(a))
  }

  /** In an acyclic graph a walk never returns to an agent. */
  lemma AcyclicWalksAreDistinct(refs: map<string, seq<string>>, walk: seq<string>)
    requires !HasCycle(refs) && IsWalk(refs, walk)
    ensures Distinct(walk)
  {
    forall i, j | 0 <= i < j < |walk|
      ensures walk[i] != walk[j]
    {
      var part := walk[i..j + 1];
      assert forall k :: 0 <= k < |part| ==> part[k] == walk[i + k];
      assert IsWalk(refs, part);
      assert !IsCycle(refs, part);
    }
  }

  lemma {:induction false} WalksStayInside(refs: map<string, seq<string>>, walk: seq<string>, i: nat)
    requires Closed(refs) && IsWalk(refs, walk) && i < |walk| && walk[0] in refs
    ensures walk[i] in refs
  {
    if i > 0 {
      WalksStayInside(refs, walk, i - 1);
      assert walk[i - 1 + 1] in refs[walk[i - 1]];
    }
  }

  lemma ResolvedReferencesAreClosed(agents: seq<Agent>)
    requires forall a :: a in agents ==> ReferencesOk(agents, a)
    ensures Closed(References(agents))
  {
    var refs := References(agents);
    ReferencesOfAgents(agents);
    forall id, ref | id in refs && ref in refs[id]
      ensures ref in refs
    {
      var a :| a in agents && a.name == id && refs[id] == Elems(a.subagents);
      assert ReferencesOk(agents, a) && HasId(agents, ref);
      assert ref in Ids(agents);
    }
  }

  lemma {:induction false} FewIds(agents: seq<Agent>)
    ensures |Ids(agents)| <= |agents|
  {
    if agents != [] {
      var n := |agents| - 1;
      FewIds(agents[..n]);
      assert agents == agents[..n] + [agents[n]];
      assert Ids(agents) == Ids(agents[..n]) + {agents[n].name};
    }
  }

  /** In a valid request every delegation walk visits distinct agents of the request, so
      it follows fewer edges than there are agents. */
  lemma DelegationIsBounded(checks: Checks, r: CreateRequest, walk: seq<string>)
    requires ValidRequest(checks, r)
    requires walk != [] && walk[0] in Ids(r.agents) && IsWalk(References(r.agents), walk)
    ensures Distinct(walk) && |walk| - 1 < |r.agents|
    ensures forall i :: 0 <= i < |walk| ==> walk[i] in Ids(r.agents)
  {
    var refs := References(r.agents);
    ReferencesOfAgents(r.agents);
    ResolvedReferencesAreClosed(r.agents);
    forall i | 0 <= i < |walk|
      ensures walk[i] in Ids(r.agents)
    {
      WalksStayInside(refs, walk, i);
    }
    AcyclicWalksAreDistinct(refs, walk);
    DistinctFits(walk, Ids(r.agents));
    FewIds(r.agents);
  }
}
