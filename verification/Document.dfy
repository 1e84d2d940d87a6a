/** The persisted document of one deployment: how a request becomes a document, and how a
    document, its prompt files and its artifact declarations become a graph again. */
module Document {
  import opened Common
  import opened Paths
  import opened Model
  import opened FileSystem
  import Naming
  import Order

  // ---- Documents and their encodings ----------------------------------------------

  /** runtimeAgentEntry */
  datatype Entry = Entry(
    id: string, name: string, description: string, model: string,
    apiType: string, baseURL: string, apiKey: string,
    systemPrompt: string, systemPromptFile: string,
    maxTurns: Option<int>, maxSessionQueries: Option<int>, legacyMaxSessionTurns: Option<int>,
    permissionMode: string, thinking: Option<Thinking>, effort: string,
    allowedTools: Slice<string>, disallowedTools: Slice<string>, customTools: Slice<string>,
    settingSources: Slice<string>, extraUserSkillDirs: Slice<string>, subagents: Slice<string>,
    mcpServers: Option<map<string, McpServer>>, datasets: Option<map<string, string>>)

  /** agentArtifacts */
  datatype Artifacts = Artifacts(skills: Slice<SkillSource>, customTools: Slice<ToolSource>)

  /** runtimeAgentsYAML */
  datatype Doc = Doc(
    aigc: Option<Aigc>, hub: Option<Hub>, agents: seq<Entry>,
    rootId: string, manifest: map<string, Artifacts>)

  /** The legacy sidecar deploy-manifest.json. */
  datatype Sidecar = Sidecar(rootId: string, yamlDigest: string, artifacts: map<string, Artifacts>)

  function WireMcp(servers: Option<map<string, McpServer>>): Option<map<string, McpServer>> {
    match OmitEmptyMap(servers)
    case None => None
    case Some(m) => Some(map name | name in m :: m[name].(headers := OmitEmptyMap(m[name].headers)))
  }

  /** What is left of an entry once its empty `omitempty` fields are dropped. */
  function WireEntry(e: Entry): Entry {
    e.(allowedTools := OmitEmpty(e.allowedTools), disallowedTools := OmitEmpty(e.disallowedTools),
       customTools := OmitEmpty(e.customTools), settingSources := OmitEmpty(e.settingSources),
       extraUserSkillDirs := OmitEmpty(e.extraUserSkillDirs), subagents := OmitEmpty(e.subagents),
       mcpServers := WireMcp(e.mcpServers), datasets := OmitEmptyMap(e.datasets))
  }

  function WireArtifacts(a: Artifacts): Artifacts {
    Artifacts(OmitEmpty(a.skills), OmitEmpty(a.customTools))
  }

  function WireAigc(a: Option<Aigc>): Option<Aigc> {
    match a
    case None => None
    case Some(section) => Some(section.(modelCodes := OmitEmptyMap(section.modelCodes)))
  }

  function Wire(d: Doc): Doc {
    d.(aigc := WireAigc(d.aigc),
       agents := seq(|d.agents|, i requires 0 <= i < |d.agents| => WireEntry(d.agents[i])),
       manifest := map id | id in d.manifest :: WireArtifacts(d.manifest[id]))
  }

  /** The YAML and JSON libraries and SHA-256, as parameters. */
  datatype Codec = Codec(
    marshal: Doc -> Bytes, unmarshal: Bytes -> Option<Doc>,
    parseSidecar: Bytes -> Option<Sidecar>, sha: Bytes -> Digest)
  {
    /** Decoding inverts encoding up to `omitempty`, and encoding sees nothing else. */
    ghost predicate Lawful() {
      && (forall d :: unmarshal(marshal(d)) == Some(Wire(d)))
      && (forall d :: marshal(Wire(d)) == marshal(d))
    }
  }

  // ---- File names ------------------------------------------------------------------

  const YAML := "agents.yaml"
  const YAML_TMP := "agents.yaml.tmp"
  const SIDECAR := "deploy-manifest.json"
  const PROMPTS := "prompts/"

  /** The keys whose document is on disk. */
  function Deployments(files: map<string, Dir>): set<string> {
    set key | key in files && YAML in files[key]
  }

  function PromptFileName(c: Codec, id: string, text: string): string {
    id + "-" + c.sha(text)[..16] + ".md"
  }

  function PromptPath(c: Codec, a: Agent): string {
    PROMPTS + PromptFileName(c, a.name, a.systemPrompt)
  }

  function PromptRef(c: Codec, a: Agent): string {
    "./prompts/" + PromptFileName(c, a.name, a.systemPrompt)
  }

  /** Installed tools and skills lie apart from the files of the store. */
  predicate IsArtifactFile(path: string) {
    "tools/" <= path || "skills/" <= path
  }

  /** Only artifacts were installed or removed. */
  ghost predicate ArtifactsOnly(before: Dir, after: Dir) {
    forall p :: !IsArtifactFile(p) ==> SameAt(before, after, p)
  }

  // ---- Writing ---------------------------------------------------------------------

  datatype WriteRequest = WriteRequest(
    key: string, rootId: string, agents: seq<Agent>, provider: Provider,
    aigc: Option<Aigc>, hub: Option<Hub>, toolPaths: map<string, seq<string>>)

  /** computeSystemPromptRefs: of agents with the same id the last one with a prompt counts. */
  function PromptRefs(c: Codec, agents: seq<Agent>): map<string, string> {
    if agents == [] then map[]
    else
      var refs, last := PromptRefs(c, agents[..|agents| - 1]), agents[|agents| - 1];
      if last.systemPrompt == "" then refs else refs[last.name := PromptRef(c, last)]
  }

  function BuildEntry(c: Codec, r: WriteRequest, refs: map<string, string>, a: Agent): Entry {
    var root := a.name == r.rootId;
    Entry(
      a.name, a.name, a.description, if root then a.model else "",
      if root then r.provider.protocol else "", if root then r.provider.baseURL else "",
      if root then r.provider.apiKey else "",
      "", if a.name in refs then refs[a.name] else "",
      a.maxTurns, if root then a.maxSessionQueries else None, None,
      if root then a.permissionMode else "", if root then a.thinking else None,
      if root then a.effort else "",
      a.tools, a.disallowedTools,
      if a.name in r.toolPaths && r.toolPaths[a.name] != []
      then Some(Order.SortBy(r.toolPaths[a.name], path => path)) else None,
      if root && Elems(a.settingSources) == [] then Some(["project"]) else a.settingSources,
      if Elems(a.skills) == [] then None else Some([Naming.ContainerSkillDir(a.name)]),
      a.subagents, a.mcpServers, a.datasets)
  }

  /** The artifact declarations that the entries cannot express. */
  function Embedded(agents: seq<Agent>): map<string, Artifacts> {
    if agents == [] then map[]
    else
      var rest, last := Embedded(agents[..|agents| - 1]), agents[|agents| - 1];
      if Elems(last.skills) == [] && Elems(last.customTools) == [] then rest
      else rest[last.name := Artifacts(last.skills, last.customTools)]
  }

  function AigcSection(aigc: Option<Aigc>): Option<Aigc> {
    if aigc.None? || !aigc.value.enabled then None
    else if aigc.value.explicitHint.None? then Some(aigc.value.(explicitHint := Some(true)))
    else aigc
  }

  function HubSection(hub: Option<Hub>): Option<Hub> {
    if hub.None? || !hub.value.enabled then None else hub
  }

  function BuildEntries(c: Codec, r: WriteRequest, agents: seq<Agent>): (entries: seq<Entry>)
    ensures |entries| == |agents|
  {
    var refs := PromptRefs(c, r.agents);
    seq(|agents|, i requires 0 <= i < |agents| => BuildEntry(c, r, refs, agents[i]))
  }

  function BuildDoc(c: Codec, r: WriteRequest): Doc {
    Doc(AigcSection(r.aigc), HubSection(r.hub), BuildEntries(c, r, r.agents), r.rootId, Embedded(r.agents))
  }

  // ---- Reading ---------------------------------------------------------------------

  datatype Graph = Graph(rootId: string, agents: seq<Agent>)

  datatype ReadError =
    | NotFound | BadYaml | NoAgents | EscapesPrompts(id: string) | MissingPrompt(id: string)
    | NoRootEntry(rootId: string) | BadSidecar | ReadFault

  function EntryName(e: Entry): string {
    if e.name == "" then e.id else e.name
  }

  /** The prompt text of an entry; the file must lie below `prompts/`. */
  function ReadPrompt(dir: Dir, e: Entry): Result<string, ReadError> {
    var path := Clean(e.systemPromptFile);
    if e.systemPromptFile == "" then Ok(e.systemPrompt)
    else if !(PROMPTS <= path) then Err(EscapesPrompts(EntryName(e)))
    else if path !in dir then Err(MissingPrompt(EntryName(e)))
    else Ok(dir[path])
  }

  function EntryAgent(e: Entry, prompt: string): Agent {
    Agent(
      EntryName(e), e.description, e.model, prompt,
      e.maxTurns,
      if e.maxSessionQueries.None? then e.legacyMaxSessionTurns else e.maxSessionQueries,
      e.permissionMode, e.effort, e.thinking, e.allowedTools, e.disallowedTools,
      None, None, e.settingSources, e.subagents, e.mcpServers, e.datasets)
  }

  function ReadEntry(dir: Dir, e: Entry): Result<Agent, ReadError> {
    match ReadPrompt(dir, e)
    case Ok(prompt) => Ok(EntryAgent(e, prompt))
    case Err(error) => Err(error)
  }

  function Reader(dir: Dir): Entry -> Result<Agent, ReadError> {
    e => ReadEntry(dir, e)
  }

  function ReadEntries(dir: Dir, entries: seq<Entry>): Result<seq<Agent>, ReadError> {
    ReadAll(Reader(dir), entries)
  }

  function ArtifactsOf(m: map<string, Artifacts>, id: string): Artifacts {
    if id in m then m[id] else Artifacts(None, None)
  }

  function MergeOne(m: map<string, Artifacts>, a: Agent): Agent {
    var arts := ArtifactsOf(m, a.name);
    a.(skills := if arts.skills.Some? then arts.skills else a.skills,
       customTools := if arts.customTools.Some? then arts.customTools else a.customTools)
  }

  function Merge(m: map<string, Artifacts>, agents: seq<Agent>): (merged: seq<Agent>)
    ensures |merged| == |agents|
  {
    seq(|agents|, i requires 0 <= i < |agents| => MergeOne(m, agents[i]))
  }

  /** loadDeploymentManifest: a sidecar counts only if it is bound to this very document. */
  function LoadSidecar(c: Codec, dir: Dir, agents: seq<Agent>, digest: string): Result<seq<Agent>, ReadError> {
    if SIDECAR !in dir then Ok(agents)
    else
      match c.parseSidecar(dir[SIDECAR])
      case None => Err(BadSidecar)
      case Some(m) =>
        if m.yamlDigest == "" || m.yamlDigest != digest then Ok(agents) else Ok(Merge(m.artifacts, agents))
  }

  function RootOf(key: string, doc: Doc): string {
    if doc.rootId == "" then key else doc.rootId
  }

  predicate HasEntry(entries: seq<Entry>, id: string) {
    exists i :: 0 <= i < |entries| && entries[i].id == id
  }

  function ReadDoc(c: Codec, key: string, dir: Dir, doc: Doc): Result<Graph, ReadError>
    requires YAML in dir
  {
    if doc.agents == [] then Err(NoAgents)
    else
      match ReadEntries(dir, doc.agents)
      case Err(error) => Err(error)
      case Ok(agents) =>
        if !HasEntry(doc.agents, RootOf(key, doc)) then Err(NoRootEntry(RootOf(key, doc)))
        else
          var merged := if doc.manifest != map[] then Ok(Merge(doc.manifest, agents))
                        else LoadSidecar(c, dir, agents, c.sha(dir[YAML]));
          match merged
          case Err(error) => Err(error)
          case Ok(all) => Ok(Graph(RootOf(key, doc), all))
  }

  /** ReadAgentYAML on an undisturbed disk. */
  function ReadGraph(c: Codec, key: string, dir: Dir): Result<Graph, ReadError> {
    if YAML !in dir then Err(NotFound)
    else
      match c.unmarshal(dir[YAML])
      case None => Err(BadYaml)
      case Some(doc) => ReadDoc(c, key, dir, doc)
  }

  // ---- Normal form -----------------------------------------------------------------

  /** What survives a write and a read: empty collections become absent, the root's setting
      sources default to "project", and runtime-global fields stay on the root only. */
  function NormAgent(rootId: string, a: Agent): Agent {
    var root := a.name == rootId;
    a.(model := if root then a.model else "",
       maxSessionQueries := if root then a.maxSessionQueries else None,
       permissionMode := if root then a.permissionMode else "",
       effort := if root then a.effort else "",
       thinking := if root then a.thinking else None,
       tools := OmitEmpty(a.tools), disallowedTools := OmitEmpty(a.disallowedTools),
       customTools := OmitEmpty(a.customTools), skills := OmitEmpty(a.skills),
       settingSources := if root && Elems(a.settingSources) == [] then Some(["project"])
                         else OmitEmpty(a.settingSources),
       subagents := OmitEmpty(a.subagents), mcpServers := WireMcp(a.mcpServers),
       datasets := OmitEmptyMap(a.datasets))
  }

  function Norm(rootId: string, agents: seq<Agent>): (normal: seq<Agent>)
    ensures |normal| == |agents|
  {
    seq(|agents|, i requires 0 <= i < |agents| => NormAgent(rootId, agents[i]))
  }

  /** What the store needs of a request; a validated request has it. */
  predicate Storable(r: WriteRequest) {
    && UniqueIds(r.agents) && HasId(r.agents, r.rootId) && r.rootId != ""
    && forall a :: a in r.agents ==> '/' !in a.name
  }
}
