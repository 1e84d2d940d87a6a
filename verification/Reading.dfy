/** What a read answers, on the document and the files: which failure, or which graph. */
module Reading {
  import opened Common
  import opened Paths
  import opened Model
  import opened FileSystem
  import opened Document
  import opened RoundTrip
  import Archive

  /** The name an entry stands for: its own, or its id if it has none. */
  predicate IsNameOf(name: string, e: Entry) {
    (e.name != "" && name == e.name) || (e.name == "" && name == e.id)
  }

  /** An agent as its entry describes it: the session cap may stand under its old key, and
      artifacts are declared elsewhere. */
  predicate IsAgentOf(a: Agent, e: Entry) {
    && IsNameOf(a.name, e) && a.description == e.description && a.model == e.model
    && a.permissionMode == e.permissionMode && a.effort == e.effort && a.thinking == e.thinking
    && a.maxTurns == e.maxTurns && a.tools == e.allowedTools && a.disallowedTools == e.disallowedTools
    && a.settingSources == e.settingSources && a.subagents == e.subagents
    && a.mcpServers == e.mcpServers && a.datasets == e.datasets
    && (e.maxSessionQueries.Some? ==> a.maxSessionQueries == e.maxSessionQueries)
    && (e.maxSessionQueries.None? ==> a.maxSessionQueries == e.legacyMaxSessionTurns)
  }

  /** The prompt file of the entry lies below "prompts/", once its dots are resolved. */
  predicate PromptIsInside(e: Entry) {
    && (e.systemPromptFile != "" ==> e.systemPromptFile[0] != '/')
    && |CleanSegs(e.systemPromptFile)| >= 2 && CleanSegs(e.systemPromptFile)[0] == "prompts"
  }

  /** An entry is read exactly if it carries its prompt or names a file below "prompts/" that is
      there; the file decides where both are given. */
  lemma EntryIsRead(dir: Dir, e: Entry)
    ensures match ReadEntry(dir, e)
            case Ok(a) =>
              && IsAgentOf(a, e) && a.skills.None? && a.customTools.None?
              && (e.systemPromptFile == "" ==> a.systemPrompt == e.systemPrompt)
              && (e.systemPromptFile != "" ==>
                   PromptIsInside(e) && Clean(e.systemPromptFile) in dir
                   && a.systemPrompt == dir[Clean(e.systemPromptFile)])
            case Err(EscapesPrompts(name)) =>
              e.systemPromptFile != "" && !PromptIsInside(e) && IsNameOf(name, e)
            case Err(MissingPrompt(name)) =>
              e.systemPromptFile != "" && PromptIsInside(e) && Clean(e.systemPromptFile) !in dir && IsNameOf(name, e)
            case Err(_) => false
  {
    hide Clean, CleanSegs;
    Archive.PromptCheckContains(e.systemPromptFile);
  }

  /** The declarations that complete the entries: those of the document, or else those of a
      sidecar bound to it. */
  function Declarations(c: Codec, dir: Dir, doc: Doc): map<string, Artifacts>
    requires "agents.yaml" in dir
  {
    if doc.manifest != map[] then doc.manifest
    else if "deploy-manifest.json" !in dir || c.parseSidecar(dir["deploy-manifest.json"]).None? then map[]
    else
      var m := c.parseSidecar(dir["deploy-manifest.json"]).value;
      if m.yamlDigest == c.sha(dir["agents.yaml"]) then m.artifacts else map[]
  }

  /** An agent of a graph: its entry, with what is declared for its name. */
  predicate IsCompleted(a: Agent, dir: Dir, e: Entry, declared: map<string, Artifacts>) {
    && ReadEntry(dir, e) == Ok(a.(skills := None, customTools := None))
    && a.skills == (if a.name in declared then declared[a.name].skills else None)
    && a.customTools == (if a.name in declared then declared[a.name].customTools else None)
  }

  predicate RootIs(id: string, key: string, doc: Doc) {
    id == if doc.rootId != "" then doc.rootId else key
  }

  predicate HasEntryOf(doc: Doc, id: string) {
    exists i :: 0 <= i < |doc.agents| && doc.agents[i].id == id
  }

  predicate AllRead(dir: Dir, doc: Doc) {
    forall i :: 0 <= i < |doc.agents| ==> ReadEntry(dir, doc.agents[i]).Ok?
  }

  /** Each answer of a read says what it found; no two of these can be true of the same files. */
  predicate Explains(c: Codec, key: string, dir: Dir, answer: Result<Graph, ReadError>) {
    if "agents.yaml" !in dir then answer == Err(NotFound)
    else
      match c.unmarshal(dir["agents.yaml"])
      case None => answer == Err(BadYaml)
      case Some(doc) =>
        match answer
        case Err(NoAgents) => doc.agents == []
        case Err(NoRootEntry(id)) =>
          doc.agents != [] && AllRead(dir, doc) && RootIs(id, key, doc) && !HasEntryOf(doc, id)
        case Err(BadSidecar) =>
          && doc.agents != [] && AllRead(dir, doc) && HasEntryOf(doc, if doc.rootId != "" then doc.rootId else key)
          && doc.manifest == map[]
          && "deploy-manifest.json" in dir && c.parseSidecar(dir["deploy-manifest.json"]).None?
        case Err(error) =>
          && !AllRead(dir, doc)
          && exists i :: 0 <= i < |doc.agents| && ReadEntry(dir, doc.agents[i]) == Err(error)
                         && forall j :: 0 <= j < i ==> ReadEntry(dir, doc.agents[j]).Ok?
        case Ok(g) =>
          && doc.agents != [] && AllRead(dir, doc) && RootIs(g.rootId, key, doc) && HasEntryOf(doc, g.rootId)
          && (doc.manifest == map[] && "deploy-manifest.json" in dir ==>
               c.parseSidecar(dir["deploy-manifest.json"]).Some?)
          && |g.agents| == |doc.agents|
          && forall i :: 0 <= i < |g.agents| ==>
               IsCompleted(g.agents[i], dir, doc.agents[i], Declarations(c, dir, doc))
  }

  predicate IsEntryError(error: ReadError) {
    error.EscapesPrompts? || error.MissingPrompt?
  }

  lemma EntryErrors(dir: Dir, e: Entry)
    ensures ReadEntry(dir, e).Err? ==> IsEntryError(ReadEntry(dir, e).error)
    ensures ReadEntry(dir, e).Ok? ==> ReadEntry(dir, e).value.skills.None? && ReadEntry(dir, e).value.customTools.None?
  {
  }

  lemma MergedIsCompleted(m: map<string, Artifacts>, a: Agent, dir: Dir, e: Entry)
    requires ReadEntry(dir, e) == Ok(a)
    ensures IsCompleted(MergeOne(m, a), dir, e, m)
  {
    EntryErrors(dir, e);
    assert MergeOne(m, a).(skills := None, customTools := None) == a;
  }

  lemma UndeclaredIsCompleted(a: Agent, dir: Dir, e: Entry)
    requires ReadEntry(dir, e) == Ok(a)
    ensures IsCompleted(a, dir, e, map[])
  {
    EntryErrors(dir, e);
  }

  lemma GraphIsExplained(c: Codec, key: string, dir: Dir, doc: Doc, agents: seq<Agent>)
    requires YAML in dir && c.unmarshal(dir[YAML]) == Some(doc)
    requires ReadEntries(dir, doc.agents) == Ok(agents) && ReadDoc(c, key, dir, doc).Ok?
    ensures Explains(c, key, dir, ReadDoc(c, key, dir, doc))
  {
    hide ReadEntries, ReadEntry, IsCompleted, Clean;
    var g := ReadDoc(c, key, dir, doc).value;
    var declared := Declarations(c, dir, doc);
    ReadEntriesPointwise(dir, doc.agents);
    forall i | 0 <= i < |doc.agents|
      ensures IsCompleted(g.agents[i], dir, doc.agents[i], declared)
    {
      MergedIsCompleted(declared, agents[i], dir, doc.agents[i]);
      UndeclaredIsCompleted(agents[i], dir, doc.agents[i]);
    }
  }

  /** A read answers what its document and files explain. */
  lemma ReadIsExplained(c: Codec, key: string, dir: Dir)
    ensures Explains(c, key, dir, ReadGraph(c, key, dir))
  {
    hide ReadEntry, IsCompleted, Clean;
    if YAML in dir && c.unmarshal(dir[YAML]).Some? {
      var doc := c.unmarshal(dir[YAML]).value;
      ReadEntriesPointwise(dir, doc.agents);
      if ReadEntries(dir, doc.agents).Err? {
        var i := FirstUnread(Reader(dir), doc.agents);
        EntryErrors(dir, doc.agents[i]);
      } else if ReadDoc(c, key, dir, doc).Ok? {
        GraphIsExplained(c, key, dir, doc, ReadEntries(dir, doc.agents).value);
      }
    }
  }

  lemma CompletedOnce(a: Agent, b: Agent, dir: Dir, e: Entry, declared: map<string, Artifacts>)
    requires IsCompleted(a, dir, e, declared) && IsCompleted(b, dir, e, declared)
    ensures a == b
  {
    assert a.(skills := None, customTools := None) == b.(skills := None, customTools := None);
    assert a == b.(skills := a.skills, customTools := a.customTools);
  }

  /** So the answer is the only one that the document and the files explain. */
  lemma OnlyReadIsExplained(c: Codec, key: string, dir: Dir, answer: Result<Graph, ReadError>)
    ensures Explains(c, key, dir, answer) <==> answer == ReadGraph(c, key, dir)
  {
    hide ReadEntry, IsCompleted, Clean, ReadGraph, Declarations;
    ReadIsExplained(c, key, dir);
    var other := ReadGraph(c, key, dir);
    if Explains(c, key, dir, answer) && "agents.yaml" in dir && c.unmarshal(dir["agents.yaml"]).Some? {
      var doc := c.unmarshal(dir["agents.yaml"]).value;
      forall i | 0 <= i < |doc.agents|
        ensures ReadEntry(dir, doc.agents[i]).Err? ==> IsEntryError(ReadEntry(dir, doc.agents[i]).error)
      {
        EntryErrors(dir, doc.agents[i]);
      }
      if answer.Ok? && other.Ok? {
        forall i | 0 <= i < |doc.agents|
          ensures answer.value.agents[i] == other.value.agents[i]
        {
          CompletedOnce(answer.value.agents[i], other.value.agents[i], dir, doc.agents[i], Declarations(c, dir, doc));
        }
        assert answer.value.agents == other.value.agents;
      }
    }
  }
}
