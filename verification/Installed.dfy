/** Installed artifacts, on the declarations and the files: what a cache hit is, what a download
    has to bring, what an installed directory holds, and what a container finds. */
module Installed {
  import opened Common
  import opened Paths
  import opened Text
  import opened Model
  import opened Accepted
  import opened FileSystem
  import opened Document
  import opened RoundTrip
  import opened Download
  import opened Archive
  import opened Readiness
  import Artifacts
  import Skills
  import ToolLists
  import Tools

  /** A text that is this digest with white space around. */
  ghost predicate Names(text: string, digits: string) {
    exists front: string, back: string :: AllSpaces(front) && AllSpaces(back) && text == front + digits + back
  }

  lemma NamesIff(text: string, digits: string)
    requires IsDigest(digits)
    ensures Names(text, digits) <==> TrimSpace(text) == digits
  {
    DigestIff(digits);
    forall i | 0 <= i < |digits|
      ensures !IsWhite(digits[i])
    {
    }
    if Names(text, digits) {
      var front: string, back: string :| AllSpaces(front) && AllSpaces(back) && text == front + digits + back;
      TrimSpaceDrops(front, digits, back);
    }
    var front, back := TrimSpaceStrips(text);
    assert text == front + TrimSpace(text) + back;
  }

  // ---- Tools -----------------------------------------------------------------------------------

  /** Where a tool lies: below "tools/", under its name with the extension of its file. */
  function ToolFile(t: ToolSource): string {
    "tools/" + t.name + Ext(t.fileName)
  }

  lemma ToolFileIsPath(t: ToolSource)
    ensures Tools.ToolPath(t) == ToolFile(t) && Tools.MarkerPath(Tools.ToolPath(t)) == ToolFile(t) + ".sha256"
  {
    assert "tools/" + (t.name + Ext(t.fileName)) == "tools/" + t.name + Ext(t.fileName);
  }

  /** A download is spared exactly if the tool's file is there and the marker beside it names the
      digest that the declaration asks for. */
  lemma ToolHitIff(installer: Tools.ToolInstaller, t: ToolSource, dir: Dir, digits: string)
    requires IsDigest(digits) && AsksFor(t.hash, digits)
    ensures installer.CacheHit(t, dir) <==>
      ToolFile(t) in dir && ToolFile(t) + ".sha256" in dir && Names(dir[ToolFile(t) + ".sha256"], digits)
  {
    hide Names, AsksFor, Ext;
    HashIff(t.hash, digits);
    ToolFileIsPath(t);
    if ToolFile(t) + ".sha256" in dir {
      NamesIff(dir[ToolFile(t) + ".sha256"], digits);
    }
  }

  /** A response brings the whole body, within these bounds, and it has this digest. */
  predicate Brings(sha: Bytes -> Digest, response: Response, maxBytes: int, minBytes: int, digits: string) {
    && response.Streamed? && !IsBroken(response.stream) && sha(BodyOf(response.stream)) == digits
    && (maxBytes > 0 ==> |BodyOf(response.stream)| <= maxBytes)
    && (minBytes > 0 ==> |BodyOf(response.stream)| >= minBytes)
  }

  lemma ToolDeliversIff(installer: Tools.ToolInstaller, t: ToolSource, response: Response, digits: string)
    requires IsDigest(digits) && AsksFor(t.hash, digits) && ResponseCounts(installer.options, response)
    ensures installer.Delivers(t, response) <==>
      Brings(installer.sha, response, installer.options.maxBytes, installer.options.minBytes, digits)
  {
    HashIff(t.hash, digits);
  }

  lemma OneSegment(tree: Tree, name: string)
    ensures FileAt(tree, [name]) == if name in tree && tree[name].File? then Some(tree[name].data) else None
    ensures IsDirAt(tree, [name]) <==> name in tree && tree[name].Folder?
  {
    assert [name][1..] == [];
  }

  // ---- Skills ----------------------------------------------------------------------------------

  lemma SkillHitIff(installer: Skills.SkillInstaller, slots: Slots, slot: Slot, s: SkillSource, digits: string)
    requires IsDigest(digits) && AsksFor(s.hash, digits)
    ensures installer.CacheHit(slots, slot, s) <==>
      slot in slots && FileAt(slots[slot], [".sha256"]).Some? && Names(FileAt(slots[slot], [".sha256"]).value, digits)
  {
    hide Names, AsksFor;
    HashIff(s.hash, digits);
    if slot in slots {
      OneSegment(slots[slot], ".sha256");
      if FileAt(slots[slot], [".sha256"]).Some? {
        NamesIff(FileAt(slots[slot], [".sha256"]).value, digits);
      }
    }
  }

  /** All that the archive holds is a directory of the skill's name. */
  ghost predicate IsWrapped(name: string, tree: Tree) {
    exists inner :: tree == map[name := Folder(inner)]
  }

  ghost predicate HoldsTree(name: string, tree: Tree, entries: Tree) {
    forall q: seq<string> :: q != [] && q[0] != ".sha256" ==>
      FileAt(entries, q) == FileAt(tree, if IsWrapped(name, tree) then [name] + q else q)
  }

  /** What a skill's directory holds: each file of the archive at its path, less the wrapper, and
      the marker with the archive's digest. */
  ghost predicate HoldsArchive(lib: Skills.Library, name: string, digits: string, entries: Tree) {
    && FileAt(entries, [".sha256"]) == Some(digits)
    && exists zip :: lib.sha(zip) == digits && lib.unzip(zip).Some? && Extraction(lib.unzip(zip).value).Some?
                     && HoldsTree(name, Extraction(lib.unzip(zip).value).value, entries)
  }

  lemma InstallHoldsArchive(lib: Skills.Library, name: string, digits: string, entries: Tree)
    requires Skills.IsInstall(lib, name, digits, entries)
    ensures HoldsArchive(lib, name, digits, entries)
  {
    hide Extraction;
    var zip, body :| Skills.ComesFrom(lib, name, digits, zip, body) && entries == body[".sha256" := File(digits)];
    var tree := Extraction(lib.unzip(zip).value).value;
    OneSegment(entries, ".sha256");
    forall q: seq<string> | q != [] && q[0] != ".sha256"
      ensures FileAt(entries, q) == FileAt(tree, if IsWrapped(name, tree) then [name] + q else q)
    {
      Skills.StrippedIff(name, tree, q);
    }
    assert HoldsTree(name, tree, entries);
  }

  predicate WithinLimits(limits: Limits, entries: seq<ZipEntry>) {
    && (limits.maxFiles > 0 ==> |entries| <= limits.maxFiles)
    && (limits.totalMax > 0 ==> TotalSize(entries) <= limits.totalMax)
    && (limits.entryMax > 0 ==>
         forall i :: 0 <= i < |entries| && !entries[i].isDir ==> |BodyOf(entries[i].stream)| <= limits.entryMax)
  }

  lemma WithinLimitsIff(limits: Limits, entries: seq<ZipEntry>)
    ensures Fits(limits, entries) <==> WithinLimits(limits, entries)
  {
    hide BodyOf, TotalSize;
    assert forall e: ZipEntry :: SizeOf(e) == if e.isDir then 0 else |BodyOf(e.stream)|;
  }

  /** The wrapper can be taken off and the marker put in: no entry of the wrapper has its name,
      and no directory stands where the marker goes. */
  ghost predicate TakesMarker(name: string, tree: Tree) {
    if IsWrapped(name, tree) then
      FileAt(tree, [name, name]).None? && !IsDirAt(tree, [name, name]) && !IsDirAt(tree, [name, ".sha256"])
    else !IsDirAt(tree, [".sha256"])
  }

  lemma TakesMarkerIff(name: string, tree: Tree)
    ensures TakesMarker(name, tree) <==>
      match Skills.Stripped(name, tree)
      case None => false
      case Some(body) => ".sha256" in body ==> body[".sha256"].File?
  {
    Skills.StrippedIff(name, tree, []);
    if inner :| tree == map[name := Folder(inner)] {
      assert IsWrapped(name, tree);
      OneSegment(inner, name);
      OneSegment(inner, ".sha256");
      assert [name, name][1..] == [name] && [name, ".sha256"][1..] == [".sha256"];
    } else {
      OneSegment(tree, ".sha256");
    }
  }

  /** A skill can be installed from a response exactly if this brings an archive of the digest
      asked for, whose entries are sound, within the limits and without clashes, and which takes
      the marker. */
  lemma SkillDeliversIff(installer: Skills.SkillInstaller, s: SkillSource, response: Response, digits: string)
    requires IsDigest(digits) && AsksFor(s.hash, digits)
    ensures installer.Delivers(s, response) <==>
      && Brings(installer.lib.sha, response, installer.zipMax, 0, digits)
      && match installer.lib.unzip(BodyOf(response.stream))
         case None => false
         case Some(entries) =>
           && WithinLimits(installer.limits, entries) && NoClashes(entries)
           && (forall i :: 0 <= i < |entries| ==> IsSoundEntry(entries[i]))
           && (Extraction(entries).Some? ==> TakesMarker(s.name, Extraction(entries).value))
  {
    hide Fits, WithinLimits, TakesMarker, IsSoundEntry, NoClashes, Skills.Stripped;
    HashIff(s.hash, digits);
    if response.Streamed? && installer.lib.unzip(BodyOf(response.stream)).Some? {
      var entries := installer.lib.unzip(BodyOf(response.stream)).value;
      WithinLimitsIff(installer.limits, entries);
      ExtractionIff(entries);
      if Extraction(entries).Some? {
        TakesMarkerIff(s.name, Extraction(entries).value);
      }
    }
  }

  // ---- What a container finds ------------------------------------------------------------------

  /** The path leads to a file of the tool's name, and of the digest that its hash asks for. */
  ghost predicate LeadsTo(c: Codec, dir: Dir, path: string, t: ToolSource) {
    && (exists ext :: ext in {".ts", ".mts", ".js", ".mjs"} && Clean(path) == "tools/" + t.name + ext)
    && Clean(path) in dir && AsksFor(t.hash, c.sha(dir[Clean(path)]))
  }

  ghost predicate ToolsServed(c: Codec, dir: Dir, paths: seq<string>, tools: seq<ToolSource>) {
    && |paths| == |tools|
    && (forall t :: t in tools ==> exists path :: path in paths && LeadsTo(c, dir, path, t))
    && (forall path :: path in paths ==> exists t :: t in tools && LeadsTo(c, dir, path, t))
  }

  ghost predicate SkillServed(lib: Skills.Library, slots: Slots, id: string, s: SkillSource) {
    && Slot(id, s.name) in slots
    && exists digits :: AsksFor(s.hash, digits) && HoldsArchive(lib, s.name, digits, slots[Slot(id, s.name)])
  }

  /** An entry of the document serves an agent: it leads to its prompt, to each of its tools and
      to nothing else, and to the directory where all its skills are. */
  ghost predicate Serves(c: Codec, lib: Skills.Library, dir: Dir, slots: Slots, e: Entry, a: Agent) {
    && e.id == e.name == a.name && Elems(e.subagents) == Elems(a.subagents)
    && (if a.systemPrompt == "" then e.systemPromptFile == e.systemPrompt == ""
        else Clean(e.systemPromptFile) in dir && dir[Clean(e.systemPromptFile)] == a.systemPrompt)
    && ToolsServed(c, dir, Elems(e.customTools), Elems(a.customTools))
    && Elems(e.extraUserSkillDirs) == (if Elems(a.skills) == [] then [] else ["/app/config/skills/" + a.name])
    && forall s :: s in Elems(a.skills) ==> SkillServed(lib, slots, a.name, s)
  }

  lemma HashAsks(hash: string, digits: string)
    requires IsSha256Hex(digits) && NormalizeSha256(hash) == digits
    ensures AsksFor(hash, digits)
  {
    BlankIff(hash);
    assert Blank(hash) ==> NormalizeSha256(hash) == "";
    HashIff(hash, digits);
  }

  lemma ToolIsLedTo(c: Codec, a: Agent, dir: Dir, p: Provision, j: nat)
    requires ToolLists.NamedAndInstallable(p.decl)
    requires ToolLists.AgentToolsInstalled(c.sha, a, dir, p.decl, PathsOf(p.paths, a.name))
    requires j < |Elems(a.customTools)|
    ensures |PathsOf(p.paths, a.name)| == |Elems(a.customTools)|
    ensures LeadsTo(c, dir, PathsOf(p.paths, a.name)[j], Elems(a.customTools)[j])
  {
    hide Clean, Ext, NormalizeSha256, AsksFor;
    var listed, t := PathsOf(p.paths, a.name), Elems(a.customTools)[j];
    assert t in Elems(a.customTools);
    ToolLists.ListedToolsAreThere(c.sha, a, dir, p.decl, listed, j);
    assert ToolLists.ResolvesTo(listed[j], Tools.ToolPath(p.decl[t.name]));
    ToolFileIsPath(p.decl[t.name]);
    DigestIff(c.sha(dir[Clean(listed[j])]));
    HashAsks(t.hash, c.sha(dir[Clean(listed[j])]));
  }

  lemma SamePathsServe(c: Codec, dir: Dir, listed: seq<string>, paths: seq<string>, tools: seq<ToolSource>)
    requires |listed| == |tools| && forall j :: 0 <= j < |tools| ==> LeadsTo(c, dir, listed[j], tools[j])
    requires multiset(paths) == multiset(listed)
    ensures ToolsServed(c, dir, paths, tools)
  {
    hide LeadsTo;
    assert |multiset(paths)| == |paths| && |multiset(listed)| == |listed|;
    forall path
      ensures path in paths <==> path in listed
    {
      assert path in multiset(paths) <==> path in multiset(listed);
    }
    forall t | t in tools
      ensures exists path :: path in paths && LeadsTo(c, dir, path, t)
    {
      var j :| 0 <= j < |tools| && tools[j] == t;
      assert listed[j] in paths;
    }
    forall path | path in paths
      ensures exists t :: t in tools && LeadsTo(c, dir, path, t)
    {
      var j :| 0 <= j < |listed| && listed[j] == path;
      assert tools[j] in tools;
    }
  }

  lemma EntryPromptServes(c: Codec, r: WriteRequest, dir: Dir, i: nat)
    requires Storable(r) && Holds(c, r, dir) && i < |r.agents|
    ensures var e, a := BuildDoc(c, r).agents[i], r.agents[i];
            if a.systemPrompt == "" then e.systemPromptFile == e.systemPrompt == ""
            else Clean(e.systemPromptFile) in dir && dir[Clean(e.systemPromptFile)] == a.systemPrompt
  {
    hide Clean, PromptRef, PromptPath;
    var a := r.agents[i];
    assert a in r.agents && PromptPlaced(c, a, dir);
    PromptRefsSpec(c, r.agents);
    PromptRefResolves(c, a);
  }

  lemma SkillIsServed(checks: Checks, req: CreateRequest, lib: Skills.Library, slots: Slots, i: nat, s: SkillSource)
    requires ValidRequest(checks, req) && Artifacts.SkillsInstalled(lib, slots, req.agents)
    requires i < |req.agents| && s in Elems(req.agents[i].skills)
    ensures SkillServed(lib, slots, req.agents[i].name, s)
  {
    hide AsksFor, NormalizeSha256, HoldsArchive, Skills.IsInstall;
    var a := req.agents[i];
    assert AgentOk(checks, a);
    assert Artifacts.AgentSkillsInstalled(lib, slots, a, |Elems(a.skills)|);
    var k :| 0 <= k < |Elems(a.skills)| && Elems(a.skills)[k] == s;
    assert Artifacts.SkillInstalled(lib, slots, a, s);
    HashAsks(s.hash, NormalizeSha256(s.hash));
    InstallHoldsArchive(lib, s.name, NormalizeSha256(s.hash), slots[Slot(a.name, s.name)]);
  }

  lemma EntryServes(c: Codec, lib: Skills.Library, checks: Checks, req: CreateRequest, dir: Dir, slots: Slots,
                    p: Provision, i: nat)
    requires ValidRequest(checks, req) && PreStart(c, lib, req, dir, slots, p) && i < |req.agents|
    ensures Serves(c, lib, dir, slots, Wire(BuildDoc(c, ToWrite(req, p.paths))).agents[i], req.agents[i])
  {
    hide LeadsTo, ToolsServed, SkillServed, Clean, ValidRequest, ReadsAsRequested, Wire, BuildDoc;
    var r, a := ToWrite(req, p.paths), req.agents[i];
    ValidIsStorable(checks, req, p.paths);
    EntryShape(c, r, i);
    WireLosesNothing(BuildDoc(c, r), i, "");
    DocumentShape(c, r);
    EntryPromptServes(c, r, dir, i);
    var e := BuildDoc(c, r).agents[i];
    forall j | 0 <= j < |Elems(a.customTools)|
      ensures LeadsTo(c, dir, PathsOf(p.paths, a.name)[j], Elems(a.customTools)[j])
    {
      ToolIsLedTo(c, a, dir, p, j);
    }
    SamePathsServe(c, dir, PathsOf(p.paths, a.name), Elems(e.customTools), Elems(a.customTools));
    forall s | s in Elems(a.skills)
      ensures SkillServed(lib, slots, a.name, s)
    {
      SkillIsServed(checks, req, lib, slots, i, s);
    }
  }

  lemma CommittedDocument(c: Codec, lib: Skills.Library, req: CreateRequest, dir: Dir, slots: Slots, p: Provision)
    requires c.Lawful() && PreStart(c, lib, req, dir, slots, p)
    ensures "agents.yaml" in dir
    ensures c.unmarshal(dir["agents.yaml"]) == Some(Wire(BuildDoc(c, ToWrite(req, p.paths))))
  {
  }

  /** When its container is tried, the document of a request names its agents in order and serves
      each of them. */
  lemma DeploymentServes(c: Codec, lib: Skills.Library, checks: Checks, req: CreateRequest, dir: Dir, slots: Slots,
                         p: Provision)
    requires c.Lawful() && ValidRequest(checks, req) && PreStart(c, lib, req, dir, slots, p)
    ensures "agents.yaml" in dir && c.unmarshal(dir["agents.yaml"]).Some?
    ensures var doc := c.unmarshal(dir["agents.yaml"]).value;
            && doc.rootId == req.rootId && |doc.agents| == |req.agents|
            && forall i :: 0 <= i < |req.agents| ==> Serves(c, lib, dir, slots, doc.agents[i], req.agents[i])
  {
    hide ValidRequest, PreStart, Serves, BuildDoc, Wire;
    var d := BuildDoc(c, ToWrite(req, p.paths));
    CommittedDocument(c, lib, req, dir, slots, p);
    WireLosesNothing(d, 0, "");
    DocumentShape(c, ToWrite(req, p.paths));
    forall i | 0 <= i < |req.agents|
      ensures Serves(c, lib, dir, slots, Wire(d).agents[i], req.agents[i])
    {
      EntryServes(c, lib, checks, req, dir, slots, p, i);
    }
  }

  /** So in every run of creations, whenever the creation of a container is tried. */
  lemma RunsAreServed(c: Codec, lib: Skills.Library, checks: Checks, run: seq<Attempt>)
    requires c.Lawful() && AttemptRun(c, lib, run) && run != [] && run[|run| - 1].started.Some?
    requires ValidRequest(checks, run[|run| - 1].request)
    ensures var last := run[|run| - 1];
            && "agents.yaml" in last.files && c.unmarshal(last.files["agents.yaml"]).Some?
            && var doc := c.unmarshal(last.files["agents.yaml"]).value;
               && doc.rootId == last.request.rootId && |doc.agents| == |last.request.agents|
               && forall i :: 0 <= i < |doc.agents| ==>
                    Serves(c, lib, last.files, last.skills, doc.agents[i], last.request.agents[i])
  {
    hide ValidRequest, PreStart, Serves, AttemptRun;
    var last := run[|run| - 1];
    RunsAreReady(c, lib, run);
    DeploymentServes(c, lib, checks, last.request, last.files, last.skills, last.started.value);
  }
}
