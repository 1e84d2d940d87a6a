/** Deployments written by earlier versions: no root marker, inline prompts, the old session
    cap key, and artifact declarations in a sidecar bound by digest. */
module Migration {
  import opened Common
  import opened Model
  import opened FileSystem
  import opened Document
  import opened RoundTrip
  import opened Store

  /** An entry that is named by its id, or not named at all. */
  predicate NamedById(e: Entry) {
    e.name == "" || e.name == e.id
  }

  /** A document of an earlier version whose entries are named by their ids. */
  predicate IsLegacy(doc: Doc) {
    && doc.rootId == "" && doc.manifest == map[]
    && (forall i :: 0 <= i < |doc.agents| ==> NamedById(doc.agents[i]) && '/' !in doc.agents[i].id)
    && (forall i, j :: 0 <= i < j < |doc.agents| ==> doc.agents[i].id != doc.agents[j].id)
  }

  predicate IsNamedAfter(a: Agent, e: Entry) {
    (e.name != "" ==> a.name == e.name) && (e.name == "" ==> a.name == e.id)
  }

  /** The agents of a graph carry the names of the document's entries, in order, and an entry
      without a name lends its id. */
  lemma GraphNames(c: Codec, key: string, dir: Dir)
    requires ReadGraph(c, key, dir).Ok?
    ensures var g, doc := ReadGraph(c, key, dir).value, c.unmarshal(dir[YAML]).value;
            && g.rootId == RootOf(key, doc) && HasEntry(doc.agents, g.rootId)
            && |g.agents| == |doc.agents|
            && forall i :: 0 <= i < |g.agents| ==> IsNamedAfter(g.agents[i], doc.agents[i])
  {
    var doc := c.unmarshal(dir[YAML]).value;
    ReadEntriesPointwise(dir, doc.agents);
    var agents := ReadEntries(dir, doc.agents).value;
    forall i | 0 <= i < |agents|
      ensures IsNamedAfter(agents[i], doc.agents[i])
    {
      assert ReadEntry(dir, doc.agents[i]) == Ok(agents[i]);
    }
  }

  predicate StandsFor(e: Entry, id: string) {
    (e.name == id && id != "") || (e.name == "" && e.id == id)
  }

  /** A graph that was read can be written back exactly when some entry is named as the root, or
      has its id and no name: reading finds the root by entry id, writing by agent name. */
  lemma WriteBackAcceptedIff(c: Codec, key: string, dir: Dir)
    requires ReadGraph(c, key, dir).Ok?
    ensures var g, doc := ReadGraph(c, key, dir).value, c.unmarshal(dir[YAML]).value;
            HasId(g.agents, g.rootId) <==> exists i :: 0 <= i < |doc.agents| && StandsFor(doc.agents[i], g.rootId)
  {
    GraphNames(c, key, dir);
    var g, doc := ReadGraph(c, key, dir).value, c.unmarshal(dir[YAML]).value;
    if i :| 0 <= i < |doc.agents| && StandsFor(doc.agents[i], g.rootId) {
      assert g.agents[i] in g.agents;
    }
  }

  lemma LegacyGraphIsStorable(c: Codec, r: WriteRequest, dir: Dir)
    requires ReadGraph(c, r.key, dir) == Ok(Graph(r.rootId, r.agents)) && r.key != ""
    requires IsLegacy(c.unmarshal(dir[YAML]).value)
    ensures Storable(r) && r.rootId == r.key
  {
    GraphNames(c, r.key, dir);
    var doc := c.unmarshal(dir[YAML]).value;
    var i :| 0 <= i < |doc.agents| && doc.agents[i].id == r.rootId;
    assert r.agents[i] in r.agents;
  }

  /** A sidecar bound to a legacy document is harmless for the document that replaces it, if
      the digest tells the two apart. */
  lemma BoundSidecarIsHarmless(c: Codec, r: WriteRequest, before: Dir)
    requires c.Lawful() && r.key != ""
    requires ReadGraph(c, r.key, before) == Ok(Graph(r.rootId, r.agents))
    requires IsLegacy(c.unmarshal(before[YAML]).value)
    requires SIDECAR in before ==> c.parseSidecar(before[SIDECAR]).value.yamlDigest == c.sha(before[YAML])
    requires c.sha(before[YAML]) == c.sha(c.marshal(BuildDoc(c, r))) ==> before[YAML] == c.marshal(BuildDoc(c, r))
    ensures SidecarHarmless(c, r, before)
  {
    LegacyGraphIsStorable(c, r, before);
    assert c.unmarshal(c.marshal(BuildDoc(c, r))) == Some(Wire(BuildDoc(c, r)));
    assert Wire(BuildDoc(c, r)).rootId != "";
  }

  /** Migration: a legacy deployment that is read, rewritten and read again shows the same
      graph up to normal form, whether its sidecar was dropped or not. */
  lemma MigrationPreservesMeaning(c: Codec, r: WriteRequest, before: Dir, after: Dir)
    requires c.Lawful() && r.key != ""
    requires ReadGraph(c, r.key, before) == Ok(Graph(r.rootId, r.agents))
    requires IsLegacy(c.unmarshal(before[YAML]).value)
    requires SidecarHarmless(c, r, before)
    requires CallEffect(c, r, before, after, true)
    ensures ReadGraph(c, r.key, after) == Ok(Graph(r.rootId, Norm(r.rootId, r.agents)))
  {
    LegacyGraphIsStorable(c, r, before);
    CommitHolds(c, r, before, after);
    HarmlessIsQuiet(c, r, before, after);
    WriteThenRead(c, r, after);
  }

  /** What a legacy deployment stored in its old places survives the migration: inline prompts,
      the root's session cap under its old key, and the declarations of its sidecar. */
  lemma LegacyContentSurvives(c: Codec, r: WriteRequest, before: Dir, after: Dir, i: nat)
    requires c.Lawful() && r.key != ""
    requires ReadGraph(c, r.key, before) == Ok(Graph(r.rootId, r.agents))
    requires IsLegacy(c.unmarshal(before[YAML]).value)
    requires SIDECAR in before && c.parseSidecar(before[SIDECAR]).Some?
             && c.parseSidecar(before[SIDECAR]).value.yamlDigest == c.sha(before[YAML])
    requires ReadGraph(c, r.key, after) == Ok(Graph(r.rootId, Norm(r.rootId, r.agents)))
    requires i < |c.unmarshal(before[YAML]).value.agents|
    ensures i < |ReadGraph(c, r.key, after).value.agents|
    ensures var e, a := c.unmarshal(before[YAML]).value.agents[i], ReadGraph(c, r.key, after).value.agents[i];
            var declared := ArtifactsOf(c.parseSidecar(before[SIDECAR]).value.artifacts, e.id);
            && a.name == e.id
            && (e.systemPromptFile == "" ==> a.systemPrompt == e.systemPrompt)
            && (e.id == r.rootId && e.maxSessionQueries.None? ==> a.maxSessionQueries == e.legacyMaxSessionTurns)
            && Elems(a.skills) == Elems(declared.skills) && Elems(a.customTools) == Elems(declared.customTools)
  {
    GraphNames(c, r.key, before);
    var doc, m := c.unmarshal(before[YAML]).value, c.parseSidecar(before[SIDECAR]).value;
    ReadEntriesPointwise(before, doc.agents);
    var agents := ReadEntries(before, doc.agents).value;
    assert ReadEntry(before, doc.agents[i]) == Ok(agents[i]);
    assert r.agents == Merge(m.artifacts, agents);
    assert ReadGraph(c, r.key, after).value.agents[i] == NormAgent(r.rootId, r.agents[i]);
  }

  /** A sidecar bound to another generation contributes nothing. */
  lemma ForeignSidecarIsIgnored(c: Codec, key: string, dir: Dir, m: Sidecar)
    requires YAML in dir && SIDECAR in dir && c.parseSidecar(dir[SIDECAR]) == Some(m)
    requires m.yamlDigest == "" || m.yamlDigest != c.sha(dir[YAML])
    ensures ReadGraph(c, key, dir) == ReadGraph(c, key, dir - {SIDECAR})
  {
    FixedNamesAreApart();
    if c.unmarshal(dir[YAML]).Some? {
      SamePromptsSameEntries(dir, dir - {SIDECAR}, c.unmarshal(dir[YAML]).value.agents);
    }
  }

  /** A bound sidecar contributes its declarations to an agent that has them there. */
  lemma BoundSidecarCounts(c: Codec, key: string, dir: Dir, m: Sidecar, i: nat)
    requires ReadGraph(c, key, dir).Ok? && SIDECAR in dir && c.parseSidecar(dir[SIDECAR]) == Some(m)
    requires m.yamlDigest == c.sha(dir[YAML]) && c.unmarshal(dir[YAML]).value.manifest == map[]
    requires var g := ReadGraph(c, key, dir).value; i < |g.agents|
    ensures var a := ReadGraph(c, key, dir).value.agents[i];
            a.skills == ArtifactsOf(m.artifacts, a.name).skills
              && a.customTools == ArtifactsOf(m.artifacts, a.name).customTools
  {
    var doc := c.unmarshal(dir[YAML]).value;
    ReadEntriesPointwise(dir, doc.agents);
    var agents := ReadEntries(dir, doc.agents).value;
    assert ReadEntry(dir, doc.agents[i]) == Ok(agents[i]);
    assert ReadGraph(c, key, dir).value.agents == Merge(m.artifacts, agents);
  }
}
