/** What the parts of an operation may do, as steps of the state machine of their key. */
module Steps {
  import opened Common
  import opened Model
  import opened FileSystem
  import opened Document
  import opened Docker
  import opened Lifecycle
  import Naming
  import Paths
  import SkillDirs
  import Text

  /** A container in front of the list is the only change for its key. */
  lemma OwnContainerAdded(before: seq<Container>, after: seq<Container>, key: string)
    requires after == before || (|after| > 0 && after[1..] == before && after[0].key == key)
    ensures OnlyContainersOf(before, after, key)
    ensures after == before || OfKey(after, key) == [after[0]] + OfKey(before, key)
  {
    if after != before {
      assert after == [after[0]] + before;
    }
  }

  /** The old container is gone, if there was one; then files and skills of the key may change
      and a container may be added over a document. */
  lemma RebuildIsStep(w: World, removed: seq<Container>, w': World, key: string, force: bool, apart: bool)
    requires OnlyContainersOf(w.containers, removed, key)
    requires (removed == w.containers && OfKey(removed, key) == [])
             || (force && |OfKey(removed, key)| == |OfKey(w.containers, key)| - 1)
    requires w'.containers == removed
             || (|w'.containers| > 0 && w'.containers[1..] == removed && w'.containers[0].key == key
                 && (apart ==> HasDocument(w', key)))
    requires OnlyKey(w.files, w'.files, key) && OnlyKey(w.skills, w'.skills, key)
    requires apart && HasDocument(w, key) ==> HasDocument(w', key)
    ensures Step(Create(force, apart), key, w, w')
  {
    OwnContainerAdded(removed, w'.containers, key);
  }

  /** Only the container of the key was lost. */
  lemma RemovalIsStep(w: World, containers: seq<Container>, key: string, apart: bool)
    requires OnlyContainersOf(w.containers, containers, key) && OfKey(w.containers, key) != []
    requires |OfKey(w.containers, key)| - 1 <= |OfKey(containers, key)| <= |OfKey(w.containers, key)|
    ensures Step(Create(true, apart), key, w, w.(containers := containers))
  {
  }

  /** The container of the key may be lost; the files change only in a purge after that. */
  lemma DeletionIsStep(w: World, w': World, key: string, purge: bool)
    requires OnlyContainersOf(w.containers, w'.containers, key)
    requires |OfKey(w'.containers, key)| <= |OfKey(w.containers, key)| <= |OfKey(w'.containers, key)| + 1
    requires OnlyKey(w.files, w'.files, key) && OnlyKey(w.skills, w'.skills, key)
    requires (w'.files == w.files && w'.skills == w.skills)
             || (purge && (OfKey(w.containers, key) == [] || |OfKey(w'.containers, key)| < |OfKey(w.containers, key)|))
    requires HasDocument(w', key) ==> HasDocument(w, key)
    ensures Step(Delete(purge), key, w, w')
  {
  }

  // ---- Skills in the place of the document --------------------------------------------------------

  function WithContainer(w: World, c: Container): World {
    w.(containers := [c] + w.containers)
  }

  /** A creation over an archived deployment stays within the machine as long as the document
      stays; without it, a container has no document. */
  lemma ArchivedPhases(w: World, w': World, key: string, force: bool, c: Container)
    requires PhaseOf(w, key) == Archived && w'.containers == w.containers && c.key == key
    requires OnlyKey(w.files, w'.files, key) && OnlyKey(w.skills, w'.skills, key)
    ensures PhaseOf(w', key) == if HasDocument(w', key) then Archived else Absent
    ensures PhaseOf(WithContainer(w', c), key) == if HasDocument(w', key) then Active else Adrift
    ensures Step(Create(force, true), key, w, w') <==> HasDocument(w', key)
  {
    assert Healthy(w, key);
    SelectConcat([c], w.containers, key, true);
  }

  lemma DocumentAfterInstall(before: Dir, after: Dir, slot: Slot)
    requires YAML in before && FilesKept(before, after, PlaceOf(slot)) && NoFileAt(after, PlaceOf(slot))
    requires '/' !in slot.agent && slot.agent != "" && Paths.IsSegment(slot.skill)
    ensures YAML in after <==> !(slot.agent == ".." && slot.skill == YAML)
  {
    SkillDirs.DocumentUnder(slot);
    if slot.agent == ".." && slot.skill == YAML {
      PlaceOfSlot(slot);
      Paths.SplitPlain(YAML);
    } else {
      assert SameAt(before, after, YAML);
    }
  }

  /** The installation of a skill that is not served from its cache leaves the files elsewhere
      alone and no file in the place of its directory, whether it succeeds or fails without
      faults. For an archived deployment that stays within the machine if and only if the skill
      is not "agents.yaml" of an agent "..", whose directory is the document just committed;
      the container started after such a success has no document. */
  lemma SkillInstallIsStepIff(w: World, w': World, key: string, slot: Slot, force: bool, c: Container)
    requires PhaseOf(w, key) == Archived && w'.containers == w.containers && c.key == key
    requires OnlyKey(w.files, w'.files, key) && OnlyKey(w.skills, w'.skills, key)
    requires FilesKept(FilesOf(w.files, key), FilesOf(w'.files, key), PlaceOf(slot))
    requires NoFileAt(FilesOf(w'.files, key), PlaceOf(slot))
    requires '/' !in slot.agent && slot.agent != "" && Paths.IsSegment(slot.skill)
    ensures Step(Create(force, true), key, w, w') <==> !(slot.agent == ".." && slot.skill == YAML)
    ensures slot.agent == ".." && slot.skill == YAML ==>
      PhaseOf(w', key) == Absent && PhaseOf(WithContainer(w', c), key) == Adrift
  {
    SkillDirs.DocumentUnder(slot);
    DocumentAfterInstall(FilesOf(w.files, key), FilesOf(w'.files, key), slot);
    ArchivedPhases(w, w', key, force, c);
  }

  lemma LoneAgentHasNoCycle(a: Agent)
    requires Elems(a.subagents) == []
    ensures !HasCycle(References([a]))
  {
    assert [a][..0] == [] && References([]) == map[];
    var refs := References([a]);
    forall walk
      ensures !IsCycle(refs, walk)
    {
      assert |walk| > 1 ==> walk[0 + 1] == walk[1];
    }
  }

  lemma DotDotAgentIsOk(checks: Checks, a: Agent, s: SkillSource)
    requires a.name == ".." && s.name == YAML && checks.node(a) && checks.url(s.url) && HashOk(s.hash)
    requires Elems(a.skills) == [s] && Elems(a.customTools) == []
    ensures AgentOk(checks, a)
  {
    Text.TrimSpaceKeeps(YAML);
    Text.TrimSpaceKeeps("..");
  }

  /** Such a request is accepted: one root agent ".." that declares a skill "agents.yaml". */
  lemma DotDotRequestIsAccepted(checks: Checks, r: CreateRequest, a: Agent, s: SkillSource)
    requires r.agents == [a] && a.name == r.rootId == ".." && s.name == YAML
    requires Elems(a.skills) == [s] && Elems(a.settingSources) == ["user"]
    requires Elems(a.customTools) == [] && Elems(a.subagents) == [] && RootComplete(a)
    requires MatchesNamePattern(r.key) && Naming.IsSanitized(r.key)
    requires checks.node(a) && checks.url(s.url) && HashOk(s.hash) && checks.settings(r)
    ensures ValidRequest(checks, r) && !SkillDirs.DocumentApart(r.agents)
  {
    DotDotAgentIsOk(checks, a, s);
    LoneAgentHasNoCycle(a);
    assert r.agents[0] == a;
  }
}
