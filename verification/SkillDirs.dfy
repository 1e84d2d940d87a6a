/** Where the skill directories of a graph lie, and what their installation can reach. */
module SkillDirs {
  import opened Common
  import opened Paths
  import opened Model
  import opened FileSystem
  import opened Document

  /** What validation guarantees for the skills of a graph. */
  ghost predicate SkillsValid(checks: Checks, agents: seq<Agent>) {
    && SkillsShared(agents)
    && forall a :: a in agents ==> MatchesNamePattern(a.name) && forall s :: s in Elems(a.skills) ==> SkillOk(checks, s)
  }

  /** Every agent that declares skills has a skill directory of its own: a check on the names. */
  predicate SkillDirsApart(agents: seq<Agent>) {
    forall a :: a in agents && Elems(a.skills) != [] ==> IsSegment(a.name)
  }

  /** No skill directory is the document: the check on the names that the phases rest on. */
  predicate DocumentApart(agents: seq<Agent>) {
    forall a, s :: a in agents && s in Elems(a.skills) ==> !(a.name == ".." && s.name == YAML)
  }

  /** The file lies at or below the directory of a declared skill. */
  predicate UnderSkills(agents: seq<Agent>, path: string) {
    exists a, s :: a in agents && s in Elems(a.skills) && FileUnder(PlaceOf(Slot(a.name, s.name)), path)
  }

  /** Only files below the directories of declared skills may have changed. */
  ghost predicate SkillsOnly(agents: seq<Agent>, before: Dir, after: Dir) {
    forall p :: !UnderSkills(agents, p) ==> SameAt(before, after, p)
  }

  lemma SkillsOnlyNothing(agents: seq<Agent>, dir: Dir)
    ensures SkillsOnly(agents, dir, dir)
  {
  }

  lemma SkillsOnlyStep(agents: seq<Agent>, a: Agent, s: SkillSource, start: Dir, before: Dir, after: Dir)
    requires SkillsOnly(agents, start, before) && a in agents && s in Elems(a.skills)
    requires FilesKept(before, after, PlaceOf(Slot(a.name, s.name)))
    ensures SkillsOnly(agents, start, after)
  {
    forall p | !UnderSkills(agents, p)
      ensures SameAt(start, after, p)
    {
      assert SameAt(start, before, p) && SameAt(before, after, p);
    }
  }

  lemma SkillsOnlyTransitive(agents: seq<Agent>, d0: Dir, d1: Dir, d2: Dir)
    requires SkillsOnly(agents, d0, d1) && SkillsOnly(agents, d1, d2)
    ensures SkillsOnly(agents, d0, d2)
  {
    forall p | !UnderSkills(agents, p)
      ensures SameAt(d0, d2, p)
    {
      assert SameAt(d0, d1, p) && SameAt(d1, d2, p);
    }
  }

  /** Nothing but the skill itself lies at or below its directory: no skill directory of
      another agent, and no file outside `skills/`. */
  ghost predicate HoldsNothingElse(slot: Slot) {
    && (forall other :: Proper(other) && other != slot ==> !SlotUnder(PlaceOf(slot), other))
    && (forall p :: FileUnder(PlaceOf(slot), p) ==> "skills/" <= p)
  }

  lemma FileUnderFirst(place: seq<string>, path: string)
    requires place != [] && FileUnder(place, path)
    ensures Split(path)[0] == place[0]
    ensures |place| >= 2 ==> |Split(path)| >= 2
  {
  }

  lemma {:induction false} FirstSegment(head: string, path: string)
    requires '/' !in head && Split(path)[0] == head && |Split(path)| >= 2
    ensures head + "/" <= path
  {
    if path[0] == '/' {
      assert head == "";
    } else {
      assert head == [path[0]] + Split(path[1..])[0];
      FirstSegment(head[1..], path[1..]);
      assert path == [path[0]] + path[1..];
    }
  }

  /** A valid agent's skill directory is its own if and only if the agent's name is a directory
      entry: the directories of "." hold those of other agents, and those of ".." anything in
      the agents directory. */
  lemma SkillDirIsOwnIff(slot: Slot)
    requires '/' !in slot.agent && slot.agent != "" && IsSegment(slot.skill)
    ensures HoldsNothingElse(slot) <==> IsSegment(slot.agent)
  {
    PlaceOfSlot(slot);
    if IsSegment(slot.agent) {
      forall other | Proper(other) && other != slot
        ensures !SlotUnder(PlaceOf(slot), other)
      {
        ProperSlotsAreApart(slot, other);
      }
      forall p | FileUnder(PlaceOf(slot), p)
        ensures "skills/" <= p
      {
        FileUnderFirst(PlaceOf(slot), p);
        FirstSegment("skills", p);
      }
    } else if slot.agent == "." {
      var other := Slot(slot.skill, "x");
      PlaceOfSlot(other);
      assert Proper(other) && SlotUnder(PlaceOf(slot), other);
    } else {
      SplitPlain(slot.skill);
      assert FileUnder(PlaceOf(slot), slot.skill);
      assert |slot.skill| > 6 ==> slot.skill[6] in slot.skill;
      assert "skills/"[6] == '/';
    }
  }

  /** What the removal of every declared skill directory leaves of the files: installs that
      miss their caches and then fail do just that. */
  function Swept(dir: Dir, agents: seq<Agent>): Dir {
    map p | p in dir && !UnderSkills(agents, p) :: dir[p]
  }

  lemma DocumentUnder(slot: Slot)
    requires '/' !in slot.agent && slot.agent != "" && IsSegment(slot.skill)
    ensures FileUnder(PlaceOf(slot), YAML) <==> slot.agent == ".." && slot.skill == YAML
  {
    PlaceOfSlot(slot);
    SplitPlain(YAML);
  }

  lemma SweptKeepsIff(agents: seq<Agent>, path: string)
    ensures (forall dir: Dir :: path in dir ==> path in Swept(dir, agents)) <==> !UnderSkills(agents, path)
  {
    var only: Dir := map[path := ""];
    assert path in Swept(only, agents) <==> !UnderSkills(agents, path);
  }

  lemma SkillNameIsSegment(checks: Checks, s: SkillSource)
    requires SkillOk(checks, s)
    ensures IsSegment(s.name)
  {
    NameHasNoSlash(s.name);
  }

  /** The document of a valid graph is out of reach of its skill installs if and only if no
      agent ".." declares a skill "agents.yaml". */
  lemma DocumentOutOfReachIff(checks: Checks, agents: seq<Agent>)
    requires SkillsValid(checks, agents)
    ensures !UnderSkills(agents, YAML) <==> DocumentApart(agents)
    ensures (forall dir: Dir :: YAML in dir ==> YAML in Swept(dir, agents)) <==> DocumentApart(agents)
  {
    forall a, s | a in agents && s in Elems(a.skills)
      ensures FileUnder(PlaceOf(Slot(a.name, s.name)), YAML) <==> a.name == ".." && s.name == YAML
    {
      NameHasNoSlash(a.name);
      SkillNameIsSegment(checks, s);
      DocumentUnder(Slot(a.name, s.name));
    }
    SweptKeepsIff(agents, YAML);
  }

  /** Where all agents have directories of their own, skills touch no file outside `skills/`. */
  lemma ApartSkillsStayBelow(checks: Checks, agents: seq<Agent>, path: string)
    requires SkillsValid(checks, agents) && SkillDirsApart(agents) && UnderSkills(agents, path)
    ensures "skills/" <= path
  {
    var a, s :| a in agents && s in Elems(a.skills) && FileUnder(PlaceOf(Slot(a.name, s.name)), path);
    SkillNameIsSegment(checks, s);
    SkillDirIsOwnIff(Slot(a.name, s.name));
  }
}
