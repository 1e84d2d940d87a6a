/** Deployments as seen from outside: the state each key is in, what an operation may change,
    and what Get and List report. */
module Lifecycle {
  import opened Common
  import opened Naming
  import opened Paths
  import opened FileSystem
  import opened Document
  import opened Docker
  import Order

  datatype World = World(containers: seq<Container>, files: map<string, Dir>, skills: map<string, Slots>)

  /** A container without a document (Adrift) never occurs in a run. */
  datatype Phase = Absent | Archived | Active | Adrift

  predicate HasDocument(w: World, key: string) {
    YAML in FilesOf(w.files, key)
  }

  function PhaseOf(w: World, key: string): Phase {
    if OfKey(w.containers, key) == [] then (if HasDocument(w, key) then Archived else Absent)
    else if HasDocument(w, key) then Active else Adrift
  }

  /** At most one container, and never one without a document. */
  predicate Healthy(w: World, key: string) {
    |OfKey(w.containers, key)| <= 1 && !PhaseOf(w, key).Adrift?
  }

  /** `apart` says that no skill directory of the request is the document of the deployment. */
  datatype Operation = Create(force: bool, apart: bool) | Stop | Restart | Delete(purge: bool)

  /** The three-state machine, with every Docker and disk failure. */
  predicate Allowed(op: Operation, p: Phase, q: Phase) {
    match (op, p)
    case (Create(_, _), Absent) => q != Adrift
    case (Create(_, _), Archived) => q == Archived || q == Active
    case (Create(force, _), Active) => q == Active || (force && q == Archived)
    case (Delete(_), Absent) => q == Absent
    case (Delete(purge), Archived) => q == Archived || (purge && q == Absent)
    case (Delete(purge), Active) => q == Active || q == Archived || (purge && q == Absent)
    case (Stop, _) => q == p
    case (Restart, _) => q == p
    case (_, Adrift) => true
  }

  /** What an operation on a key does: nothing to other keys, and never a second container for
      its own; only a creation brings an absent deployment to life. The phase moves as the
      machine allows, unless a skill of a created deployment takes the place of its document.
      Creating without force leaves an active deployment alone. */
  predicate Step(op: Operation, key: string, w: World, w': World) {
    && OnlyContainersOf(w.containers, w'.containers, key)
    && OnlyKey(w.files, w'.files, key) && OnlyKey(w.skills, w'.skills, key)
    && (|OfKey(w.containers, key)| <= 1 ==> |OfKey(w'.containers, key)| <= 1)
    && (!op.Create? && PhaseOf(w, key) == Absent ==> PhaseOf(w', key) == Absent)
    && (Healthy(w, key) && (op.Create? ==> op.apart) ==>
          Healthy(w', key) && Allowed(op, PhaseOf(w, key), PhaseOf(w', key)))
    && (op.Create? && !op.force && OfKey(w.containers, key) != [] ==> w' == w)
  }

  predicate GoodKey(key: string) {
    IsSanitized(key) && key != ""
  }

  // ---- Runs ------------------------------------------------------------------------------------

  datatype Event = Event(op: Operation, key: string, after: World)

  function FinalWorld(start: World, run: seq<Event>): World {
    if run == [] then start else run[|run| - 1].after
  }

  /** Which key an operation can be about: Create demands a non-empty sanitized one, the others
      sanitize a name, which may leave nothing; a purge of nothing is dealt with below. */
  predicate Addressable(op: Operation, key: string) {
    IsSanitized(key) && (key == "" ==> op.Stop? || op.Restart? || op == Delete(false))
  }

  /** A serial run of operations. */
  predicate IsRun(start: World, run: seq<Event>) {
    run != [] ==>
      var last, rest := run[|run| - 1], run[..|run| - 1];
      && IsRun(start, rest) && Addressable(last.op, last.key)
      && Step(last.op, last.key, FinalWorld(start, rest), last.after)
  }

  const EMPTY := World([], map[], map[])

  /** At most one container for each key, and no trace of a key that is not sanitized. */
  predicate OwnKeyInOrder(w: World, key: string) {
    |OfKey(w.containers, key)| <= 1 && (PhaseOf(w, key) != Absent ==> GoodKey(key))
  }

  /** No creation of this key has a skill in the place of the document. */
  predicate DocumentsApart(run: seq<Event>, key: string) {
    forall i :: 0 <= i < |run| && run[i].key == key && run[i].op.Create? ==> run[i].op.apart
  }

  lemma {:induction false} OtherContainersStay(cs: seq<Container>, key: string, other: string)
    requires other != key
    ensures OfKey(WithoutKey(cs, key), other) == OfKey(cs, other)
  {
    if cs != [] {
      OtherContainersStay(cs[1..], key, other);
      var head := if (cs[0].key == key) == false then [cs[0]] else [];
      SelectConcat(head, WithoutKey(cs[1..], key), other, true);
    }
  }

  lemma StepLeavesOthers(op: Operation, key: string, w: World, w': World, other: string)
    requires Step(op, key, w, w') && other != key
    ensures OfKey(w'.containers, other) == OfKey(w.containers, other)
    ensures FilesOf(w'.files, other) == FilesOf(w.files, other) && SlotsOf(w'.skills, other) == SlotsOf(w.skills, other)
    ensures PhaseOf(w', other) == PhaseOf(w, other) && (Healthy(w, other) ==> Healthy(w', other))
  {
    OtherContainersStay(w.containers, key, other);
    OtherContainersStay(w'.containers, key, other);
    assert other in w.files <==> other in w.files - {key};
    assert other in w'.files <==> other in w'.files - {key};
    assert other in w.skills <==> other in w.skills - {key};
    assert other in w'.skills <==> other in w'.skills - {key};
  }

  /** Singleton: in every state of every run each key has at most one container, and every key
      in use is sanitized. */
  lemma {:induction false} RunsKeepSingletons(run: seq<Event>, key: string)
    requires IsRun(EMPTY, run)
    ensures OwnKeyInOrder(FinalWorld(EMPTY, run), key)
  {
    if run != [] {
      var last, rest := run[|run| - 1], run[..|run| - 1];
      RunsKeepSingletons(rest, key);
      if key != last.key {
        StepLeavesOthers(last.op, last.key, FinalWorld(EMPTY, rest), last.after, key);
      }
    }
  }

  /** Where no creation of a key has a skill in the place of its document, whatever happens to
      other keys, its container is there only with the document. */
  lemma {:induction false} RunsKeepHealth(run: seq<Event>, key: string)
    requires IsRun(EMPTY, run) && DocumentsApart(run, key)
    ensures Healthy(FinalWorld(EMPTY, run), key)
  {
    if run != [] {
      var last, rest := run[|run| - 1], run[..|run| - 1];
      RunsKeepHealth(rest, key);
      if key != last.key {
        StepLeavesOthers(last.op, last.key, FinalWorld(EMPTY, rest), last.after, key);
      }
    }
  }

  predicate HasContainer(w: World, key: string) {
    exists c :: c in w.containers && c.key == key
  }

  lemma ContainersOf(w: World, key: string)
    ensures HasContainer(w, key) <==> OfKey(w.containers, key) != []
  {
    SelectMembers(w.containers, key, true);
    if OfKey(w.containers, key) != [] {
      assert OfKey(w.containers, key)[0] in OfKey(w.containers, key);
    }
  }

  /** The machine, on documents and containers: a container needs a document; creating loses no
      document, and a container only by force; deleting makes neither, and a document goes only
      in a purge; stopping and restarting change neither. */
  lemma AllowedIff(op: Operation, w: World, w': World, key: string)
    requires HasContainer(w, key) ==> "agents.yaml" in FilesOf(w.files, key)
    ensures var was, kept := "agents.yaml" in FilesOf(w.files, key), "agents.yaml" in FilesOf(w'.files, key);
            var had, has := HasContainer(w, key), HasContainer(w', key);
            PhaseOf(w', key) != Adrift && Allowed(op, PhaseOf(w, key), PhaseOf(w', key)) <==>
              && (has ==> kept)
              && match op
                 case Create(force, _) => (was ==> kept) && (had ==> has || force)
                 case Delete(purge) => (has ==> had) && (kept ==> was) && (was ==> kept || purge)
                 case _ => kept == was && has == had
  {
    ContainersOf(w, key);
    ContainersOf(w', key);
  }

  /** The operations on a key are then the steps of its own machine; those on other keys leave
      its phase, its containers and its files alone in every run. */
  lemma RunsFollowTheMachine(run: seq<Event>, key: string)
    requires IsRun(EMPTY, run) && run != []
    ensures var last, before := run[|run| - 1], FinalWorld(EMPTY, run[..|run| - 1]);
            && (key == last.key && DocumentsApart(run, key) ==>
                  Allowed(last.op, PhaseOf(before, key), PhaseOf(last.after, key)))
            && (key == last.key && last.op.Create? && !last.op.force && HasContainer(before, key) ==>
                  last.after == before)
            && (key != last.key ==>
                  && PhaseOf(last.after, key) == PhaseOf(before, key)
                  && OfKey(last.after.containers, key) == OfKey(before.containers, key)
                  && FilesOf(last.after.files, key) == FilesOf(before.files, key)
                  && SlotsOf(last.after.skills, key) == SlotsOf(before.skills, key))
  {
    var last, rest := run[|run| - 1], run[..|run| - 1];
    ContainersOf(FinalWorld(EMPTY, rest), key);
    if key != last.key {
      StepLeavesOthers(last.op, last.key, FinalWorld(EMPTY, rest), last.after, key);
    } else if DocumentsApart(run, key) {
      RunsKeepHealth(rest, key);
    }
  }

  // ---- Purging -----------------------------------------------------------------------------------

  lemma {:induction false} ReplacedHasAlnum(s: string, inRun: bool)
    ensures (exists i :: 0 <= i < |s| && IsAlnum(s[i])) <==>
      (exists i :: 0 <= i < |ReplaceInvalid(s, inRun)| && IsAlnum(ReplaceInvalid(s, inRun)[i]))
  {
    if s != "" {
      var rest := ReplaceInvalid(s[1..], !IsAlnum(s[0]));
      ReplacedHasAlnum(s[1..], !IsAlnum(s[0]));
      if i :| 0 <= i < |s| && IsAlnum(s[i]) {
        if i > 0 { assert IsAlnum(s[1..][i - 1]); }
        if !IsAlnum(s[0]) {
          var k :| 0 <= k < |rest| && IsAlnum(rest[k]);
          assert ReplaceInvalid(s, inRun) == rest || ReplaceInvalid(s, inRun)[k + 1] == rest[k];
        } else {
          assert IsAlnum(ReplaceInvalid(s, inRun)[0]);
        }
      } else {
        assert forall k :: 0 <= k < |s[1..]| ==> s[1..][k] == s[k + 1];
        assert !IsAlnum(s[0]);
      }
    }
  }

  lemma HyphensStandAlone(s: string)
    requires SingleHyphens(s) && |s| >= 2
    ensures IsAlnum(s[0]) || IsAlnum(s[1])
  {
    assert s[0] == '-' ==> s[0 + 1] != '-';
  }

  lemma {:induction false} TrimLeftKeeps(s: string, i: nat)
    requires i < |s| && IsAlnum(s[i])
    ensures exists j :: 0 <= j < |TrimLeft(s)| && IsAlnum(TrimLeft(s)[j])
  {
    if s[0] == '-' {
      TrimLeftKeeps(s[1..], i - 1);
      assert TrimLeft(s) == TrimLeft(s[1..]);
    } else {
      assert TrimLeft(s)[i] == s[i];
    }
  }

  lemma {:induction false} TrimRightKeeps(s: string, i: nat)
    requires i < |s| && IsAlnum(s[i])
    ensures TrimRight(s) != ""
  {
    if s[|s| - 1] == '-' {
      TrimRightKeeps(s[..|s| - 1], i);
    }
  }

  lemma TrimKeepsAlnum(s: string, i: nat)
    requires i < |s| && IsAlnum(s[i])
    ensures TrimRight(TrimLeft(s)) != ""
  {
    TrimLeftKeeps(s, i);
    var t := TrimLeft(s);
    var j :| 0 <= j < |t| && IsAlnum(t[j]);
    TrimRightKeeps(t, j);
  }

  /** A name sanitizes to a key iff it contains a letter or a digit. */
  lemma SanitizesToKeyIff(name: string)
    ensures SanitizeName(name) != "" <==> exists i :: 0 <= i < |name| && IsAlnum(name[i])
  {
    var r := ReplaceInvalid(name, false);
    ReplacedHasAlnum(name, false);
    ReplaceLeavesSingleHyphens(name, false);
    if i :| 0 <= i < |r| && IsAlnum(r[i]) {
      TrimKeepsAlnum(r, i);
    } else {
      if |r| >= 2 {
        HyphensStandAlone(r);
      }
      assert |r| >= 1 ==> r[0] == '-';
      assert TrimLeft(r) == "";
    }
  }

  lemma PurgeIsLocal<T>(trees: map<string, T>, dataDir: Root, key: string)
    requires dataDir != "" && IsSegment(key)
    ensures OnlyKey(trees, Purged(trees, dataDir, key), key)
  {
    PurgedTrees(trees, dataDir, key);
    assert (trees - {key}) - {key} == trees - {key};
  }

  /** A purge by name leaves the files of every other deployment alone, on every disk, exactly
      when the name contains a letter or a digit. */
  lemma PurgeIsLocalIff(dataDir: Root, name: string)
    ensures (forall files: map<string, Dir> ::
               OnlyKey(files, Purged(files, dataDir, SanitizeName(name)), SanitizeName(name)))
            <==> exists i :: 0 <= i < |name| && IsAlnum(name[i])
  {
    var key := SanitizeName(name);
    SanitizesToKeyIff(name);
    SanitizeIsNormalForm(name);
    if key == "" {
      var files: map<string, Dir> := map["a" := map[]];
      PurgedTrees(files, dataDir, key);
      assert "a" in files - {key} && "a" !in Purged(files, dataDir, key) - {key};
      assert !OnlyKey(files, Purged(files, dataDir, key), key);
    } else {
      SanitizedIsSegment(key);
      forall files: map<string, Dir>
        ensures OnlyKey(files, Purged(files, dataDir, key), key)
      {
        PurgeIsLocal(files, dataDir, key);
      }
    }
  }

  // ---- Get and List --------------------------------------------------------------------------------

  datatype Status = Running | Stopped | Exited | Missing | StatusArchived | Unknown

  datatype Response = Response(
    agentName: string, key: string, instance: string, containerId: string, containerName: string,
    status: Status, hostPort: int, createdAt: string, yamlPath: string, sessionDir: string, skillsDir: string,
    toolsDir: string, containerSkillsDir: string, runtimeToken: string)

  function ToStatus(raw: string): Status {
    if raw == "running" then Running
    else if raw == "stopped" then Stopped
    else if raw == "exited" then Exited
    else if raw == "not_found" then Missing
    else Unknown
  }

  /** A path in the agents directory of a deployment. */
  function AgentsPath(dataDir: Root, key: string, name: string): string {
    JoinPath(dataDir, key + "/agents/" + name)
  }

  function ToResponse(dataDir: Root, c: Container): Response {
    Response(c.rootId, c.key, c.instance, c.id, c.name, ToStatus(c.status), c.hostPort, c.createdAt,
             AgentsPath(dataDir, c.key, "agents.yaml"), JoinPath(dataDir, c.key + "/sessions"),
             AgentsPath(dataDir, c.key, "skills"), "", "", "")
  }

  function ToArchivedResponse(dataDir: Root, key: string): Response {
    Response("", key, "", "", "", StatusArchived, 0, "",
             AgentsPath(dataDir, key, "agents.yaml"), JoinPath(dataDir, key + "/sessions"),
             AgentsPath(dataDir, key, "skills"), "", "", "")
  }

  /** Get for the key a name sanitizes to. */
  function GetResponse(dataDir: Root, w: World, key: string): Option<Response> {
    match FirstOf(w.containers, key)
    case Some(c) => Some(ToResponse(dataDir, c))
    case None => if HasDocument(w, key) then Some(ToArchivedResponse(dataDir, key)) else None
  }

  /** The map List fills from the containers: of two with the same key the later one stays. */
  function ContainerResponses(dataDir: Root, cs: seq<Container>): map<string, Response> {
    if cs == [] then map[]
    else
      var last := cs[|cs| - 1];
      ContainerResponses(dataDir, cs[..|cs| - 1])[last.key := ToResponse(dataDir, last)]
  }

  /** The containers' responses, completed by archived ones for these keys. */
  function Completed(dataDir: Root, active: map<string, Response>, keys: set<string>): map<string, Response> {
    active + map key | key in keys && key !in active :: ToArchivedResponse(dataDir, key)
  }

  function Responses(dataDir: Root, w: World, includeArchived: bool): map<string, Response> {
    Completed(dataDir, ContainerResponses(dataDir, w.containers), if includeArchived then Deployments(w.files) else {})
  }

  predicate Extends(m: map<string, Response>, m': map<string, Response>) {
    forall key :: key in m ==> key in m' && m'[key] == m[key]
  }

  /** The responses of a map, in strictly increasing order of their keys. */
  predicate IsListing(m: map<string, Response>, out: seq<Response>) {
    && (forall i, j :: 0 <= i < j < |out| ==> Order.LexLe(out[i].key, out[j].key) && out[i].key != out[j].key)
    && (forall r :: r in out ==> r.key in m && m[r.key] == r)
    && (forall key :: key in m ==> m[key] in out)
  }

  lemma {:induction false} LastContainerStays(dataDir: Root, cs: seq<Container>, key: string)
    ensures var own := OfKey(cs, key);
            && (key in ContainerResponses(dataDir, cs) <==> own != [])
            && (own != [] ==> ContainerResponses(dataDir, cs)[key] == ToResponse(dataDir, own[|own| - 1]))
  {
    if cs != [] {
      var init, last := cs[..|cs| - 1], cs[|cs| - 1];
      LastContainerStays(dataDir, init, key);
      SelectConcat(init, [last], key, true);
      assert cs == init + [last];
      assert [last][1..] == [];
    }
  }

  lemma PathUnder(dataDir: Root, rest: string)
    requires rest != ""
    ensures CleanSegs(JoinPath(dataDir, rest)) == Run(CleanSegs(dataDir), Split(rest), Rooted(dataDir))
  {
    hide Split, Run, Clean, CleanSegs;
    CleanIdempotent(dataDir + "/" + rest);
    RunFrom(dataDir, rest);
  }

  /** Where a path of a deployment lies: below the data directory. */
  lemma DeploymentPath(dataDir: Root, segs: seq<string>)
    requires segs != [] && Join(segs) != "" && forall i :: 0 <= i < |segs| ==> IsSegment(segs[i])
    ensures CleanSegs(JoinPath(dataDir, Join(segs))) == CleanSegs(dataDir) + segs
  {
    hide Split, Join, Run, Clean, CleanSegs, JoinPath;
    PathUnder(dataDir, Join(segs));
    SplitJoin(segs);
    RunPushes(CleanSegs(dataDir), segs, Rooted(dataDir));
  }

  /** The file layout of a response. */
  predicate HasLayout(dataDir: Root, key: string, r: Response) {
    var base := CleanSegs(dataDir) + [key];
    && CleanSegs(r.yamlPath) == base + ["agents", "agents.yaml"]
    && CleanSegs(r.sessionDir) == base + ["sessions"]
    && CleanSegs(r.skillsDir) == base + ["agents", "skills"]
  }

  lemma AgentsPathLies(dataDir: Root, key: string, name: string)
    requires IsSegment(key) && IsSegment(name)
    ensures CleanSegs(AgentsPath(dataDir, key, name)) == CleanSegs(dataDir) + [key] + ["agents", name]
  {
    hide JoinPath, CleanSegs, Join;
    JoinThree(key, "agents", name);
    DeploymentPath(dataDir, [key, "agents", name]);
    assert key + "/agents/" + name == key + "/" + "agents" + "/" + name;
    assert CleanSegs(dataDir) + [key, "agents", name] == CleanSegs(dataDir) + [key] + ["agents", name];
  }

  lemma LayoutOfPaths(dataDir: Root, key: string)
    requires IsSegment(key)
    ensures HasLayout(dataDir, key, ToArchivedResponse(dataDir, key))
  {
    hide JoinPath, CleanSegs, Join, AgentsPath;
    AgentsPathLies(dataDir, key, "agents.yaml");
    AgentsPathLies(dataDir, key, "skills");
    JoinTwo(key, "sessions");
    assert key + "/" + "sessions" == key + "/sessions";
    DeploymentPath(dataDir, [key, "sessions"]);
    assert CleanSegs(dataDir) + [key, "sessions"] == CleanSegs(dataDir) + [key] + ["sessions"];
  }

  /** What is said of a container: its own labels and state, an unknown state as such. */
  predicate Describes(c: Container, r: Response) {
    && r.agentName == c.rootId && r.key == c.key && r.instance == c.instance
    && r.containerId == c.id && r.containerName == c.name && r.hostPort == c.hostPort && r.createdAt == c.createdAt
    && (r.status == Running <==> c.status == "running")
    && (r.status == Stopped <==> c.status == "stopped")
    && (r.status == Exited <==> c.status == "exited")
    && (r.status == Missing <==> c.status == "not_found")
    && (r.status == Unknown <==> c.status !in {"running", "stopped", "exited", "not_found"})
    && r.toolsDir == r.containerSkillsDir == r.runtimeToken == ""
  }

  /** What Get reports tells the phase of a key: nothing for an absent one; for a container its
      own state and labels; "archived" exactly when only the document is left, and then nothing
      of a container. The file layout is the same in both cases. */
  lemma GetShowsPhase(dataDir: Root, w: World, key: string)
    requires Healthy(w, key)
    ensures var r := GetResponse(dataDir, w, key);
            && (r.None? <==> PhaseOf(w, key) == Absent)
            && (r.Some? ==> (r.value.status == StatusArchived <==> PhaseOf(w, key) == Phase.Archived))
            && (r.Some? ==> r.value.key == key && (IsSegment(key) ==> HasLayout(dataDir, key, r.value)))
            && (FirstOf(w.containers, key).Some? ==> r.Some? && Describes(FirstOf(w.containers, key).value, r.value))
            && (r.Some? && FirstOf(w.containers, key).None? ==>
                  r.value.agentName == r.value.instance == r.value.containerId == r.value.containerName
                  == r.value.createdAt == "" && r.value.hostPort == 0)
  {
    SelectMembers(w.containers, key, true);
    if OfKey(w.containers, key) != [] {
      assert OfKey(w.containers, key)[0] in OfKey(w.containers, key);
    }
    if IsSegment(key) {
      LayoutOfPaths(dataDir, key);
    }
  }

  /** With at most one container, the first one of the key, which Get finds, is the last one,
      which List keeps. */
  lemma ViewsAgree(dataDir: Root, w: World, key: string)
    requires |OfKey(w.containers, key)| <= 1
    ensures var all := Responses(dataDir, w, true);
            && (key in all <==> GetResponse(dataDir, w, key).Some?)
            && (key in all ==> GetResponse(dataDir, w, key) == Some(all[key]) && all[key].key == key)
  {
    LastContainerStays(dataDir, w.containers, key);
    SelectMembers(w.containers, key, true);
    var own := OfKey(w.containers, key);
    if own != [] {
      assert own[0] in own && own[0] == own[|own| - 1];
    }
  }

  /** Get and List agree: in every state of every run the keys that List reports, archived ones
      included, are exactly the keys for which Get succeeds, with equal responses. */
  lemma GetAndListAgree(dataDir: Root, run: seq<Event>, key: string)
    requires IsRun(EMPTY, run)
    ensures var w := FinalWorld(EMPTY, run);
            var all := Responses(dataDir, w, true);
            && (key in all <==> GetResponse(dataDir, w, key).Some?)
            && (key in all ==>
                  GetResponse(dataDir, w, key) == Some(all[key]) && all[key].key == key && SanitizeName(key) == key)
  {
    var w := FinalWorld(EMPTY, run);
    RunsKeepSingletons(run, key);
    ViewsAgree(dataDir, w, key);
    SanitizeIsNormalForm(key);
  }
}
