/** The data directory as a process sees it: every operation can fail, and the process can
    die before any of them. */
module FileSystem {
  import opened Common
  import opened Paths

  /** The regular files below `<dataDir>/<key>/agents`, by slash-separated relative path. */
  type Dir = map<string, Bytes>

  /** A file or a directory of an extracted archive. */
  datatype Node = File(data: Bytes) | Folder(entries: map<string, Node>)

  /** The directory `skills/<agent>/<skill>`. */
  datatype Slot = Slot(agent: string, skill: string)

  type Slots = map<Slot, map<string, Node>>

  function FilesOf(files: map<string, Dir>, key: string): Dir {
    if key in files then files[key] else map[]
  }

  function SlotsOf(skills: map<string, Slots>, key: string): Slots {
    if key in skills then skills[key] else map[]
  }

  function FileInSlot(slots: Slots, slot: Slot, name: string): Option<Bytes> {
    if slot in slots && name in slots[slot] && slots[slot][name].File? then Some(slots[slot][name].data) else None
  }

  function Put(files: map<string, Dir>, key: string, path: string, data: Bytes): map<string, Dir> {
    files[key := FilesOf(files, key)[path := data]]
  }

  /** The two maps have the same entry, or none, for k. */
  predicate SameAt<K, V(==)>(before: map<K, V>, after: map<K, V>, k: K) {
    (k in after <==> k in before) && (k in before ==> after[k] == before[k])
  }

  /** `after` differs from `before` at most in the entry for `key`. */
  predicate OnlyKey<T(==)>(before: map<string, T>, after: map<string, T>, key: string) {
    before - {key} == after - {key}
  }

  lemma UpdateIsLocal<T>(before: map<string, T>, key: string, value: T)
    ensures OnlyKey(before, before[key := value], key)
  {
    var after := before[key := value];
    assert (after - {key}).Keys == (before - {key}).Keys;
  }

  lemma OnlyKeyTransitive<T>(m0: map<string, T>, m1: map<string, T>, m2: map<string, T>, key: string)
    requires OnlyKey(m0, m1, key) && OnlyKey(m1, m2, key)
    ensures OnlyKey(m0, m2, key)
  {
  }

  lemma PutTwice(files: map<string, Dir>, key: string, path: string, first: Bytes, second: Bytes)
    ensures Put(Put(files, key, path, first), key, path, second) == Put(files, key, path, second)
  {
    assert FilesOf(files, key)[path := first][path := second] == FilesOf(files, key)[path := second];
  }

  /** os.RemoveAll(filepath.Join(dataDir, key)): what lies at that path or below it is gone;
      each tree lies directly in the data directory, under its key. */
  function Purged<T>(trees: map<string, T>, dataDir: string, key: string): map<string, T>
    requires dataDir != ""
  {
    map k | k in trees && !(CleanSegs(JoinPath(dataDir, key)) <= CleanSegs(dataDir) + [k]) :: trees[k]
  }

  /** A segment is its own clean path. */
  lemma PlainSegment(seg: string)
    requires IsSegment(seg)
    ensures CleanSegs(seg) == [seg] && !Rooted(seg)
  {
    SplitPlain(seg);
    assert seg[0] in seg;
    RunPushes([], [seg], false);
    assert [] + [seg] == [seg];
  }

  /** Where a key leads from the data directory. */
  lemma TreePlace(dataDir: string, key: string)
    requires dataDir != "" && (key == "" || IsSegment(key))
    ensures CleanSegs(JoinPath(dataDir, key)) == CleanSegs(dataDir) + if key == "" then [] else [key]
  {
    if key == "" {
      CleanIdempotent(dataDir);
      assert CleanSegs(dataDir) + [] == CleanSegs(dataDir);
    } else {
      PlainSegment(key);
      JoinPathAppends(dataDir, key);
    }
  }

  /** A purge removes the one tree of its key; for the empty key the path is that of the data
      directory itself, and nothing is left. */
  lemma PurgedTrees<T>(trees: map<string, T>, dataDir: string, key: string)
    requires dataDir != "" && (key == "" || IsSegment(key))
    ensures Purged(trees, dataDir, key) == if key == "" then map[] else trees - {key}
  {
    var base, place := CleanSegs(dataDir), CleanSegs(JoinPath(dataDir, key));
    TreePlace(dataDir, key);
    forall k
      ensures place <= base + [k] <==> key == "" || k == key
    {
      assert (base + [k])[..|base|] == base && (base + [k])[|base|] == k;
      if key != "" {
        assert (base + [key])[|base|] == key;
      }
    }
  }

  // ---- Places below the agents directory --------------------------------------------------

  /** The segments of filepath.Join("skills", agent, skill) below the agents directory. */
  function PlaceOf(slot: Slot): seq<string> {
    CleanSegs("skills/" + slot.agent + "/" + slot.skill)
  }

  /** A skill directory of its own: both names are directory entries. */
  predicate Proper(slot: Slot) {
    IsSegment(slot.agent) && IsSegment(slot.skill)
  }

  predicate FileUnder(place: seq<string>, path: string) {
    place <= Split(path)
  }

  predicate SlotUnder(place: seq<string>, slot: Slot) {
    place <= PlaceOf(slot)
  }

  /** What the removal of a place leaves of the files, and of the skills. */
  function FilesWithout(dir: Dir, place: seq<string>): Dir {
    map p | p in dir && !FileUnder(place, p) :: dir[p]
  }

  function SlotsWithout(slots: Slots, place: seq<string>): Slots {
    map s | s in slots && !SlotUnder(place, s) :: slots[s]
  }

  /** Files, and skills, elsewhere are as they were. */
  ghost predicate FilesKept(before: Dir, after: Dir, place: seq<string>) {
    forall p :: !FileUnder(place, p) ==> SameAt(before, after, p)
  }

  ghost predicate SlotsKept(before: Slots, after: Slots, place: seq<string>) {
    forall s :: !SlotUnder(place, s) ==> SameAt(before, after, s)
  }

  /** The place is not that of a file: nothing is there, or a directory. */
  predicate NoFileAt(dir: Dir, place: seq<string>) {
    forall p :: p in dir ==> Split(p) != place
  }

  /** No skill lies there. */
  predicate Vacant(slots: Slots, place: seq<string>) {
    forall s :: s in slots ==> !SlotUnder(place, s)
  }

  lemma PathOfSlot(slot: Slot)
    requires '/' !in slot.agent && '/' !in slot.skill
    ensures PlaceOf(slot) == Run([], ["skills", slot.agent, slot.skill], false)
  {
    var agent, skill := slot.agent, slot.skill;
    SplitAtSlash("skills", agent + "/" + skill);
    SplitAtSlash(agent, skill);
    SplitPlain(skill);
    var path := "skills/" + agent + "/" + skill;
    assert path == "skills" + "/" + (agent + "/" + skill);
    assert Split(path) == ["skills", agent, skill] && !Rooted(path);
  }

  /** Where the names of a valid request put a skill: "." and ".." do not denote a directory
      of the agent's own. */
  lemma PlaceOfSlot(slot: Slot)
    requires '/' !in slot.agent && slot.agent != "" && IsSegment(slot.skill)
    ensures PlaceOf(slot) == if slot.agent == ".." then [slot.skill]
                             else if slot.agent == "." then ["skills", slot.skill]
                             else ["skills", slot.agent, slot.skill]
  {
    var agent, skill := slot.agent, slot.skill;
    var segs := ["skills", agent, skill];
    PathOfSlot(slot);
    if IsSegment(agent) {
      RunPushes([], segs, false);
      assert [] + segs == segs;
    } else {
      assert Push([], "skills", false) == ["skills"];
      assert segs[1..] == [agent, skill] && [agent, skill][1..] == [skill];
      var up := if agent == ".." then [] else ["skills"];
      assert Push(["skills"], agent, false) == up;
      assert Run([], segs, false) == Run(up, [skill], false);
      RunPushes(up, [skill], false);
      assert up + [skill] == if agent == ".." then [skill] else ["skills", skill];
    }
  }

  lemma UnderIsBelow(place: seq<string>, path: string)
    requires place != [] && FileUnder(place, path)
    ensures path == Join(place) || Join(place) + "/" <= path
  {
    hide Split, Join;
    JoinOfSplit(path);
    var rest := Split(path)[|place|..];
    assert Split(path) == place + rest;
    if rest == [] {
      assert Split(path) == place;
    } else {
      JoinConcat(place, rest);
    }
  }

  lemma BelowIsUnder(place: seq<string>, rest: string)
    requires place != [] && forall i :: 0 <= i < |place| ==> '/' !in place[i]
    ensures FileUnder(place, Join(place)) && FileUnder(place, Join(place) + "/" + rest)
  {
    hide Split, Join;
    SplitJoin(place);
    SplitConcat(Join(place), rest);
  }

  lemma TailBelow(root: string, path: string) returns (rest: string)
    requires root + "/" <= path
    ensures path == root + "/" + rest
  {
    rest := path[|root| + 1..];
    assert path == path[..|root| + 1] + rest;
  }

  /** A file is under a place exactly if it stands there itself or in a directory there. */
  lemma FileUnderIff(place: seq<string>, path: string)
    requires place != [] && forall i :: 0 <= i < |place| ==> '/' !in place[i]
    ensures FileUnder(place, path) <==> path == Join(place) || Join(place) + "/" <= path
  {
    hide FileUnder, Join;
    if FileUnder(place, path) {
      UnderIsBelow(place, path);
    } else if path == Join(place) {
      BelowIsUnder(place, "");
    } else if Join(place) + "/" <= path {
      var rest := TailBelow(Join(place), path);
      BelowIsUnder(place, rest);
    }
  }

  /** The removal of a skill's own directory takes the files at its path and below it. */
  lemma RemovalTakesTree(dir: Dir, slot: Slot, path: string)
    requires Proper(slot)
    ensures var root, left := "skills/" + slot.agent + "/" + slot.skill, FilesWithout(dir, PlaceOf(slot));
            && (path in left <==> path in dir && path != root && !(root + "/" <= path))
            && (path in left ==> left[path] == dir[path])
  {
    hide Join, PlaceOf;
    var place := ["skills", slot.agent, slot.skill];
    PlaceOfSlot(slot);
    FileUnderIff(place, path);
    JoinThree("skills", slot.agent, slot.skill);
    assert "skills" + "/" + slot.agent + "/" + slot.skill == "skills/" + slot.agent + "/" + slot.skill;
  }

  lemma KeptAsIs(dir: Dir, slots: Slots, place: seq<string>)
    ensures FilesKept(dir, dir, place) && SlotsKept(slots, slots, place)
  {
  }

  /** The files, and the skills, when a directory appears at a place: some of these below it. */
  function FilesFilled(dir: Dir, place: seq<string>, inner: Dir): Dir {
    dir + map p | p in inner && FileUnder(place, p) && Split(p) != place :: inner[p]
  }

  function SlotsFilled(slots: Slots, slot: Slot, inner: Slots, entries: map<string, Node>): Slots {
    (slots + map s | s in inner && SlotUnder(PlaceOf(slot), s) :: inner[s])[slot := entries]
  }

  /** What appears at a place or below it disturbs nothing elsewhere. */
  lemma FillingIsLocal(dir: Dir, inFiles: Dir, slots: Slots, inSlots: Slots, slot: Slot, entries: map<string, Node>)
    ensures var place := PlaceOf(slot);
            && FilesKept(dir, FilesFilled(dir, place, inFiles), place)
            && (NoFileAt(dir, place) ==> NoFileAt(FilesFilled(dir, place, inFiles), place))
            && SlotsKept(slots, SlotsFilled(slots, slot, inSlots, entries), place)
            && slot in SlotsFilled(slots, slot, inSlots, entries)
            && SlotsFilled(slots, slot, inSlots, entries)[slot] == entries
  {
  }

  /** Two proper skill directories do not overlap. */
  lemma ProperSlotsAreApart(slot: Slot, other: Slot)
    requires Proper(slot) && Proper(other)
    ensures SlotUnder(PlaceOf(slot), other) <==> other == slot
  {
    PlaceOfSlot(slot);
    PlaceOfSlot(other);
    if PlaceOf(slot) <= PlaceOf(other) {
      assert PlaceOf(slot)[1] == PlaceOf(other)[1] && PlaceOf(slot)[2] == PlaceOf(other)[2];
    }
  }

  predicate IsDigits(s: string) {
    s != "" && forall i :: 0 <= i < |s| ==> '0' <= s[i] <= '9'
  }

  /** A file directly inside the directory whose path is `dir` (with its trailing slash). */
  predicate IsEntryOf(dir: string, path: string) {
    dir < path && '/' !in path[|dir|..]
  }

  class DataDir {
    var files: map<string, Dir>
    var skills: map<string, Slots>
    // The process died: nothing after that reaches the disk.
    var halted: bool
    // Some operation did not succeed, or the process died.
    ghost var faulted: bool

    constructor ()
      ensures files == map[] && skills == map[] && !halted && !faulted
    {
      files, skills, halted, faulted := map[], map[], false, false;
    }

    /** The fate of the next operation: it succeeds, fails, or the process dies in front of it. */
    method Proceed() returns (ok: bool)
      modifies this`halted, this`faulted
      ensures old(faulted) ==> faulted
      ensures ok ==> !halted && !old(halted) && faulted == old(faulted)
      ensures !ok ==> faulted
      ensures old(halted) ==> halted
    {
      var dies: bool, fails: bool := *, *;
      if halted || dies {
        halted, faulted := true, true;
        return false;
      }
      if fails {
        faulted := true;
      }
      ok := !fails;
    }

    /** os.MkdirAll; directories are implicit in the paths of files. */
    method MkdirAll(key: string) returns (ok: bool)
      modifies this`halted, this`faulted
      ensures old(faulted) ==> faulted
      ensures ok ==> !halted && faulted == old(faulted)
      ensures !ok ==> faulted
    {
      ok := Proceed();
    }

    /** os.ReadFile */
    method ReadFile(key: string, path: string) returns (data: Option<Bytes>)
      modifies this`halted, this`faulted
      ensures old(faulted) ==> faulted
      ensures data.Some? ==> path in FilesOf(files, key) && FilesOf(files, key)[path] == data.value
      ensures data.Some? ==> faulted == old(faulted)
      ensures data.None? ==> faulted || (path !in FilesOf(files, key) && faulted == old(faulted))
    {
      var ok := Proceed();
      if !ok || path !in FilesOf(files, key) {
        return None;
      }
      data := Some(FilesOf(files, key)[path]);
    }

    /** os.WriteFile: a failed write may leave a part of the data, or the old file, behind. */
    method WriteFile(key: string, path: string, data: Bytes) returns (ok: bool)
      modifies this`files, this`halted, this`faulted
      ensures old(faulted) ==> faulted
      ensures ok ==> files == Put(old(files), key, path, data) && !halted && faulted == old(faulted)
      ensures !ok ==> faulted
      ensures !ok ==> files == old(files) || exists part :: part <= data && files == Put(old(files), key, path, part)
    {
      var alive := !halted;
      ok := Proceed();
      if ok {
        files := Put(files, key, path, data);
      } else {
        var touched: bool, written: nat := *, *;
        if alive && touched {
          var part := data[..if written <= |data| then written else 0];
          files := Put(files, key, path, part);
        }
      }
    }

    /** os.Rename of a regular file: replaces the target in one step. */
    method Rename(key: string, from: string, to: string) returns (ok: bool)
      modifies this`files, this`halted, this`faulted
      ensures old(faulted) ==> faulted
      ensures ok ==> from in FilesOf(old(files), key) && !halted && faulted == old(faulted)
      ensures ok ==>
        var dir := FilesOf(old(files), key); files == old(files)[key := (dir - {from})[to := dir[from]]]
      ensures !ok ==> files == old(files)
      ensures !ok ==> faulted || from !in FilesOf(files, key)
    {
      ok := Proceed();
      var dir := FilesOf(files, key);
      if ok && from in dir {
        files := files[key := (dir - {from})[to := dir[from]]];
      } else {
        ok := false;
      }
    }

    /** os.Remove of a regular file. */
    method Remove(key: string, path: string) returns (ok: bool)
      modifies this`files, this`halted, this`faulted
      ensures old(faulted) ==> faulted
      ensures ok ==> !halted && faulted == old(faulted)
      ensures files == if ok && key in old(files) then old(files)[key := FilesOf(old(files), key) - {path}]
                       else old(files)
      ensures !ok ==> faulted || (path !in FilesOf(files, key) && faulted == old(faulted))
    {
      ok := Proceed();
      if !ok || path !in FilesOf(files, key) {
        return false;
      }
      files := files[key := FilesOf(files, key) - {path}];
    }

    /** os.CreateTemp(dir, pattern + "*"): a new empty file with a random decimal suffix. */
    method CreateTemp(key: string, dir: string, pattern: string) returns (path: Option<string>)
      modifies this`files, this`halted, this`faulted
      ensures old(faulted) ==> faulted
      ensures path.Some? ==> '/' !in pattern && !halted && faulted == old(faulted)
      ensures path.Some? ==> exists digits :: IsDigits(digits) && path.value == dir + pattern + digits
      ensures path.Some? ==> path.value !in FilesOf(old(files), key) && files == Put(old(files), key, path.value, "")
      ensures path.None? ==> files == old(files)
      ensures path.None? ==> faulted || '/' in pattern
    {
      var ok := Proceed();
      if !ok || '/' in pattern {
        return None;
      }
      var digits: string := *;
      var candidate := dir + pattern + digits;
      if !IsDigits(digits) || candidate in FilesOf(files, key) {
        faulted := true; // no free name found
        return None;
      }
      files := Put(files, key, candidate, "");
      path := Some(candidate);
    }

    /** os.Rename of a complete file, staged beside the modelled ones, to this path. */
    method Publish(key: string, path: string, data: Bytes) returns (ok: bool)
      modifies this`files, this`halted, this`faulted
      ensures old(faulted) ==> faulted
      ensures ok ==> files == Put(old(files), key, path, data) && !halted && faulted == old(faulted)
      ensures !ok ==> files == old(files) && faulted
    {
      ok := Proceed();
      if ok {
        files := Put(files, key, path, data);
      }
    }

    /** os.ReadFile of a file at the top of an installed skill. A skill directory that is not
        its agent's own shares its files with others: what is read there is left open. */
    method ReadInSlot(key: string, slot: Slot, name: string) returns (data: Option<Bytes>)
      modifies this`halted, this`faulted
      ensures old(faulted) ==> faulted
      ensures data.Some? && Proper(slot) ==> FileInSlot(SlotsOf(skills, key), slot, name) == data
      ensures data.None? && Proper(slot) ==> faulted || FileInSlot(SlotsOf(skills, key), slot, name).None?
    {
      var ok := Proceed();
      if !ok {
        return None;
      }
      data := *;
      if Proper(slot) {
        data := FileInSlot(SlotsOf(skills, key), slot, name);
      }
    }

    /** os.RemoveAll of a skill's directory, taken as one step: whatever lies at its path or
        below is gone, files and skills alike. */
    method RemoveSlot(key: string, slot: Slot) returns (ok: bool)
      modifies this
      ensures old(faulted) ==> faulted
      ensures ok ==> files == old(files)[key := FilesWithout(FilesOf(old(files), key), PlaceOf(slot))]
      ensures ok ==> skills == old(skills)[key := SlotsWithout(SlotsOf(old(skills), key), PlaceOf(slot))] && !halted
      ensures !ok ==> files == old(files) && skills == old(skills) && faulted
    {
      ok := Proceed();
      if ok {
        files := files[key := FilesWithout(FilesOf(files, key), PlaceOf(slot))];
        skills := skills[key := SlotsWithout(SlotsOf(skills, key), PlaceOf(slot))];
      }
    }

    /** os.Rename of a complete directory to the place of a skill, where nothing is. The files
        that come with it, and the skills of others it may contain, are left open. */
    method PublishSlot(key: string, slot: Slot, entries: map<string, Node>) returns (ok: bool)
      requires Vacant(SlotsOf(skills, key), PlaceOf(slot)) && NoFileAt(FilesOf(files, key), PlaceOf(slot))
      modifies this
      ensures old(faulted) ==> faulted
      ensures OnlyKey(old(files), files, key) && OnlyKey(old(skills), skills, key)
      ensures FilesKept(FilesOf(old(files), key), FilesOf(files, key), PlaceOf(slot))
      ensures SlotsKept(SlotsOf(old(skills), key), SlotsOf(skills, key), PlaceOf(slot))
      ensures NoFileAt(FilesOf(files, key), PlaceOf(slot))
      ensures ok ==> slot in SlotsOf(skills, key) && SlotsOf(skills, key)[slot] == entries && !halted
      ensures !ok ==> files == old(files) && skills == old(skills) && faulted
    {
      hide PlaceOf, FilesFilled, SlotsFilled, FilesKept, SlotsKept, NoFileAt;
      ghost var dir, slots, place := FilesOf(files, key), SlotsOf(skills, key), PlaceOf(slot);
      KeptAsIs(dir, slots, place);
      ok := Proceed();
      if ok {
        var inFiles: Dir, inSlots: Slots := *, *;
        FillingIsLocal(dir, inFiles, slots, inSlots, slot, entries);
        var dir' := FilesFilled(FilesOf(files, key), PlaceOf(slot), inFiles);
        var slots' := SlotsFilled(SlotsOf(skills, key), slot, inSlots, entries);
        UpdateIsLocal(files, key, dir');
        UpdateIsLocal(skills, key, slots');
        files, skills := files[key := dir'], skills[key := slots'];
      }
    }

    /** RemoveAll of a deployment's directory; a failed removal may have removed some files. */
    method RemoveTree(dataDir: string, key: string) returns (ok: bool)
      requires dataDir != ""
      modifies this
      ensures old(faulted) ==> faulted
      ensures ok ==> files == Purged(old(files), dataDir, key) && skills == Purged(old(skills), dataDir, key)
      ensures !ok && key != "" ==> OnlyKey(old(files), files, key) && OnlyKey(old(skills), skills, key)
      ensures !ok ==> faulted
      ensures !ok && key != "" ==> FilesOf(files, key).Keys <= FilesOf(old(files), key).Keys
    {
      ok := Proceed();
      if ok {
        files, skills := Purged(files, dataDir, key), Purged(skills, dataDir, key);
        return;
      }
      if halted {
        return;
      }
      if key == "" {
        files, skills := *, *;
        return;
      }
      var kept: set<string>, left: Slots := *, *;
      var dir := FilesOf(files, key);
      var rest := map p | p in dir && p in kept :: dir[p];
      UpdateIsLocal(files, key, rest);
      UpdateIsLocal(skills, key, left);
      files, skills := files[key := rest], skills[key := left];
    }

    /** os.ReadDir, keeping the regular files: their paths, each once, in no particular order. */
    method ReadDir(key: string, dir: string) returns (paths: Option<seq<string>>)
      modifies this`halted, this`faulted
      ensures old(faulted) ==> faulted
      ensures paths.Some? ==> faulted == old(faulted)
      ensures paths.Some? ==> forall p :: p in paths.value <==> p in FilesOf(files, key) && IsEntryOf(dir, p)
      ensures paths.None? ==> faulted
    {
      var ok := Proceed();
      if !ok {
        return None;
      }
      var pending := set p | p in FilesOf(files, key) && IsEntryOf(dir, p);
      ghost var all := pending;
      var found: seq<string> := [];
      while pending != {}
        invariant forall p :: p in all <==> p in found || p in pending
        decreases pending
      {
        var p :| p in pending;
        found := found + [p];
        pending := pending - {p};
      }
      paths := Some(found);
    }
  }
}
