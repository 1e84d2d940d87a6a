/** The skill installer: an archive is staged, extracted, normalised in shape, stamped with
    its hash and moved into place as one directory. */
module Skills {
  import opened Common
  import opened Text
  import opened Model
  import opened FileSystem
  import opened Download
  import opened Archive

  /** SHA-256 and the zip reader; the latter also fixes how entry contents arrive in chunks. */
  datatype Library = Library(sha: Bytes -> Digest, unzip: Bytes -> Option<seq<ZipEntry>>)

  // ---- The redundant top-level directory ----------------------------------------------------

  predicate HasWrapper(name: string, tree: Tree) {
    tree.Keys == {name} && tree[name].Folder?
  }

  /** A wrapper directory of the skill's own name is replaced by its contents; that is not
      possible when it contains an entry of that name again. */
  function Stripped(name: string, tree: Tree): Option<Tree> {
    if !HasWrapper(name, tree) then Some(tree)
    else if name in tree[name].entries then None
    else Some(tree[name].entries)
  }

  /** The wrapper goes exactly if the directory of the skill's name is all there is; every path
      then loses that first segment, and nothing else changes. */
  lemma StrippedIff(name: string, tree: Tree, q: seq<string>)
    ensures (exists inner :: tree == map[name := Folder(inner)]) ==>
      var inner := tree[name].entries;
      && (Stripped(name, tree).None? <==> name in inner)
      && (name !in inner ==> FileAt(Stripped(name, tree).value, q) == FileAt(tree, [name] + q))
    ensures !(exists inner :: tree == map[name := Folder(inner)]) ==> Stripped(name, tree) == Some(tree)
  {
    if HasWrapper(name, tree) {
      assert tree == map[name := Folder(tree[name].entries)];
    }
    if inner :| tree == map[name := Folder(inner)] {
      assert HasWrapper(name, tree) && tree[name].entries == inner;
      assert ([name] + q)[0] == name && ([name] + q)[1..] == q;
    }
  }

  /** The state between two moves: `moved` is out of the wrapper, the rest still inside. */
  function HalfMoved(name: string, inner: Tree, moved: set<string>): Tree {
    (map e | e in inner && e in moved :: inner[e])
      + map[name := Folder(map e | e in inner && e !in moved :: inner[e])]
  }

  lemma NothingMoved(name: string, tree: Tree)
    requires HasWrapper(name, tree)
    ensures HalfMoved(name, tree[name].entries, {}) == tree
  {
    var inner := tree[name].entries;
    var half := HalfMoved(name, inner, {});
    assert half.Keys == {name};
    assert half[name].entries == inner;
  }

  lemma MoveOne(name: string, inner: Tree, moved: set<string>, e: string)
    requires e in inner && e !in moved && e != name && name !in moved
    ensures var half := HalfMoved(name, inner, moved);
            && name in half && half[name].Folder? && e in half[name].entries && e !in half
            && half[name := Folder(half[name].entries - {e})][e := half[name].entries[e]]
               == HalfMoved(name, inner, moved + {e})
  {
    var half, next := HalfMoved(name, inner, moved), HalfMoved(name, inner, moved + {e});
    assert half[name].entries - {e} == next[name].entries;
  }

  /** stripRedundantTopLevelDir: moves the entries of the wrapper up, one rename at a time. A
      rename onto the wrapper itself fails, because the wrapper is not empty. */
  method StripTopLevel(name: string, tree: Tree) returns (result: Option<Tree>, ghost faulted: bool)
    ensures result.Some? ==> result == Stripped(name, tree)
    ensures !faulted ==> result == Stripped(name, tree)
  {
    faulted := false;
    if !HasWrapper(name, tree) {
      return Some(tree), false;
    }
    var inner := tree[name].entries;
    var pending, now := inner.Keys, tree;
    NothingMoved(name, tree);
    assert inner.Keys - pending == {};
    while pending != {}
      invariant pending <= inner.Keys
      invariant name in inner ==> name in pending
      invariant now == HalfMoved(name, inner, inner.Keys - pending)
      decreases pending
    {
      var e :| e in pending;
      var fails: bool := *;
      if fails {
        return None, true;
      }
      if e in now {
        assert e == name;
        return None, false;
      }
      MoveOne(name, inner, inner.Keys - pending, e);
      now := now[name := Folder(now[name].entries - {e})][e := now[name].entries[e]];
      assert inner.Keys - pending + {e} == inner.Keys - (pending - {e});
      pending := pending - {e};
    }
    assert inner.Keys - {} == inner.Keys;
    assert now - {name} == inner;
    var fails: bool := *;
    result, faulted := if fails then None else Some(now - {name}), fails;
  }

  predicate ComesFrom(lib: Library, name: string, want: string, zip: Bytes, body: Tree) {
    && lib.sha(zip) == want && lib.unzip(zip).Some?
    && Extraction(lib.unzip(zip).value).Some?
    && Stripped(name, Extraction(lib.unzip(zip).value).value) == Some(body)
  }

  // ---- Installed skills ------------------------------------------------------------------------

  /** The directory is the extraction of an archive of this hash, stripped, plus its marker. */
  ghost predicate IsInstall(lib: Library, name: string, want: string, entries: Tree) {
    exists zip, body :: ComesFrom(lib, name, want, zip, body) && entries == body[MARKER := File(want)]
  }

  ghost predicate SlotSound(lib: Library, slots: Slots, slot: Slot) {
    var marker := FileInSlot(slots, slot, MARKER);
    marker.Some? && IsSha256Hex(TrimSpace(marker.value)) ==>
      IsInstall(lib, slot.skill, TrimSpace(marker.value), slots[slot])
  }

  /** Every marker in an agent's own directory tells where its skill comes from. */
  ghost predicate SkillsSound(lib: Library, slots: Slots) {
    forall slot :: Proper(slot) ==> SlotSound(lib, slots, slot)
  }

  lemma FreshInstallIsSound(lib: Library, before: Slots, after: Slots, slot: Slot, zip: Bytes, body: Tree)
    requires ComesFrom(lib, slot.skill, lib.sha(zip), zip, body)
    requires SlotsKept(before, after, PlaceOf(slot))
    requires slot in after && after[slot] == body[MARKER := File(lib.sha(zip))]
    ensures IsInstall(lib, slot.skill, lib.sha(zip), after[slot])
    ensures Proper(slot) && SkillsSound(lib, before) ==> SkillsSound(lib, after)
  {
    TrimSpaceKeeps(lib.sha(zip));
    if Proper(slot) && SkillsSound(lib, before) {
      forall other | Proper(other)
        ensures SlotSound(lib, after, other)
      {
        ProperSlotsAreApart(slot, other);
        if other != slot {
          assert SameAt(before, after, other) && SlotSound(lib, before, other);
        }
      }
    }
  }

  lemma RemovalIsSound(lib: Library, slots: Slots, place: seq<string>)
    requires SkillsSound(lib, slots)
    ensures SkillsSound(lib, SlotsWithout(slots, place))
  {
    forall other | Proper(other)
      ensures SlotSound(lib, SlotsWithout(slots, place), other)
    {
      assert SlotSound(lib, slots, other);
    }
  }

  /** A removal changes nothing exactly where no skill lies. */
  lemma RemovalShowsIff(slots: Slots, place: seq<string>)
    ensures SlotsWithout(slots, place) == slots <==> Vacant(slots, place)
  {
    if SlotsWithout(slots, place) == slots {
      forall s | s in slots
        ensures !SlotUnder(place, s)
      {
        assert s in SlotsWithout(slots, place);
      }
    }
  }

  /** The skill's own directory is vacant exactly if the skill is not there, among skills of
      proper names. */
  lemma OwnDirectoryVacantIff(slots: Slots, slot: Slot)
    requires Proper(slot) && forall s :: s in slots ==> Proper(s)
    ensures Vacant(slots, PlaceOf(slot)) <==> slot !in slots
    ensures SlotsWithout(slots, PlaceOf(slot)) == slots - {slot}
  {
    ProperSlotsAreApart(slot, slot);
    forall s | s in slots
      ensures SlotUnder(PlaceOf(slot), s) <==> s == slot
    {
      ProperSlotsAreApart(slot, s);
    }
  }

  class SkillInstaller {
    const fs: DataDir
    const lib: Library
    const checks: Checks
    const zipMax: int
    const limits: Limits

    constructor (fs: DataDir, lib: Library, checks: Checks, zipMax: int, limits: Limits)
      ensures this.fs == fs && this.lib == lib && this.checks == checks && this.zipMax == zipMax
        && this.limits == limits
    {
      this.fs, this.lib, this.checks, this.zipMax, this.limits := fs, lib, checks, zipMax, limits;
    }

    predicate Unpacks(name: string, zip: Bytes) {
      && lib.unzip(zip).Some?
      && Fits(limits, lib.unzip(zip).value)
      && Extraction(lib.unzip(zip).value).Some?
      && match Stripped(name, Extraction(lib.unzip(zip).value).value)
         case None => false
         case Some(body) => MARKER in body ==> body[MARKER].File?
    }

    /** The download brings an archive of the declared hash that can be extracted within the
        limits, stripped and stamped. */
    predicate Delivers(s: SkillSource, response: Response) {
      && response.Streamed?
      && Delivery(lib.sha, Options(zipMax, 0), response) == Ok(NormalizeSha256(s.hash))
      && Unpacks(s.name, BodyOf(response.stream))
    }

    predicate ArchiveCounts(zip: Bytes) {
      lib.unzip(zip).Some? ==> CountersFit(limits, lib.unzip(zip).value)
    }

    /** The int64 counters of the download and of the extraction cannot wrap. */
    predicate Countable(response: Response) {
      && ResponseCounts(Options(zipMax, 0), response)
      && (response.Streamed? ==> ArchiveCounts(BodyOf(response.stream)))
    }

    /** Extracts, strips and stamps a verified archive, beside its final place. */
    method Unpack(name: string, want: string, zip: Bytes) returns (entries: Option<Tree>, ghost faulted: bool)
      requires lib.sha(zip) == want
      ensures entries.Some? ==>
        exists body :: ComesFrom(lib, name, want, zip, body) && entries.value == body[MARKER := File(want)]
      ensures !faulted && ArchiveCounts(zip) ==> (entries.Some? <==> Unpacks(name, zip))
    {
      faulted := false;
      var files := lib.unzip(zip);
      if files.None? {
        return None, false;
      }
      var workDir: string := *;
      var tree, _, extractFaulted := ExtractZip(if workDir == "" then "." else workDir, files.value, limits);
      if tree.Err? {
        return None, extractFaulted;
      }
      var body, stripFaulted := StripTopLevel(name, tree.value);
      if body.None? {
        return None, stripFaulted;
      }
      var stampFails: bool := *;
      if stampFails || (MARKER in body.value && body.value[MARKER].Folder?) {
        return None, stampFails;
      }
      assert ComesFrom(lib, name, want, zip, body.value);
      entries := Some(body.value[MARKER := File(want)]);
    }

    predicate CacheHit(slots: Slots, slot: Slot, s: SkillSource) {
      var marker := FileInSlot(slots, slot, MARKER);
      marker.Some? && TrimSpace(marker.value) == NormalizeSha256(s.hash)
    }

    /** Whatever lay at the skill's directory or below it is gone, and nothing else. */
    predicate Cleared(files: map<string, Dir>, skills: map<string, Slots>, key: string, slot: Slot)
      reads fs
    {
      && FilesOf(fs.files, key) == FilesWithout(FilesOf(files, key), PlaceOf(slot))
      && SlotsOf(fs.skills, key) == SlotsWithout(SlotsOf(skills, key), PlaceOf(slot))
    }

    /** Downloads the archive into a staging directory and checks its hash. */
    method FetchArchive(s: SkillSource, response: Response) returns (ok: bool, zip: Bytes)
      modifies fs`halted, fs`faulted
      ensures ok ==> response.Streamed? && zip == BodyOf(response.stream) && lib.sha(zip) == NormalizeSha256(s.hash)
      ensures old(fs.faulted) ==> fs.faulted
      ensures !fs.faulted && ResponseCounts(Options(zipMax, 0), response) ==>
        (ok <==> Delivery(lib.sha, Options(zipMax, 0), response) == Ok(NormalizeSha256(s.hash)))
    {
      zip := "";
      ok := fs.Proceed(); // MkdirTemp
      if !ok {
        return;
      }
      var actual, body, faulted := Fetch(lib.sha, Options(zipMax, 0), response);
      if faulted {
        fs.faulted := true;
      }
      if actual.Err? || actual.value != NormalizeSha256(s.hash) {
        return false, zip;
      }
      zip := body.value;
    }

    /** The part of Install after a cache miss: the old directory goes before the download. */
    method Replace(key: string, slot: Slot, s: SkillSource, response: Response) returns (ok: bool)
      requires slot.skill == s.name
      modifies fs
      ensures OnlyKey(old(fs.files), fs.files, key) && OnlyKey(old(fs.skills), fs.skills, key)
      ensures FilesKept(FilesOf(old(fs.files), key), FilesOf(fs.files, key), PlaceOf(slot))
      ensures SlotsKept(SlotsOf(old(fs.skills), key), SlotsOf(fs.skills, key), PlaceOf(slot))
      ensures ok ==>
        slot in SlotsOf(fs.skills, key)
        && IsInstall(lib, s.name, NormalizeSha256(s.hash), SlotsOf(fs.skills, key)[slot])
      ensures !ok ==> slot !in SlotsOf(fs.skills, key) || SlotsOf(fs.skills, key) == SlotsOf(old(fs.skills), key)
      ensures Proper(slot) && SkillsSound(lib, SlotsOf(old(fs.skills), key)) ==>
        SkillsSound(lib, SlotsOf(fs.skills, key))
      ensures old(fs.faulted) ==> fs.faulted
      ensures !fs.faulted && !ok ==> Cleared(old(fs.files), old(fs.skills), key, slot)
      ensures ok || !fs.faulted ==> NoFileAt(FilesOf(fs.files, key), PlaceOf(slot))
      ensures !fs.faulted && Countable(response) ==> (ok <==> Delivers(s, response))
    {
      hide ComesFrom, IsInstall, SkillsSound, PlaceOf, Unpacks;
      var want := NormalizeSha256(s.hash);
      ghost var files, skills := fs.files, fs.skills;
      ghost var slots := SlotsOf(skills, key);
      ghost var place := PlaceOf(slot);
      ok := fs.RemoveSlot(key, slot);
      if !ok {
        return;
      }
      UpdateIsLocal(files, key, FilesOf(fs.files, key));
      UpdateIsLocal(skills, key, SlotsOf(fs.skills, key));
      if SkillsSound(lib, slots) {
        RemovalIsSound(lib, slots, place);
      }
      var fetched, zip := FetchArchive(s, response);
      if !fetched {
        return false;
      }
      var entries, unpackFaulted := Unpack(s.name, want, zip);
      if unpackFaulted {
        fs.faulted := true;
      }
      if entries.None? {
        return false;
      }
      ghost var rest := SlotsOf(fs.skills, key);
      ok := fs.PublishSlot(key, slot, entries.value);
      if ok {
        ghost var body :| ComesFrom(lib, s.name, want, zip, body) && entries.value == body[MARKER := File(want)];
        FreshInstallIsSound(lib, rest, SlotsOf(fs.skills, key), slot, zip, body);
      }
    }

    /** Install: success leaves the skill's directory equal to a stamped, stripped extraction of
        an archive of the declared hash. A failure after a cache miss loses what was there:
        without faults it leaves everything as it was if and only if the source is invalid or
        no skill lay at or below that directory. Whatever lies elsewhere is untouched, and the
        markers of proper directories stay truthful. */
    method Install(key: string, agent: string, s: SkillSource, response: Response) returns (ok: bool, ghost hit: bool)
      modifies fs
      ensures OnlyKey(old(fs.files), fs.files, key) && OnlyKey(old(fs.skills), fs.skills, key)
      ensures FilesKept(FilesOf(old(fs.files), key), FilesOf(fs.files, key), PlaceOf(Slot(agent, s.name)))
      ensures SlotsKept(SlotsOf(old(fs.skills), key), SlotsOf(fs.skills, key), PlaceOf(Slot(agent, s.name)))
      ensures ok && Proper(Slot(agent, s.name)) && SkillsSound(lib, SlotsOf(old(fs.skills), key)) ==>
        Slot(agent, s.name) in SlotsOf(fs.skills, key)
        && IsInstall(lib, s.name, NormalizeSha256(s.hash), SlotsOf(fs.skills, key)[Slot(agent, s.name)])
      ensures Proper(Slot(agent, s.name)) && SkillsSound(lib, SlotsOf(old(fs.skills), key)) ==>
        SkillsSound(lib, SlotsOf(fs.skills, key))
      ensures !SkillOk(checks, s) ==> !ok && fs.files == old(fs.files) && fs.skills == old(fs.skills)
      ensures !ok ==>
        Slot(agent, s.name) !in SlotsOf(fs.skills, key) || SlotsOf(fs.skills, key) == SlotsOf(old(fs.skills), key)
      ensures old(fs.faulted) ==> fs.faulted
      // a hit changes nothing; after a miss no file is in the place of the directory; without
      // faults a failure removes what was there, and a miss succeeds exactly if the archive is
      // delivered
      ensures hit ==> ok && fs.files == old(fs.files) && fs.skills == old(fs.skills)
      ensures !hit && SkillOk(checks, s) && (ok || !fs.faulted) ==>
        NoFileAt(FilesOf(fs.files, key), PlaceOf(Slot(agent, s.name)))
      ensures !fs.faulted && !ok && SkillOk(checks, s) ==>
        Cleared(old(fs.files), old(fs.skills), key, Slot(agent, s.name))
      ensures !fs.faulted && !ok ==>
        (SlotsOf(fs.skills, key) == SlotsOf(old(fs.skills), key)
         <==> !SkillOk(checks, s) || Vacant(SlotsOf(old(fs.skills), key), PlaceOf(Slot(agent, s.name))))
      ensures !fs.faulted && SkillOk(checks, s) && Proper(Slot(agent, s.name)) ==>
        && (hit <==> CacheHit(SlotsOf(old(fs.skills), key), Slot(agent, s.name), s))
        && (!hit && Countable(response) ==> (ok <==> Delivers(s, response)))
      ensures !fs.faulted && SkillOk(checks, s) && Countable(response) && Delivers(s, response) ==> ok
    {
      if !SkillOk(checks, s) {
        return false, false;
      }
      var slot := Slot(agent, s.name);
      var cached := fs.ReadInSlot(key, slot, MARKER);
      if cached.Some? && TrimSpace(cached.value) == NormalizeSha256(s.hash) {
        assert SkillsSound(lib, SlotsOf(fs.skills, key)) && Proper(slot) ==>
          SlotSound(lib, SlotsOf(fs.skills, key), slot);
        return true, true;
      }
      RemovalShowsIff(SlotsOf(fs.skills, key), PlaceOf(slot));
      hit := false;
      ok := Replace(key, slot, s, response);
    }
  }
}
