/** What it takes for a request to be accepted, said of the request's own fields: no trimmed text,
    no lower-cased text, no reference map. */
module Accepted {
  import opened Common
  import opened Paths
  import opened Text
  import opened Naming
  import opened Model

  const DIGITS := "0123456789"
  const LOWER := "abcdefghijklmnopqrstuvwxyz"
  const UPPER := "ABCDEFGHIJKLMNOPQRSTUVWXYZ"

  /** An id or a deployment key as it may be spelled. */
  predicate IsName(s: string) {
    1 <= |s| <= 64 && forall i :: 0 <= i < |s| ==> s[i] in LOWER || s[i] in UPPER || s[i] in DIGITS || s[i] in "._-"
  }

  lemma LetterOrDigit(c: char)
    ensures IsAlnum(c) <==> c in LOWER || c in UPPER || c in DIGITS
  {
  }

  lemma NameIff(s: string)
    ensures MatchesNamePattern(s) <==> IsName(s)
  {
    forall i | 0 <= i < |s|
      ensures IsAlnum(s[i]) <==> s[i] in LOWER || s[i] in UPPER || s[i] in DIGITS
    {
      LetterOrDigit(s[i]);
    }
  }

  // ---- Hashes ------------------------------------------------------------------------------

  /** The digest a declaration may ask for: 64 hexadecimal digits, letters in lower case. */
  predicate IsDigest(digits: string) {
    |digits| == 64 && forall i :: 0 <= i < |digits| ==> digits[i] in DIGITS || digits[i] in "abcdef"
  }

  /** The same character, or the same letter as a capital. */
  predicate SpellsChar(c: char, d: char) {
    c == d || exists k :: 0 <= k < 26 && c == UPPER[k] && d == LOWER[k]
  }

  predicate Spells(s: string, t: string) {
    |s| == |t| && forall i :: 0 <= i < |s| ==> SpellsChar(s[i], t[i])
  }

  /** A declared hash asks for this digest: it is spelled in either case, bare or behind
      "sha256:", with white space around. */
  ghost predicate AsksFor(hash: string, digits: string) {
    exists front: string, x: string, back: string ::
      && hash == front + x + back && AllSpaces(front) && AllSpaces(back)
      && (Spells(x, digits) || Spells(x, "sha256:" + digits))
  }

  lemma LettersInOrder(k: nat)
    requires k < 26
    ensures UPPER[k] == 'A' + k as char && LOWER[k] == 'a' + k as char
  {
  }

  lemma SpellsCharIff(c: char, d: char)
    requires d !in UPPER
    ensures SpellsChar(c, d) <==> LowerChar(c) == d
  {
    forall k: nat | k < 26
      ensures UPPER[k] == 'A' + k as char && LOWER[k] == 'a' + k as char
    {
      LettersInOrder(k);
    }
    if 'A' <= c <= 'Z' {
      var k := (c - 'A') as nat;
      assert c == UPPER[k];
      assert LowerChar(c) == LOWER[k];
      assert c in UPPER;
    }
  }

  predicate NoCapitals(s: string) {
    forall i :: 0 <= i < |s| ==> s[i] !in UPPER
  }

  lemma SpellsIff(s: string, t: string)
    requires NoCapitals(t)
    ensures Spells(s, t) <==> ToLower(s) == t
  {
    if |s| == |t| {
      forall i | 0 <= i < |s|
        ensures SpellsChar(s[i], t[i]) <==> ToLower(s)[i] == t[i]
      {
        SpellsCharIff(s[i], t[i]);
      }
      if Spells(s, t) {
        assert ToLower(s) == t;
      }
    }
  }

  lemma DigestIff(digits: string)
    ensures IsDigest(digits) <==> IsSha256Hex(digits)
  {
    forall i | 0 <= i < |digits|
      ensures IsHex(digits[i]) <==> digits[i] in DIGITS || digits[i] in "abcdef"
    {
    }
  }

  lemma HexIsNoCapital(c: char)
    requires IsHex(c)
    ensures c !in UPPER
  {
  }

  lemma NoCapitalsConcat(s: string, t: string)
    requires NoCapitals(s) && NoCapitals(t)
    ensures NoCapitals(s + t)
  {
  }

  lemma PrefixedDigest(digits: string)
    requires IsSha256Hex(digits)
    ensures NoCapitals(digits) && NoCapitals("sha256:" + digits) && !("sha256:" <= digits)
  {
    assert !IsHex("sha256:"[0]);
    assert NoCapitals("sha256:");
    forall i | 0 <= i < |digits|
      ensures digits[i] !in UPPER
    {
      HexIsNoCapital(digits[i]);
    }
    NoCapitalsConcat("sha256:", digits);
  }

  lemma LowerHasNoWhite(x: string)
    requires forall i :: 0 <= i < |x| ==> !IsWhite(LowerChar(x[i]))
    ensures forall i :: 0 <= i < |x| ==> !IsWhite(x[i])
  {
  }

  lemma AcceptedAsks(hash: string)
    requires HashOk(hash)
    ensures AsksFor(hash, NormalizeSha256(hash))
  {
    hide IsSha256Hex, Spells, AllSpaces, NoCapitals;
    var digits := NormalizeSha256(hash);
    PrefixedDigest(digits);
    var front, back := TrimSpaceStrips(hash);
    var x := TrimSpace(hash);
    SpellsIff(x, digits);
    SpellsIff(x, "sha256:" + digits);
    assert "sha256:" <= ToLower(x) ==> ToLower(x) == "sha256:" + ToLower(x)[7..];
    assert Spells(x, digits) || Spells(x, "sha256:" + digits);
    assert hash == front + x + back;
  }

  lemma AskedIsTrimmed(front: string, x: string, back: string, digits: string)
    requires AllSpaces(front) && AllSpaces(back) && IsSha256Hex(digits)
    requires Spells(x, digits) || Spells(x, "sha256:" + digits)
    ensures HashOk(front + x + back) && NormalizeSha256(front + x + back) == digits
  {
    PrefixedDigest(digits);
    SpellsIff(x, digits);
    SpellsIff(x, "sha256:" + digits);
    LowerHasNoWhite(x);
    TrimSpaceDrops(front, x, back);
    assert ("sha256:" + digits)[7..] == digits;
  }

  /** A hash is accepted as the declaration of a digest exactly when it asks for it. */
  lemma HashIff(hash: string, digits: string)
    ensures HashOk(hash) && NormalizeSha256(hash) == digits <==> IsDigest(digits) && AsksFor(hash, digits)
  {
    hide Spells, AllSpaces, Blank, NormalizeSha256, IsSha256Hex, IsDigest;
    DigestIff(digits);
    if IsSha256Hex(digits) && AsksFor(hash, digits) {
      var front, x, back :| hash == front + x + back && AllSpaces(front) && AllSpaces(back)
                            && (Spells(x, digits) || Spells(x, "sha256:" + digits));
      AskedIsTrimmed(front, x, back, digits);
    }
    if HashOk(hash) {
      AcceptedAsks(hash);
    }
  }

  // ---- Artifacts -----------------------------------------------------------------------------

  ghost predicate HasHash(hash: string) {
    exists digits :: IsDigest(digits) && AsksFor(hash, digits)
  }

  lemma HasHashIff(hash: string)
    ensures HasHash(hash) <==> HashOk(hash)
  {
    if HasHash(hash) {
      var digits :| IsDigest(digits) && AsksFor(hash, digits);
      HashIff(hash, digits);
    }
    HashIff(hash, NormalizeSha256(hash));
  }

  predicate IsArtifactName(name: string) {
    IsName(name) && name != "." && name != ".."
  }

  predicate EndsIn(s: string, end: string) {
    |s| >= |end| && s[|s| - |end|..] == end
  }

  predicate IsScript(fileName: string) {
    EndsIn(fileName, ".ts") || EndsIn(fileName, ".mts") || EndsIn(fileName, ".js") || EndsIn(fileName, ".mjs")
  }

  lemma NameIsNotBlank(s: string)
    requires MatchesNamePattern(s)
    ensures !Blank(s)
  {
    BlankIff(s);
    assert !IsWhite(s[0]);
  }

  lemma ArtifactNameIff(name: string)
    ensures ArtifactNameOk(name) <==> IsArtifactName(name)
  {
    NameIff(name);
    if MatchesNamePattern(name) {
      NameIsNotBlank(name);
    }
  }

  lemma EndIsExt(s: string, end: string)
    requires end in TOOL_EXTENSIONS
    ensures EndsIn(s, end) <==> Ext(s) == end
    ensures EndsIn(s, end) ==> !Blank(s)
  {
    if EndsIn(s, end) {
      assert s == s[..|s| - |end|] + end;
      ExtOfConcat(s[..|s| - |end|], end);
      BlankIff(s);
      assert s[|s| - 1] == end[|end| - 1];
    }
    ExtIsSuffix(s);
  }

  lemma ScriptIff(fileName: string)
    ensures !Blank(fileName) && Ext(fileName) in TOOL_EXTENSIONS <==> IsScript(fileName)
  {
    EndIsExt(fileName, ".ts");
    EndIsExt(fileName, ".mts");
    EndIsExt(fileName, ".js");
    EndIsExt(fileName, ".mjs");
  }

  lemma SkillOkIff(checks: Checks, s: SkillSource)
    ensures SkillOk(checks, s) <==> IsArtifactName(s.name) && checks.url(s.url) && HasHash(s.hash)
  {
    ArtifactNameIff(s.name);
    HasHashIff(s.hash);
  }

  lemma ToolOkIff(checks: Checks, t: ToolSource)
    ensures ToolOk(checks, t) <==>
      IsArtifactName(t.name) && checks.url(t.url) && HasHash(t.hash) && IsScript(t.fileName)
  {
    ArtifactNameIff(t.name);
    HasHashIff(t.hash);
    ScriptIff(t.fileName);
  }

  // ---- Agents ----------------------------------------------------------------------------------

  /** The declarations of one agent. */
  ghost predicate Declares(checks: Checks, a: Agent) {
    && IsName(a.name) && checks.node(a)
    && (forall s :: s in Elems(a.skills) ==> IsArtifactName(s.name) && checks.url(s.url) && HasHash(s.hash))
    && (forall t :: t in Elems(a.customTools) ==>
          IsArtifactName(t.name) && checks.url(t.url) && HasHash(t.hash) && IsScript(t.fileName))
    && (forall i, j :: 0 <= i < |Elems(a.customTools)| && 0 <= j < |Elems(a.customTools)| && i != j ==>
          Elems(a.customTools)[i].name != Elems(a.customTools)[j].name)
  }

  lemma AgentOkIff(checks: Checks, a: Agent)
    ensures AgentOk(checks, a) <==> Declares(checks, a)
  {
    hide ToolOk, SkillOk, IsArtifactName, HasHash, IsScript, MatchesNamePattern, IsName;
    NameIff(a.name);
    if MatchesNamePattern(a.name) {
      NameIsNotBlank(a.name);
    }
    forall s | s in Elems(a.skills)
      ensures SkillOk(checks, s) <==> IsArtifactName(s.name) && checks.url(s.url) && HasHash(s.hash)
    {
      SkillOkIff(checks, s);
    }
    forall t | t in Elems(a.customTools)
      ensures ToolOk(checks, t) <==>
        IsArtifactName(t.name) && checks.url(t.url) && HasHash(t.hash) && IsScript(t.fileName)
    {
      ToolOkIff(checks, t);
    }
  }

  /** The place of an agent in its request: only the root is configured for the runtime, and it is
      complete; references name other agents, each once; skills need the setting source "user". */
  predicate FitsIn(r: CreateRequest, a: Agent) {
    && (if a.name == r.rootId then
          !AllSpaces(a.model) && !AllSpaces(a.systemPrompt)
        else
          a.model == a.permissionMode == a.effort == "" && a.maxSessionQueries == None && a.thinking == None)
    && (forall i :: 0 <= i < |Elems(a.subagents)| ==>
          var ref := Elems(a.subagents)[i];
          && ref != a.name && ref !in Elems(a.subagents)[..i]
          && exists k :: 0 <= k < |r.agents| && r.agents[k].name == ref)
    && (a.skills.Some? && a.skills.value != [] ==> a.settingSources.Some? && "user" in a.settingSources.value)
  }

  lemma FitsInIff(r: CreateRequest, a: Agent)
    ensures FitsIn(r, a) <==>
      && (if a.name == r.rootId then RootComplete(a) else RuntimeGlobalFree(a))
      && ReferencesOk(r.agents, a) && SkillsVisible(a)
  {
    BlankIff(a.model);
    BlankIff(a.systemPrompt);
    var refs := Elems(a.subagents);
    if ReferencesOk(r.agents, a) {
      forall i | 0 <= i < |refs|
        ensures refs[i] != a.name && refs[i] !in refs[..i]
        ensures exists k :: 0 <= k < |r.agents| && r.agents[k].name == refs[i]
      {
        assert refs[i] in Elems(a.subagents);
        var b :| b in r.agents && b.name == refs[i];
      }
    }
    if FitsIn(r, a) {
      forall ref | ref in refs
        ensures ref != a.name && HasId(r.agents, ref)
      {
        var i :| 0 <= i < |refs| && refs[i] == ref;
        var k :| 0 <= k < |r.agents| && r.agents[k].name == ref;
        assert r.agents[k] in r.agents;
      }
      forall i, j | 0 <= i < j < |refs|
        ensures refs[i] != refs[j]
      {
        assert refs[j] !in refs[..j] && refs[..j][i] == refs[i];
      }
    }
  }

  // ---- Requests --------------------------------------------------------------------------------

  /** A round trip over agents, each of which lists the next one. */
  predicate IsRoundTrip(agents: seq<Agent>, trip: seq<nat>) {
    && |trip| >= 2 && trip[0] == trip[|trip| - 1]
    && (forall k :: 0 <= k < |trip| ==> trip[k] < |agents|)
    && forall k {:trigger trip[k]} :: 0 <= k < |trip| - 1 ==>
         agents[trip[k + 1]].name in Elems(agents[trip[k]].subagents)
  }

  lemma NextIsListed(agents: seq<Agent>, i: nat, id: string)
    requires UniqueIds(agents) && i < |agents| && id in Elems(agents[i].subagents)
    ensures agents[i].name in References(agents) && id in References(agents)[agents[i].name]
  {
    hide References;
    ReferencesOfAgents(agents);
    assert agents[i] in agents;
  }

  lemma TripIsCycle(agents: seq<Agent>, trip: seq<nat>)
    requires UniqueIds(agents) && IsRoundTrip(agents, trip)
    ensures HasCycle(References(agents))
  {
    hide References, UniqueIds, Elems;
    var walk := seq(|trip|, k requires 0 <= k < |trip| => agents[trip[k]].name);
    forall k {:trigger walk[k]} | 0 <= k < |walk| - 1
      ensures walk[k] in References(agents) && walk[k + 1] in References(agents)[walk[k]]
    {
      assert agents[trip[k + 1]].name in Elems(agents[trip[k]].subagents);
      NextIsListed(agents, trip[k], walk[k + 1]);
    }
    assert IsCycle(References(agents), walk);
  }

  ghost function IndexOf(agents: seq<Agent>, id: string): (i: nat)
    requires id in Ids(agents)
    ensures i < |agents| && agents[i].name == id
  {
    var a :| a in agents && a.name == id;
    var i: nat :| i < |agents| && agents[i] == a;
    i
  }

  lemma CycleStaysInside(agents: seq<Agent>, walk: seq<string>)
    requires IsCycle(References(agents), walk)
    ensures forall k :: 0 <= k < |walk| ==> walk[k] in Ids(agents)
  {
    hide References;
    ReferencesOfAgents(agents);
    forall k | 0 <= k < |walk|
      ensures walk[k] in References(agents)
    {
      assert walk[0] in References(agents);
    }
  }

  lemma ListsNext(agents: seq<Agent>, i: nat, id: string)
    requires UniqueIds(agents) && i < |agents|
    requires agents[i].name in References(agents) && id in References(agents)[agents[i].name]
    ensures id in Elems(agents[i].subagents)
  {
    hide References;
    ReferencesOfAgents(agents);
    assert agents[i] in agents;
  }

  lemma CycleIsTrip(agents: seq<Agent>, walk: seq<string>)
    requires UniqueIds(agents) && IsCycle(References(agents), walk)
    ensures exists trip :: IsRoundTrip(agents, trip)
  {
    hide References, UniqueIds, Ids, Elems;
    CycleStaysInside(agents, walk);
    var trip := seq(|walk|, k requires 0 <= k < |walk| => IndexOf(agents, walk[k]));
    forall k {:trigger trip[k]} | 0 <= k < |trip| - 1
      ensures agents[trip[k + 1]].name in Elems(agents[trip[k]].subagents)
    {
      assert walk[k + 1] in References(agents)[walk[k]];
      ListsNext(agents, trip[k], walk[k + 1]);
    }
    assert IsRoundTrip(agents, trip);
  }

  /** Declarations of one name ask for one thing. */
  predicate SameMeaning(a: Agent, b: Agent) {
    && (forall s, t :: s in Elems(a.customTools) && t in Elems(b.customTools) && s.name == t.name ==>
          s.url == t.url && s.hash == t.hash)
    && (forall s, t :: s in Elems(a.skills) && t in Elems(b.skills) && s.name == t.name ==>
          s.url == t.url && s.hash == t.hash)
  }

  lemma SameMeaningIff(a: Agent, b: Agent)
    ensures SameMeaning(a, b) <==> ToolsAgreeBetween(a, b) && SkillsAgreeBetween(a, b)
  {
    hide Elems;
    if ToolsAgreeBetween(a, b) {
      forall s, t | s in Elems(a.customTools) && t in Elems(b.customTools) && s.name == t.name
        ensures s.url == t.url && s.hash == t.hash
      {
        assert ToolsAgree(s, t);
      }
    }
    if SkillsAgreeBetween(a, b) {
      forall s, t | s in Elems(a.skills) && t in Elems(b.skills) && s.name == t.name
        ensures s.url == t.url && s.hash == t.hash
      {
        assert SkillsAgree(s, t);
      }
    }
  }

  lemma SharedIff(agents: seq<Agent>)
    ensures ToolsShared(agents) && SkillsShared(agents) <==>
      forall a, b :: a in agents && b in agents ==> SameMeaning(a, b)
  {
    hide SameMeaning, ToolsAgreeBetween, SkillsAgreeBetween;
    forall a, b
      ensures SameMeaning(a, b) <==> ToolsAgreeBetween(a, b) && SkillsAgreeBetween(a, b)
    {
      SameMeaningIff(a, b);
    }
  }

  lemma RoundTripIff(agents: seq<Agent>)
    requires UniqueIds(agents)
    ensures HasCycle(References(agents)) <==> exists trip :: IsRoundTrip(agents, trip)
  {
    hide References, IsRoundTrip, IsCycle;
    if trip :| IsRoundTrip(agents, trip) {
      TripIsCycle(agents, trip);
    }
    if HasCycle(References(agents)) {
      var walk :| IsCycle(References(agents), walk);
      CycleIsTrip(agents, walk);
    }
  }

  /** A request is accepted exactly when its ids and key are well spelled and the key is its own
      sanitized form; no two agents share an id and one has the root's; every agent declares
      what it may and fits in; no chain of references comes back; and declarations agree. */
  lemma RequestIff(checks: Checks, r: CreateRequest)
    ensures ValidRequest(checks, r) <==>
      && IsName(r.rootId) && IsName(r.key) && SanitizeName(r.key) == r.key && checks.settings(r)
      && (forall i, j :: 0 <= i < |r.agents| && 0 <= j < |r.agents| && i != j ==> r.agents[i].name != r.agents[j].name)
      && (exists i :: 0 <= i < |r.agents| && r.agents[i].name == r.rootId)
      && (forall i :: 0 <= i < |r.agents| ==> Declares(checks, r.agents[i]) && FitsIn(r, r.agents[i]))
      && !(exists trip :: IsRoundTrip(r.agents, trip))
      && (forall a, b :: a in r.agents && b in r.agents ==> SameMeaning(a, b))
  {
    hide AgentOk, Declares, FitsIn, RootComplete, RuntimeGlobalFree, ReferencesOk, SkillsVisible, SameMeaning,
      ToolsShared, SkillsShared, References, IsName, MatchesNamePattern, SanitizeName, IsSanitized, IsRoundTrip;
    NameIff(r.rootId);
    NameIff(r.key);
    SanitizeIsNormalForm(r.key);
    SharedIff(r.agents);
    forall a
      ensures AgentOk(checks, a) <==> Declares(checks, a)
      ensures FitsIn(r, a) <==>
        && (if a.name == r.rootId then RootComplete(a) else RuntimeGlobalFree(a))
        && ReferencesOk(r.agents, a) && SkillsVisible(a)
    {
      AgentOkIff(checks, a);
      FitsInIff(r, a);
    }
    if UniqueIds(r.agents) {
      RoundTripIff(r.agents);
    }
  }
}
