# Verified model of the agent deployer

The agent deployer takes a request that describes a graph of agents, stores it as one
document per deployment, installs the tools and skills the agents declare, and runs a
container over the result. This project models that logic in Dafny and proves what the
deployer is meant to guarantee. `dafny verify dfyconfig.toml` checks all of it.

## What is modelled

- **Store of one deployment** (`Document`, `RoundTrip`, `Store`, `Migration`, `Reading`,
  `Storage`).
  `AgentStorage.WriteAgentYAML` works step by step on a data directory in which every
  operation can fail and the process can die in front of any operation (`FileSystem`): a dead
  process leaves a disk that later steps no longer reach, so each contract speaks of every
  cut-off point. `Store.CallEffect` is what one call can leave behind, and
  `Store.HistoriesRefineARegister` shows that every history of such calls refines an atomic
  register holding one graph, whatever artifacts are installed in between. `RoundTrip` and
  `Migration` relate what is read to what was written, by this version or an earlier one;
  `Reading` says which answer any document and files explain.
- **Graph validation** (`Model`, `Validate`, `Cycle`, `Accepted`, with `Text` for trimming and
  letter case). The one-pass checks and the three-colour search are proved equivalent to
  `Model.ValidRequest`, which states the rules with quantifiers; `Accepted` says what that
  amounts to on the fields of a request.
- **Artifacts** (`Download`, `Archive`, `Tools`, `Skills`, `ToolLists`, `SkillDirs`, `Artifacts`,
  `Installed`, with `Paths` for Go's lexical path operations). Streams arrive in arbitrary
  chunks; limits, caches and the installation over a whole graph are proved for all of them.
  `Installed` says what an install needs and leaves, file by file, and what a container finds.
- **Lifecycle** (`Naming`, `Docker`, `Lifecycle`, `Readiness`, `Steps`, `Listing`, `Service`). The
  operations are methods over containers and disk; `Lifecycle.Step` is what one operation may
  do to its deployment, `Readiness.CreationOutcome` what a creation leaves among its files, and
  the lemmas there speak of every run.

Specification functions (`BuildDoc`, `ReadGraph`, `NormAgent`, `Extraction`, `Stripped`,
`Responses`, ...) carry no contracts of their own: the methods are proved against them, and
lemmas below say what they mean on raw fields and paths.

## Hypotheses

They appear as preconditions or antecedents, never as axioms.

- Calls on one key are serial; the code takes no lock.
- A crash is the death of the process: completed operations stay.
- YAML and JSON encoding, SHA-256, the zip reader and the network are function parameters.
  `Codec.Lawful` says that decoding inverts encoding up to `omitempty`. A Go string is a
  sequence of chars, one for each byte; trimming and lower-casing are those of ASCII.
- Collision freedom is assumed only where it is named: `Store.NoClash` (16-digit prefixes of
  prompts of one id) and `RoundTrip.SidecarHarmless` (a leftover sidecar against the one new
  document, only when that document embeds no declarations). `SafeAfterCommitIff` and
  `HarmlessIsQuiet` show that these are exactly what the store needs.
- Nothing in the deployment's directories is a symbolic link.
- URL parsing, the remaining per-field checks of a node and the provider, aigc, hub and token
  settings are uninterpreted predicates (`Model.Checks`); the runtime image check is an input
  of `Create`.

## Where the code differs from its comments

- `internal/tools/installer.go` says that every failure leaves the previous artifact untouched.
  When the marker cannot be written after the rename the artifact is already replaced, and an
  old marker can survive beside it: `UnstampedReplacementPoisons`. The files stay sound if and
  only if no marker of another hash was there before the call: `UnstampedReplacementIsSoundIff`.
- `internal/skills/installer.go` says that previously installed skills are left in place on
  failure. That holds for other skills; the skill being installed is removed before its
  download. A failure without faults keeps the skills if and only if the source is invalid or
  none lay at or below that directory (`SkillInstaller.Install`).
- A purge of a name without letters or digits addresses the data directory itself:
  `PurgeIsLocalIff`.
- Agent names `.` and `..` pass validation but do not denote a skill directory of their own:
  `SkillDirIsOwnIff`. A skill `agents.yaml` of an agent `..` takes the place of the document just
  committed, or removes it when its download fails: `SkillInstallIsStepIff`. Such a request is
  accepted: `DotDotRequestIsAccepted`; no other skill reaches the document:
  `DocumentOutOfReachIff`. The phases of a key are therefore claimed where its creations are
  `DocumentApart`, and the readiness of artifacts for creations that are `SkillDirsApart`; both
  are checks on names. One container per key, and the agreement of Get and List, hold regardless.

## Model

| member | source | states |
|---|---|---|
| `Store.HistoriesRefineARegister` | internal/storage/storage.go:260-297 | Over every serial history of writes on one key, each cut off or failing at any file-system step, with tools and skills installed before, between and after them, a read returns the normal form of the last request whose rename happened, whatever the start held (even a corrupt document) up to a sidecar that could be taken for one of that request; without a rename, what it returned at the start |
| `Store.RegisterInvariant` | internal/storage/storage.go:265-297 | The same for the files: after any such history the last committed document is in place with every prompt it names; before any commit the document and the sidecar of the start are untouched, and so are its live prompts if no request replaces one |
| `Store.ArtifactsKeepRegister` | internal/service/agent.go:156-170 | Installing tools or skills between two writes does not touch what the store holds |
| `Storage.AgentStorage.WriteAgentYAML` | internal/storage/storage.go:137-298 | Every cut-off or failure point leaves the files of the key in a state of `CallEffect`; an error is returned exactly when the document was not committed; other keys are untouched; without faults a storable request commits and exactly its prompts remain in `prompts/` |
| `Store.WriteTouches` | internal/storage/storage.go:259-297 | Wherever it is cut off, a write touches its document and the copy it stages, the old sidecar, and files directly in `prompts/`; it takes away sidecar and prompt files only, after its commit |
| `Store.KeptIff` | internal/storage/storage.go:386-390 | The clean-up keeps `prompts/<id>-<16 digits>.md` of each prompt of the request, and nothing else there |
| `Storage.AgentStorage.StagePrompts` | internal/storage/storage.go:335-378 | Prompts of the request are staged and nothing else changes; on success all of them hold their text |
| `Storage.AgentStorage.StagePrompt` | internal/storage/storage.go:337-349 | One agent: a matching file is left alone, otherwise it is replaced; other files survive |
| `Storage.AgentStorage.ReplacePrompt` | internal/storage/storage.go:353-375 | Temporary sibling, sync, rename: at every failure point only a new file of `prompts/` or the complete prompt can appear |
| `Storage.TempEffect` | internal/storage/storage.go:353-375 | All outcomes once the temporary file exists (left behind, renamed, removed) are permitted stagings |
| `Storage.AgentStorage.BuildDocument` | internal/storage/storage.go:144-253 | The loops over the agents build the document and prompt references of the specification, for any order of repeated ids |
| `Storage.AgentStorage.CollectGarbage` | internal/storage/storage.go:386-402 | Only unreferenced prompt files go, whatever removals fail; without faults every remaining prompt file is referenced |
| `Storage.AgentStorage.ReadAgents` | internal/storage/storage.go:511-573 | Reads the entries in order up to the first that fails, and finds the root entry by id |
| `Storage.AgentStorage.ReadAgentYAML` | internal/storage/storage.go:489-597 | On an undisturbed disk returns exactly the graph, or exactly the error, that document, prompts and declarations determine; any other result is a reported read fault |
| `Reading.OnlyReadIsExplained` | internal/storage/storage.go:489-597 | A read answers the one thing that document and files explain: which failure comes first, or the graph with the root, the entries and the declarations that apply |
| `Reading.EntryIsRead` | internal/storage/storage.go:511-565 | An entry is read if and only if it carries its prompt or names a file that is there below `prompts/`; the file decides where both are given, an entry without a name lends its id, and the session cap may stand under its old key |
| `Storage.KeptArePlaced` | internal/storage/storage.go:386-390 | What the clean-up keeps are files that exist after a commit and lie directly in `prompts/` |
| `Storage.PlacedStaysPlaced` | internal/storage/storage.go:335-349 | Staging a later agent keeps the prompts staged before it |
| `Store.StagingKeepsGraph` | internal/storage/storage.go:265-272 | A write cut off before its commit leaves a readable graph as it was, if no live prompt is replaced by other text |
| `Store.StagingIsInvisibleIffSafe` | internal/storage/storage.go:335-376 | For a fully staged, uncommitted write that condition is exact: the graph reads as before if and only if no live prompt is replaced by other text |
| `Store.SafeAfterCommitIff` | internal/storage/storage.go:302-314 | After a committed write staging the next request is safe if and only if no prompt shares its 16-digit hash prefix with a different prompt of the same id |
| `Store.StagingKeepsHolds` | internal/storage/storage.go:328-334 | Staging another request keeps every prompt of the committed one, given no such clash |
| `Store.StagingKeepsEntry` | internal/storage/storage.go:536-565 | A readable entry reads the same after a safe staging |
| `Store.CommitHolds` | internal/storage/storage.go:278-297 | After a commit, cut off anywhere in the clean-up, the new document and all prompts it names are in place, and a leftover sidecar is the old one |
| `Store.PruningKeepsHolds` | internal/storage/storage.go:380-402 | No subset of clean-up removals touches the committed document or its prompts |
| `Store.GarbageCollectionIsInvisible` | internal/storage/storage.go:386-413 | In every intermediate state of the clean-up the deployment reads as the same graph |
| `Store.UniqueIdsAreCoherent` | internal/storage/storage.go:311-326 | With unique ids two prompts of a request never share a file unless they are equal |
| `Store.LiveFilesOf` | internal/storage/storage.go:167-174 | The files a committed document refers to are exactly prompt files of its own agents |
| `Store.OwnPromptsAreKept` | internal/storage/storage.go:386-399 | The clean-up keeps every prompt of the committed request |
| `Store.StagedKeepsFixedFiles` | internal/storage/storage.go:270-272 | Staging changes neither `agents.yaml` nor the sidecar |
| `RoundTrip.WriteThenRead` | internal/storage/storage.go:509-596 | Round trip: a committed request reads back as its normal form if and only if no leftover sidecar interferes |
| `RoundTrip.CommittedReads` | internal/storage/storage.go:577-596 | What a committed request reads back as, whatever sidecar is left |
| `RoundTrip.HarmlessIsQuiet` | internal/storage/storage.go:441-466 | A sidecar that is left behind stays out of the read if and only if, before the write, it was unread, bound to another document, or silent about the agents |
| `RoundTrip.EntryRoundTrip` | internal/storage/storage.go:154-191 | Each entry reads back as the normal form of its agent, prompt text included, without its artifact declarations |
| `RoundTrip.EmbeddedRoundTrip` | internal/storage/storage.go:218-227 | The embedded declarations complete the agents to their normal form; if none are embedded there were none |
| `RoundTrip.SidecarEffect` | internal/storage/storage.go:453-464 | A bound sidecar leaves an artifact-free graph alone if and only if it declares nothing for its agents |
| `RoundTrip.NormIdempotent` | internal/storage/storage.go:176-191 | The normal form is idempotent |
| `RoundTrip.NormLosesNothing` | internal/model/model.go:563-592 | For an accepted graph the normal form changes only empty collections and the root's missing setting sources, which become `project` |
| `RoundTrip.NormHasNoEmpty` | internal/storage/storage.go:33-108 | Nothing in a normal form is present and empty |
| `RoundTrip.WireLosesNothing` | internal/storage/storage.go:33-130 | What encoding is assumed to drop is only what is present and empty |
| `RoundTrip.RewriteIsStable` | internal/storage/storage.go:153-255 | Writing back what was read yields the same document byte for byte |
| `RoundTrip.EntryShape` | internal/storage/storage.go:154-211 | What a read does not show, and where everything goes: prompts only as `./prompts/<id>-<16 digits>.md`, credentials and runtime-global fields on the root alone, tool paths sorted and complete, the directory `/app/config/skills/<id>` iff skills are declared, the other fields unchanged |
| `RoundTrip.DocumentShape` | internal/storage/storage.go:213-253 | One entry per agent in the request's order, the root marked, the optional sections exactly when enabled, the explicit hint on unless refused |
| `RoundTrip.PromptFileNameInjective` | internal/storage/storage.go:311-313 | A prompt file name determines the agent id and the hash prefix |
| `RoundTrip.PromptRefResolves` | internal/storage/storage.go:543-547 | The reference written into the document resolves to the file that was staged, and the clean-up recognises it |
| `RoundTrip.FileNameIsSegment` | internal/storage/storage.go:311-313 | A prompt file is a direct entry of `prompts/` |
| `RoundTrip.PromptRefsSpec` | internal/storage/storage.go:317-326 | References exist exactly for agents with a prompt and name that agent's file |
| `RoundTrip.EmbeddedSpec` | internal/storage/storage.go:218-227 | Declarations are embedded exactly for agents that have some, unchanged |
| `RoundTrip.ReadEntriesPointwise` | internal/storage/storage.go:511-573 | Reading all entries succeeds exactly when each can be read, and then entry by entry |
| `Migration.MigrationPreservesMeaning` | internal/storage/storage.go:441-466 | A legacy deployment that is read, rewritten and read again shows the same graph up to normal form, whether its sidecar was dropped or not, and whichever document the sidecar is bound to, other than the new one |
| `Migration.BoundSidecarIsHarmless` | internal/storage/storage.go:453-455 | A sidecar bound to the legacy document is harmless for the new one, if the digest tells the two apart |
| `Migration.WriteBackAcceptedIff` | internal/storage/storage.go:505-518 | A graph that was read can be written back if and only if some entry is named as the root, or has its id and no name: reading looks for the id, writing for the name |
| `Migration.LegacyGraphIsStorable` | internal/storage/storage.go:505-508 | A legacy graph read under its directory name meets what the writer demands |
| `Migration.LegacyContentSurvives` | internal/storage/storage.go:566-595 | Inline prompts, the root's session cap under its old key and the declarations of the sidecar survive the migration |
| `Migration.ForeignSidecarIsIgnored` | internal/storage/storage.go:453-455 | A sidecar bound to another generation contributes nothing |
| `Migration.BoundSidecarCounts` | internal/storage/storage.go:456-464 | A sidecar bound to the document contributes its declarations |
| `Migration.GraphNames` | internal/storage/storage.go:511-518 | A graph has the names of the document's entries, in order, an entry without a name lending its id; its root is an entry id |
| `Validate.ValidateRequest` | internal/model/model.go:497-652 | The ordered one-pass checks accept exactly the requests that meet the quantified specification; a reported cycle is genuine |
| `Accepted.RequestIff` | internal/model/model.go:497-652 | Acceptance on the fields of the request: spelling of ids and key, which is its own sanitized form; distinct ids and a root among them; every agent declares what it may and fits in; no chain of references comes back; declarations of one name agree |
| `Accepted.AgentOkIff` | internal/model/model.go:706-778 | The declarations an agent may make, on its own fields |
| `Accepted.FitsInIff` | internal/model/model.go:563-610 | The root has a model and a prompt that are not blank, the others no runtime-global field; references name other agents, each once; skills need the source `user` |
| `Accepted.ToolOkIff` | internal/model/model.go:170-190 | A tool is accepted if and only if name, url and hash are and its file name ends in one of the four extensions |
| `Accepted.SkillOkIff` | internal/model/model.go:104-112 | A skill is accepted if and only if name, url and hash are |
| `Accepted.HashIff` | internal/model/model.go:79-130 | A hash is accepted for a digest if and only if it spells its 64 digits, in either case, bare or behind `sha256:`, with white space around |
| `Accepted.RoundTripIff` | internal/model/model.go:656-692 | The reference map has a cycle if and only if some chain of agents, each listing the next one, comes back |
| `Validate.CheckNodes` | internal/model/model.go:545-556 | Accepts exactly unique ids and valid nodes, and collects the ids |
| `Validate.ValidateAgent` | internal/model/model.go:706-778 | Accepts exactly the valid nodes; the duplicate-file check never decides |
| `Validate.ValidateTools` | internal/model/model.go:746-761 | The loop over two maps accepts exactly valid tools of distinct names; its second duplicate check is unreachable |
| `Validate.NewNameMeansNewFile` | internal/model/model.go:756-760 | A tool of a new name has a new local file |
| `Validate.AgentById` | internal/model/model.go:397-404 | Finds an agent exactly when the id exists |
| `Validate.CheckRuntimeGlobal` | internal/model/model.go:572-592 | Accepts exactly graphs whose other agents declare no runtime-global field |
| `Validate.CheckReferencesOf` | internal/model/model.go:595-609 | Accepts exactly resolved references without self or duplicate references; each error names a real fault |
| `Validate.CheckReferences` | internal/model/model.go:594-610 | The same for all agents of the graph |
| `Validate.ShareTools` | internal/model/model.go:625-634 | The index keeps one declaration per tool name that agrees with all seen; a reported clash is real |
| `Validate.ShareSkills` | internal/model/model.go:635-644 | The same for skills |
| `Validate.CheckSharing` | internal/model/model.go:618-649 | The one-pass sharing check is equivalent to pairwise agreement of url and hash, together with skill visibility |
| `Validate.IndexedToolsAgree` | internal/model/model.go:618-634 | An index without clash means pairwise agreement |
| `Cycle.DetectSubagentCycle` | internal/model/model.go:656-692 | Terminates and fails if and only if the references contain a cycle, for every order of traversing the map; the reported path with its last reference is a walk ending in a cycle |
| `Cycle.Detector.Visit` | internal/model/model.go:668-683 | One visit blackens its agent, keeps the gray path and the ranks of black agents, and only reports genuine cycles; it never meets an unknown id |
| `Cycle.GenuineMeansCycle` | internal/model/model.go:672-674 | A reported path and reference contain a closed walk |
| `Cycle.RankedMeansAcyclic` | internal/model/model.go:681-683 | If every agent is finished after all it refers to, there is no cycle |
| `Model.DelegationIsBounded` | internal/model/model.go:594-616 | In an accepted request every delegation walk visits distinct agents of the request, so it follows fewer edges than there are agents |
| `Model.AcyclicWalksAreDistinct` | internal/model/model.go:612-616 | Without cycles a walk never returns to an agent |
| `Model.ResolvedReferencesAreClosed` | internal/model/model.go:594-610 | After the reference checks the search never looks up a missing id |
| `Model.ReferencesOfAgents` | internal/model/model.go:663-666 | With unique ids the reference map holds every agent's own references |
| `Model.LocalFileNameInjective` | internal/model/model.go:154-158 | The local file name determines a tool's name and extension |
| `Naming.SanitizeIsNormalForm` | internal/naming/naming.go:29-33 | Sanitizing yields a sanitized key, is idempotent, and changes nothing exactly on sanitized keys |
| `Naming.SanitizeSeparates` | internal/naming/naming.go:29-33 | A character that is no letter or digit separates: both sides are sanitized by themselves, with one hyphen in between |
| `Naming.SanitizeLowers` | internal/naming/naming.go:32 | A word of letters and digits only changes its case |
| `Naming.SanitizedIsSegment` | internal/model/model.go:513-521 | A validated deployment key is a single path segment, so the store accepts it |
| `Lifecycle.SanitizesToKeyIff` | internal/naming/naming.go:29-33 | A name sanitizes to a non-empty key if and only if it contains a letter or digit |
| `Paths.CleanIdempotent` | internal/skills/installer.go:294 | The segment stack machine of the path cleaning is idempotent |
| `Paths.CleanDescends` | internal/skills/installer.go:294 | Descending into a directory adds its name; a dot or an empty segment changes nothing |
| `Paths.CleanAscends` | internal/skills/installer.go:294 | Going up undoes the last descent |
| `Paths.CleanClimbs` | internal/skills/installer.go:294 | Going up from the top stays there on a rooted path and climbs on another one |
| `Archive.TargetIsBelow` | internal/skills/installer.go:287-307 | An entry that passes the checks on its name lands at the destination followed by its own segments; the final relative-path check then rejects exactly names whose first segment starts with `..` |
| `Archive.CheckName` | internal/skills/installer.go:287-307 | The chain of name checks accepts a set of names that does not depend on the destination |
| `Archive.NameAcceptedIff` | internal/skills/installer.go:287-307 | Which names are accepted, on their characters and segments |
| `Archive.CheckedSegments` | internal/skills/installer.go:288-303 | Names that pass their own checks do not climb |
| `Archive.PromptCheckContains` | internal/storage/storage.go:543-546 | The prompt prefix check admits exactly references whose clean form lies strictly below `prompts/` |
| `Archive.ExtractZip` | internal/skills/installer.go:263-283 | Without local faults extraction succeeds if and only if the archive is acceptable and within its limits, for every chunking; bytes written never exceed a positive total limit, even on failure |
| `Archive.ExtractionIff` | internal/skills/installer.go:263-357 | An archive can be extracted if and only if each entry is sound and none puts a file where another one needs a directory, whatever the order |
| `Archive.ExtractionFiles` | internal/skills/installer.go:304-356 | At each path lies the body of the last file entry whose whole name leads there, and no file where there is no such entry |
| `Archive.ExtractionDirs` | internal/skills/installer.go:304-322 | The directories are those that an entry names or needs |
| `Archive.ExtractedAt` | internal/skills/installer.go:304-356 | One entry changes its own path and the directories on the way, and nothing else |
| `Archive.ExtractedIff` | internal/skills/installer.go:286-356 | An entry can be extracted if and only if its name is accepted, no file is on its way, its stream is whole and no directory stands at its path |
| `Archive.PutFileAt` | internal/skills/installer.go:312-322 | A file appears in an existing directory, not over one, and the others stay |
| `Archive.MkdirAllAt` | internal/skills/installer.go:304-312 | Making directories keeps every file |
| `Archive.ExtractEntry` | internal/skills/installer.go:286-357 | One entry yields the tree it should, or it is refused, broken or over a limit |
| `Archive.ExtractFile` | internal/skills/installer.go:312-356 | A file entry ends with exactly its content at its path |
| `Archive.CopyStream` | internal/skills/installer.go:332-356 | The read loop copies exactly the body, stops at the entry and total limits, and its int64 counters do not wrap |
| `Archive.EntryExtracts` | internal/skills/installer.go:272-281 | Every entry of an acceptable archive can be extracted after those before it |
| `Download.Fetch` | internal/download/fetch.go:87-172 | For every chunking: success means the file is the body and the digest is that of the whole body; without local faults a body within its bounds arrives, and any other is refused as oversize, broken or too small; the file never exceeds a positive limit |
| `Download.StreamLaws` | internal/download/fetch.go:148-167 | What the chunks amount to: one that reports an end or an error still counts, and nothing after it does |
| `Download.ChunkStep` | internal/download/fetch.go:148-167 | The bytes read so far are a prefix of the body, and all of it once the reader reports its end |
| `Tools.ToolInstaller.Install` | internal/tools/installer.go:102-172 | An install leaves the cache as `ToolStep` allows; a returned path means the file is there with the declared hash; without faults a hit downloads nothing and a miss succeeds exactly if the download has the hash |
| `Tools.LocalRelPathResolves` | internal/model/model.go:160-163 | The path written into the document resolves to the file that is installed |
| `Installed.ToolHitIff` | internal/tools/installer.go:113-120 | A download is spared if and only if the file `tools/<name><ext>` is there and the marker beside it names the digest that the hash asks for, with white space around |
| `Installed.ToolDeliversIff` | internal/tools/installer.go:133-165 | A download is right if and only if the whole body arrives, within the bounds, and has that digest |
| `Tools.ToolInstaller.Replace` | internal/tools/installer.go:121-172 | After a cache miss: without faults the install succeeds exactly if the download has the declared hash, and whatever it returns the files changed at most by that artifact and its marker |
| `Tools.ToolInstaller.StampTool` | internal/tools/installer.go:166-172 | The marker follows the rename; a failed stamp is reported |
| `Tools.UnstampedReplacementIsSoundIff` | internal/tools/installer.go:166-171 | When the marker cannot be written after the rename, all files it can leave keep markers truthful if and only if no marker of another hash was found before the call |
| `Tools.InstallKeepsCacheSound` | internal/tools/installer.go:113-172 | An install that stamps what it renames, or found no marker of another hash, keeps the cache sound |
| `Tools.RunsKeepCacheSound` | internal/tools/installer.go:113-172 | Over every run of such installs a marker never lies |
| `Tools.UnstampedReplacementPoisons` | internal/tools/installer.go:166-171 | A rename without its stamp can leave an old marker beside new content, contrary to the comment that failures leave the artifact untouched |
| `Tools.ToolPathsAreApart` | internal/tools/installer.go:107-109 | Different tools never share a file, nor a file with a marker |
| `Skills.SkillInstaller.Install` | internal/skills/installer.go:111-214 | Success leaves the directory equal to a stamped, stripped extraction of an archive of the declared hash. Without faults a hit changes nothing, a miss succeeds exactly if such an archive is delivered, and a failure removes whatever lay at or below the directory, so that it keeps the skills if and only if the source is invalid or none lay there. Files and skills elsewhere are untouched; markers stay truthful |
| `Installed.SkillHitIff` | internal/skills/installer.go:119-126 | A download is spared if and only if the marker in the directory names the digest that the hash asks for |
| `Installed.SkillDeliversIff` | internal/skills/installer.go:139-211 | A skill can be installed from a response if and only if the archive has that digest, is within the limits, its entries are sound and do not clash, and it can be stripped and stamped |
| `Installed.InstallHoldsArchive` | internal/skills/installer.go:187-211 | An installed directory holds each file of an archive of that digest at its path, less the wrapper, and the marker |
| `Skills.SkillInstaller.Replace` | internal/skills/installer.go:128-213 | The part after a cache miss: the old directory goes before the download, and without faults success means delivery, failure means loss |
| `Skills.SkillInstaller.FetchArchive` | internal/skills/installer.go:139-185 | The archive is accepted exactly if the download has the declared hash |
| `Skills.OwnDirectoryVacantIff` | internal/skills/installer.go:128 | Among skills of proper names, clearing the directory of one loses exactly that one |
| `Skills.RemovalShowsIff` | internal/skills/installer.go:128 | Clearing a directory changes the skills if and only if one lay at or below it |
| `Skills.SkillInstaller.Unpack` | internal/skills/installer.go:187-206 | Extraction, stripping and stamping of a verified archive succeed exactly if it is acceptable, within its limits and can be stripped and stamped |
| `Skills.StripTopLevel` | internal/skills/installer.go:228-259 | Moving entry by entry amounts to removing the wrapper; it fails exactly when the wrapper contains an entry of its own name |
| `Skills.StrippedIff` | internal/skills/installer.go:222-259 | The wrapper goes if and only if the directory of the skill's name is all there is; every path loses that segment and nothing else changes |
| `Skills.FreshInstallIsSound` | internal/skills/installer.go:202-211 | A directory just moved into place has a truthful marker, and the other skills keep theirs |
| `Artifacts.ArtifactInstaller.InstallClosureTools` | internal/service/artifacts.go:19-39 | On a valid graph every tool name is installed once, each agent lists exactly the files of its names without repetition, and every listed file has the hash this agent declared; it succeeds if the downloads are right; markers stay truthful unless a stamp fails over a marker of another hash that was there before |
| `Artifacts.ArtifactInstaller.InstallToolsOf` | internal/service/artifacts.go:23-36 | The inner loop for one agent |
| `Artifacts.ArtifactInstaller.InstallOnce` | internal/service/artifacts.go:24-32 | A name already installed is not installed again |
| `Artifacts.ArtifactInstaller.InstallNext` | internal/service/artifacts.go:24-35 | One turn of the inner loop: the next tool is installed and its path, which is new, is listed |
| `Artifacts.ArtifactInstaller.InstallNew` | internal/service/artifacts.go:26-31 | A tool of a new name: the tools before it stay, and a marker is spoiled only by a failed stamp over one of another hash |
| `Artifacts.ArtifactInstaller.InstallClosureSkills` | internal/service/artifacts.go:49-69 | Where every agent that declares skills has a directory of its own, success means that all of them are installed with their hashes; for all agents nothing outside the declared skill directories changes |
| `Artifacts.ArtifactInstaller.InstallSkillsOf` | internal/service/artifacts.go:62-66 | The inner loop for one agent keeps what was installed before |
| `ToolLists.RelsDistinct` | internal/service/artifacts.go:33-35 | The paths of an agent's tools are distinct |
| `ToolLists.ListedToolsAreThere` | internal/service/artifacts.go:24-35 | Each path an agent lists leads to a file with the hash of its tool |
| `ToolLists.OthersStayPresent` | internal/service/artifacts.go:24-32 | Installing a tool keeps the files of tools of other names |
| `ToolLists.SharedHash` | internal/model/model.go:618-634 | The first declaration of a name has the hash every agent declares for it |
| `SkillDirs.SkillDirIsOwnIff` | internal/service/artifacts.go:56 | A skill directory holds no other agent's skill and no file outside `skills/` if and only if the agent's name is a directory entry |
| `FileSystem.PlaceOfSlot` | internal/service/artifacts.go:56 | Where the names of a valid request put a skill: `.` and `..` lead elsewhere |
| `FileSystem.RemovalTakesTree` | internal/skills/installer.go:128 | The removal of a skill's own directory takes the files at `skills/<agent>/<skill>` and below, and no other |
| `FileSystem.ProperSlotsAreApart` | internal/service/artifacts.go:41-48 | Skill directories of directory-entry names never overlap |
| `SkillDirs.DocumentOutOfReachIff` | internal/skills/installer.go:116-130 | For a valid graph, on every disk, the document survives the removal of the declared skill directories if and only if no agent `..` declares a skill `agents.yaml` |
| `Service.AgentService.Create` | internal/service/agent.go:88-218 | Invalid requests change nothing; an existing container is returned unchanged without force; otherwise a step on this key alone, within the state machine if no skill directory is the document; the stored graph afterwards is the old one or the request's, the request's once a container was tried; markers stay truthful; whenever container creation is attempted the disk is ready for it; without faults it succeeds, and the response describes the new container |
| `Service.AgentService.NewestMeans` | internal/service/agent.go:141-217 | The labels of the created container and the fields of the answer, on the request: name, key, root, instance, running, paths of files, directories of artifacts iff declared, the time of the answer and the token |
| `Service.AgentService.Rebuild` | internal/service/agent.go:131-187 | The old container is stopped and removed before anything is built; the calls to Docker happen in this order |
| `Service.AgentService.Deploy` | internal/service/agent.go:141-217 | Tools, document, skills, container in this order: the container is created only over a committed document and installed artifacts; the response lists the directories of artifacts exactly if the graph declares any |
| `Service.AgentService.Provide` | internal/service/agent.go:145-170 | The disk part, with the outcome of a creation wherever it stops; where no skill directory is the document, it is there afterwards, after a failure if it was there before |
| `Service.AgentService.ProvideDocument` | internal/service/agent.go:145-163 | Tools and document: one write of this request, cut off anywhere, over files that differ from those found by artifacts only |
| `Readiness.DeploymentIsReady` | internal/service/agent.go:156-170 | From sound caches, own skill directories and a harmless sidecar: after tools, document and skills, the document reads back as this request and all artifacts are installed |
| `Readiness.StillHarmless` | internal/service/agent.go:156-163 | A sidecar found harmless before the call is harmless for the document that is written, whatever tool paths it lists |
| `Steps.SkillInstallIsStepIff` | internal/skills/installer.go:116-214 | Over an archived deployment a skill install that misses its cache stays within the state machine, whether it succeeds or fails without faults, if and only if the skill is not `agents.yaml` of an agent `..`; otherwise the document is gone, and the container of a success has none |
| `Steps.DotDotRequestIsAccepted` | internal/model/model.go:497-652 | Validation accepts a whole request whose root agent `..` declares a skill `agents.yaml` |
| `Steps.RebuildIsStep` | internal/service/agent.go:131-187 | Losing the old container, changing files and adding a container over a document is a step of the machine |
| `Steps.DeletionIsStep` | internal/service/agent.go:402-414 | Losing the container, and files only in a purge after that, is a step of the machine |
| `Readiness.CreationIsAtomic` | internal/service/agent.go:145-170 | Wherever a creation stops, the deployment reads as it did before or as this request, as this request exactly once its document is committed |
| `Readiness.CreationsRefineARegister` | internal/service/agent.go:145-170 | Crash atomicity of whole creations: after any serial run of them on one key, whatever is installed and wherever each stops, the deployment reads as the normal form of the last request that was committed, or as at the start |
| `Readiness.OutcomeOfCreation` | internal/service/agent.go:145-170 | What a creation leaves: old graph or new, truthful markers unless a fault meets a marker of another hash, no new sidecar, and everything the container needs once it is tried |
| `Readiness.RunsKeepCachesSound` | internal/service/agent.go:145-170 | Over every run of such creations from the empty directory the markers of tools and skills stay truthful and no sidecar appears |
| `Readiness.RunsAreReady` | internal/service/agent.go:145-187 | Pre-start completeness: in every such run, whenever a container is tried, the document reads back as its request and every declared tool and skill is on disk with its hash |
| `Installed.DeploymentServes` | internal/service/agent.go:145-187 | Once a container is tried, the document on disk names the agents in order, and every entry leads to its prompt, to a file of the right name and digest for each of its tools and to nothing else, and to the directory that holds its skills' archives |
| `Installed.RunsAreServed` | internal/service/agent.go:145-187 | The same over every run of creations |
| `Readiness.ToolsStayInstalled` | internal/service/agent.go:156-163 | Whatever leaves the files of tools alone leaves them installed with their hashes |
| `Readiness.WriteKeepsTools` | internal/storage/storage.go:265-297 | Writing the document, cut off anywhere, leaves the files of tools alone |
| `Readiness.ValidIsStorable` | internal/service/agent.go:89-91 | A validated request meets what the store and the installers demand |
| `Service.AgentService.StopAndRemove` | internal/service/agent.go:131-138 | Success means that one container of the key is gone |
| `Service.AgentService.FindManaged` | internal/service/agent.go:224-231 | The first container of the key, if any |
| `Service.AgentService.Get` | internal/service/agent.go:244-258 | The response for the sanitized name: its container, else its archived data, else not found |
| `Service.AgentService.List` | internal/service/agent.go:267-301 | The responses of the current state in strictly increasing order of their keys: every container, archived deployments as far as they can be examined, and all of them without faults |
| `Storage.AgentStorage.ListAgentDirs` | internal/storage/storage.go:637-673 | The keys of deployments in strictly increasing order; one that cannot be examined is skipped, and without faults none is missing |
| `Listing.AddArchived` | internal/service/agent.go:279-290 | Archived deployments are added unless a container is present |
| `Listing.SortedIsListing` | internal/service/agent.go:292-300 | Sorting the collected responses gives each key once, in increasing order |
| `Service.AgentService.ChangeState` | internal/service/agent.go:361-388 | Stop and Restart leave phase, files and other keys alone, and fail without a container |
| `Service.AgentService.Delete` | internal/service/agent.go:396-417 | A step of the state machine; without purge the files stay; a purge without faults removes exactly the tree of the key; markers stay truthful unless a purge meets a fault |
| `Lifecycle.RunsKeepSingletons` | internal/service/agent.go:117-187 | In every state of every run each key has at most one container, and every key in use is sanitized |
| `Lifecycle.RunsKeepHealth` | internal/service/agent.go:117-187 | Where no creation of a key has a skill in the place of its document, whatever happens to other keys, its container is there only with the document |
| `Lifecycle.RunsFollowTheMachine` | internal/service/agent.go:360-417 | An operation moves its own key along absent, archived, active where creations of that key leave its document alone; creating without force over a container changes nothing; in every run an operation leaves phase, containers, files and skills of other keys alone |
| `Lifecycle.AllowedIff` | internal/service/agent.go:360-417 | The machine on documents and containers: a container needs a document; creating loses no document, and a container only by force; deleting makes neither, and a document goes only in a purge; stopping and restarting change neither |
| `Lifecycle.StepLeavesOthers` | internal/service/agent.go:111-115 | A step on one key changes no other key's containers, files or skills |
| `Lifecycle.GetAndListAgree` | internal/service/agent.go:244-301 | In every state of every run List with archived entries reports exactly the keys for which Get succeeds, with equal responses |
| `Lifecycle.GetShowsPhase` | internal/service/agent.go:239-258 | Get reports nothing for an absent key, archived exactly when only the document is left, and otherwise the labels and the state of the container, an unknown state as such; the file layout is the same in both cases |
| `Lifecycle.LastContainerStays` | internal/service/agent.go:273-277 | The map of responses keeps the last container of a key |
| `Lifecycle.PurgeIsLocalIff` | internal/service/agent.go:411-414 | A purge by name, of the path that joining data directory and key yields, leaves other deployments alone, on every disk, if and only if the name contains a letter or digit |
| `FileSystem.PurgedTrees` | internal/service/agent.go:413 | The purged path holds the one tree of its key, or everything for the empty key |
| `Docker.DockerClient.CreateAgentContainer` | internal/docker/client.go:217-291 | A failed creation may leave the new container behind, in any state |
| `Docker.DockerClient.RemoveContainer` | internal/docker/client.go:309-314 | Success removes the container; after an error it may be gone |
| `Docker.DockerClient.ChangeState` | internal/docker/client.go:293-306 | Stopping or restarting changes at most the state of that container |
| `Docker.DockerClient.FindAgentContainer` | internal/docker/client.go:130-147 | The first of the containers labelled with the key |
| `Docker.FirstOfIsFirst` | internal/docker/client.go:137-146 | No container of the key comes before it |
| `Order.SortByIsSort` | internal/service/agent.go:298-300 | Sorting gives an ordered permutation |
| `Order.LexLeIff` | internal/service/agent.go:298-300 | The order puts a prefix first and otherwise compares the first byte that differs |

## Left out

- Text of errors, HTTP handlers, authentication, health endpoints and configuration.
- The HTTP request and its redirects and status codes; a response is refused or streamed.
- The runtime image tag comparison, container logs and the health status of a container.
- File modes, symbolic links, fsync and the loss of power.
- Interleaved requests on one key.
- Staging files of the tool and skill installers are local values: a crash can leave such
  files on disk, where nothing reads them. The removal of an installed skill is one step.
- The contents of skill directories are kept apart from the other files of a deployment, one
  entry for each pair of agent and skill name. What lies at or below a directory is removed
  with it, in both places; what a new directory brings along besides its own entry, and what is
  read in the directory of an agent `.` or `..`, is left open. A directory that stands where a
  file is wanted counts as a fault of the operation that meets it; one in place of the document,
  which Get and List would show, is no document here.
- Directories are implicit in the paths of files, so an empty directory is not represented
  except inside an extracted archive.
- Stop and Restart leave the new state of the container open; Docker decides it.
- Atomicity of the tool files together with the document: tools are replaced before the commit.
