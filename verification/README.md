# Skill and memory tools: a Dafny model

The repository keeps a catalog of skills and a memory of past work for a team of coding agents. Each skill is a
folder with a `SKILL.md` whose frontmatter says who wrote it and hashes its body. This project models the tools that
move those files and proves what each keeps, over every input, every interleaving and every number of runs.

| files | what they model |
|---|---|
| `Wrappers`, `Text`, `Frontmatter`, `FrontmatterLaws`, `Normalize` | strip, split, line breaks, the two frontmatter readers |
| `Writer`, `Reading`, `Create` | rendering a skill and reading it back; the create protocol, alone and under concurrency |
| `Patch` | the body patch that re-stamps a skill in place |
| `Trees`, `Collect`, `Rename`, `CollectLaws`, `CollectCases`, `CollectRuns` | merging an author's skills into the catalog |
| `Sync`, `SyncLaws`, `Pipeline` | flattening the catalog into a live folder; the two tools composed and repeated |
| `SkillIndex`, `SkillEntry` | the server's index over several roots and its parse cache |
| `Watcher`, `WatcherLaws`, `WatcherRuns`, `WatcherPolls`, `Watchdog`, `Scan` | the vault watcher's event loop, its stall watchdog and its scan |
| `Budget`, `Collector`, `CollectorLaws`, `Recapture`, `RecaptureLaws` | collecting a session's turns and filing one learning per session |
| `ListingParse`, `ListingBudget`, `ListingLaws`, `Harvest`, `HarvestLaws` | the listing simulator and the evaluation pairs |
| `Witnesses` | inputs on which a tool does less than one might expect |

Programs that update state are classes whose methods are proved against functions on values (`Catalog`, `LiveFolder`,
`SkillFile`, `PsiWatcher`, `Pass`, `Server`, `CaptureHook`, `TurnCollector`); the laws are lemmas about those functions.
A file tree is a map from path to text, SHA-256 is an arbitrary function to hexadecimal text, and priorities are reals.

Where the code does less than its documentation or a reader might expect, the model follows the code and gives the
exact condition:

- A stamped value that holds `---` ends the block for the split readers, though not for the server's line reader, so
  `content_hash` is not found and a repeated `create` is refused instead of `exists-identical`
  (`Writer.RenderReadersAgree`, `Writer.HashReadBack`, `Create.RepeatIdentical`; `Witnesses.DashedDescription`).
- A collect run keeps the catalog well-formed exactly if each folder it places holds one skill and reads as the name it
  is placed under (`CollectRuns.MergeFaithful`). A copy does exactly if its new name holds no `---`, where its text opens
  with its name line (`CollectLaws.CopyReadsIff`); `created_by: --x` gives such a name, a legal folder name
  (`Witnesses.DashedAuthor`).
- A process that loses the create race and reads while the winner writes is told `exists-identical` exactly if the
  hashes agree, no value holds `---` and the closing fence is already written (`Create.MidReader`; `Create.EarlyReader`).
- A patch whose text brings in a line break other than a newline reads back normalised, and no longer hashes to its
  stamp (`Patch.PatchRoundTrip`; `Witnesses.PatchedReturn`).
- A body with a carriage return reads back from its file changed (`Reading.RenderedBodyRead`).
- A key written in a form `_set_fm_key` does not match, after one it does, keeps its old reading (`Patch.SetKeyReads`;
  `Witnesses.SpacedKey`).
- An index run fails only if its process cannot be started; one that exits with an error counts as indexed. A failed
  run is not tried again for its own sake: its vault is indexed again exactly if it was waiting or is scheduled later
  (`WatcherRuns.RetriedIff`; `WatcherRuns.FailedRunForgotten`).
- A session loses the learning it had exactly if a run replaces it, the removal gets as far as the index rows, and no
  attempt files the new one; its record then says otherwise (`RecaptureLaws.LosesIff`, `RecaptureLaws.Forgotten`).
- The budget's `dropped <= 0` exit is taken only by an empty run of turns under a negative budget
  (`Budget.EndsLeaveGap`).

## Model

| member | source | states |
|---|---|---|
| Pipeline.RoundConverges | tools/collect_commit.py:144-196 | If the live auto-skills lie at their own names and the first collect keeps the catalog well-formed (only a folder it places can fail this), one round of collect-from-live and sync-to-live reaches a fixpoint: the second round commits, renames, updates and archives nothing, skips every accepted skill, and leaves both trees as they are |
| Pipeline.PipelineConverges | tools/sync_skills.py:96-132 | However many rounds follow, in whatever order folders are listed, catalog and live folder stay what the first round made them |
| Pipeline.CollectableRound | tools/collect_commit.py:168-194 | The condition on the first collect holds for any live folder of the writer's skills, one to a folder, whose copy names cannot hold `---` |
| Pipeline.SyncInStep | tools/sync_skills.py:96-132 | After a sync the live folders the catalog provides equal the catalog's, file for file, and no auto-skill the catalog lacks is left |
| Pipeline.Survivors | tools/sync_skills.py:115-132 | Every auto-skill left in the live folder is a provided one, with the fields the catalog has for it |
| Pipeline.CollectAgain | tools/collect_commit.py:144-196 | Collecting from a folder that is in step skips every accepted skill and changes nothing |
| Pipeline.SyncAgain | tools/sync_skills.py:96-132 | Syncing again into a folder that is in step changes nothing and archives nothing |
| CollectRuns.IdentityStable | tools/collect_commit.py:128-194 | Over any sequence of runs over any sources that keep the catalog well-formed, a catalog skill stays at its place with its name, author and birth time |
| CollectRuns.StepKeepsEntry | tools/collect_commit.py:153-194 | One loop step over any source skill keeps every indexed name with its place and identity, and touches the entry of no other name |
| CollectRuns.MergeFaithful | tools/collect_commit.py:128-194 | The catalog is well-formed (folder is name, names unique) and its index exact throughout a run exactly if each folder the run places holds one skill and reads as the name it is placed under |
| CollectRuns.CollectableAllOk | tools/collect_commit.py:144-196 | So it is for sources of the writer's skills, one to a folder, whose copy names cannot hold `---`, on any catalog |
| CollectRuns.UnrenamedAllOk | tools/collect_commit.py:167-196 | And for any run that renames nothing, if each auto-skill folder holds one skill |
| CollectRuns.RunDeletesOnlyOwn | tools/collect_commit.py:182-188 | After any part of a run, the folder about to be deleted holds no catalog skill but the indexed one it replaces |
| CollectRuns.CopyFaithfulIff | tools/collect_commit.py:168-194 | A renamed copy keeps the catalog well-formed exactly if its new name holds no `---` |
| Witnesses.DashedAuthor | tools/collect_commit.py:171-194 | A catalog and a source where author `--x` makes the legal copy name ending in `---x`, and the step leaves the catalog with a folder that does not read as its name |
| Witnesses.DashedFoo | tools/collect_commit.py:171-194 | One such input: `foo` by `ann` and `foo` by `--x` |
| CollectRuns.Accounting | tools/collect_commit.py:144-196 | The auto-skill folders of a source are as many as committed, updated, skipped and rejected together |
| CollectRuns.FirstRunDecides | tools/collect_commit.py:153-196 | After a run over distinct names every accepted skill is settled or collides with another author's, and the renamed ones are exactly the colliding ones |
| CollectRuns.SecondRun | tools/collect_commit.py:153-196 | Of a run and the next over the same source: the next skips what is settled, renames the same skills again, updates nothing, and each of them whose copy name is usable becomes exactly one more catalog skill |
| CollectRuns.Idempotent | tools/collect_commit.py:153-196 | If the first run over distinct names, one skill to an auto-skill folder, renamed nothing, the second leaves the catalog unchanged and reports every accepted skill as skipped |
| CollectLaws.DeletesOnlyOwn | tools/collect_commit.py:153-188 | The folder a step deletes holds no catalog skill but the one indexed under the target name |
| CollectCases.IgnoresOthers | tools/collect_commit.py:145-146 | A folder whose `installer` is not `auto-skill` changes nothing |
| CollectCases.Refuses | tools/collect_commit.py:147-152 | An auto-skill whose name, or category (`uncategorized` if it reads none), is no usable folder name is refused once and changes nothing else |
| CollectCases.Adds | tools/collect_commit.py:153-196 | One whose name no catalog skill has goes to category/name, file for file, and nothing outside that folder changes |
| CollectCases.Skips | tools/collect_commit.py:156-160 | One that the catalog has with the same `content_hash` is skipped, whoever wrote it |
| CollectCases.Updates | tools/collect_commit.py:161-188 | One that the catalog has with another hash and the same `created_by` and `created_at` replaces the folder the catalog has it in, file for file |
| CollectCases.Renames | tools/collect_commit.py:168-196 | One that the catalog has with another hash and author is copied under the first of name-author, name-author-2, name-author-3, .. that no catalog skill has, its first `name: ` rewritten, if that is a usable folder name, and refused if not |
| CollectLaws.PlaceSkills | tools/collect_commit.py:187-193 | Placing a folder gives the catalog that skill as its rewritten text reads, and leaves every other skill as it was |
| CollectLaws.StepFaithful | tools/collect_commit.py:144-196 | A merge step keeps the catalog well-formed and its index exact if and only if it places nothing, or a folder that holds one skill and reads as the name it is placed under |
| CollectLaws.CopyReadsIff | tools/collect_commit.py:190-193 | A copy of a text that opens with its name line reads as its new name exactly if that holds no `---` |
| CollectLaws.StartFaithful | tools/collect_commit.py:128-131 | The index built from a well-formed catalog holds exactly its skills |
| CollectLaws.IndexUnique | tools/collect_commit.py:128-131 | A catalog has only one exact index, whatever order it is listed in |
| Collect.BadSegmentIff | tools/collect_commit.py:45-53 | A value has no reason to be refused exactly if it is a usable folder name: the dot and separator tests refuse nothing more than the pattern does |
| Collect.FreshName | tools/collect_commit.py:171-177 | The probe returns the first free numbered name and asks at most once more than there are names |
| Collect.TakenBound | tools/collect_commit.py:173-177 | All names up to number n taken means at least n - 1 names: the number suffixes never coincide |
| Collect.Catalog.constructor | tools/collect_commit.py:125-131 | The catalog starts with the index of its skills and empty lists |
| Collect.Catalog.PlaceSkill | tools/collect_commit.py:187-196 | Replaces the folder, rewrites the first name line of a renamed copy, indexes and reports it |
| Collect.Catalog.MergeOne | tools/collect_commit.py:144-196 | One loop body: ignore, reject with the reason, skip, update in place, or copy under a fresh name |
| Collect.Catalog.CollectFrom | tools/collect_commit.py:144-196 | The merge loop over every source skill |
| Rename.RenameReadBack | tools/collect_commit.py:190-193 | The rewritten copy reads as its new name, with nothing else changed, exactly if that name holds no `---` |
| Rename.RenderNameFirst | auto-skill/scripts/auto_skill.py:175-192 | What the writer renders opens with its name line and has no later one, so the rename finds the right place |
| Rename.DashSafeTarget | tools/collect_commit.py:171-176 | If the unnumbered copy name holds no `---`, no numbered one does |
| Trees.ReplaceSkills | tools/collect_commit.py:96-105 | After a folder is replaced by another, the skills below it are those of the other and the rest stay |
| Sync.LiveFolder.Flatten | tools/sync_skills.py:96-113 | The flatten loop: each catalog skill with a usable name replaces the live folder of that name |
| Sync.LiveFolder.Archive | tools/sync_skills.py:115-132 | The archive loop; `SyncLaws.ArchivedIff` says which folders it takes |
| Sync.Flattened | tools/sync_skills.py:97-113 | Every catalog skill with a usable name ends up in the live folder of its name, file for file |
| Sync.FlattenElsewhere | tools/sync_skills.py:97-113 | Outside the folders the catalog provides, flattening changes nothing |
| Sync.ArchivedOrKept | tools/sync_skills.py:117-132 | A visible entry is either moved away whole, or untouched and not one to archive |
| Sync.TrashKeeps | tools/sync_skills.py:126-132 | An archived folder is in the trash, file for file, at the end of the run |
| SyncLaws.ArchivedIff | tools/sync_skills.py:115-132 | After a whole sync a live folder whose name the catalog does not offer is gone from the live folder, in the trash file for file and reported, exactly if it is listed, does not start with a dot, has a SKILL.md that reads `installer` as `auto-skill`, and reads a name (else its own) that the catalog does not offer; every other such folder is as it was, file for file |
| SyncLaws.ProvidedKept | tools/sync_skills.py:97-132 | After a whole sync the live folder of a usable catalog name equals the catalog's folder, file for file, and is not archived, whatever it reads as |
| SyncLaws.SyncReports | tools/sync_skills.py:97-113 | A folder is reported as refused exactly if its name is unusable, and a name as synced exactly if it is usable and some folder has it |
| Frontmatter.ReadFrontmatter | auto-skill/scripts/auto_skill.py:155-172 | Without two fences, nothing and the whole text; else the key of a mapping is what stands before the first colon of some unindented line, its value what follows the colon in the last such line, stripped and unquoted, and the body is what follows the second fence without newlines in front |
| Frontmatter.ReadLinesFrom | skills-mcp/server.py:137-178 | A key is in the mapping of some lines exactly if an unindented one has a colon and its text before the first colon strips to the key; the value is from the last such line |
| Frontmatter.IrrelevantLine | auto-skill/scripts/auto_skill.py:166-168 | An empty or indented line, or one without a colon, changes nothing wherever it is put |
| Frontmatter.SplitIs | auto-skill/scripts/auto_skill.py:159-164 | The block is what stands between an opening fence at the very start and the next fence, the rest what follows; there is none exactly if one of the two is missing |
| FrontmatterLaws.LinesCases | auto-skill/scripts/auto_skill.py:166-166 | Splitting by cases: a text without breaks is its own line, a break ends a line, and CR LF is one break |
| FrontmatterLaws.UnquoteCases | auto-skill/scripts/auto_skill.py:147-152 | A value in double quotes is what is between them, one in single quotes has its pairs undone, any other is as it is |
| FrontmatterLaws.UndoubleCases | auto-skill/scripts/auto_skill.py:151-151 | Pairs of quotes are undone from the left and nothing else is changed |
| FrontmatterLaws.NewlinesOff | auto-skill/scripts/auto_skill.py:172-172 | Newlines, and nothing else, are taken off the front of the body |
| FrontmatterLaws.RawClosed | skills-mcp/server.py:181-194 | The line reader gives the lines between the opening fence and the first line after it that is `---`, spaces aside, and the lines after that joined, without newlines in front |
| FrontmatterLaws.RawOpen | skills-mcp/server.py:184-193 | Without these two fences it gives no lines and the text as it is |
| FrontmatterLaws.FlattenIs | auto-skill/scripts/auto_skill.py:143-144 | A value is written and read back without the space around it, and with a space for each newline and carriage return in it |
| Frontmatter.ReadersAgree | skills-mcp/server.py:137-178 | The split readers and the server's line reader return the same mapping when no line holds `---` |
| Frontmatter.UnquoteScalar | auto-skill/scripts/auto_skill.py:134-152 | Unquoting a rendered scalar gives back the flattened value |
| Frontmatter.FmFenced | tools/collect_commit.py:74-87 | A fenced text without `---` in its lines reads as its lines do |
| Frontmatter.RawFenced | skills-mcp/server.py:181-194 | The line reader finds the closing fence where it was put and returns the lines as they are |
| Writer.RenderRead | skills-mcp/server.py:137-178 | Reading a rendered skill with the line reader recovers every stamped field, flattened, and no other, with or without `---` in a value |
| Writer.RenderReadersAgree | auto-skill/scripts/auto_skill.py:155-172 | The split readers read a rendered skill as the line reader does exactly if no stamped value holds `---` |
| Writer.RenderedBody | auto-skill/scripts/auto_skill.py:155-172 | The body taken from the rendered text itself hashes to the stamped hash |
| Reading.RenderedBodyRead | auto-skill/scripts/auto_skill.py:356-356 | The body read back from the file in text mode is the stamped one exactly if that holds no carriage return, and then hashes to the stamp |
| Reading.RenderedFieldsRead | auto-skill/scripts/auto_skill.py:356-357 | Reading in text mode changes no field of a rendered skill |
| Writer.HashReadBack | auto-skill/scripts/auto_skill.py:188-188 | The stamped hash is read back exactly if no stamped value holds `---` |
| Writer.HashHidden | auto-skill/scripts/auto_skill.py:159-172 | A `---` in a stamped value hides the hash from the split reader |
| Writer.TruncatedRead | auto-skill/scripts/auto_skill.py:155-172 | A rendered text cut at a `---` reads as an initial part of its fields |
| Create.SkillFile.Create | auto-skill/scripts/auto_skill.py:296-368 | `create` and `create --stage` with and without `--force`: status, file and ledger in every case |
| Create.RepeatIdentical | auto-skill/scripts/auto_skill.py:356-359 | Creating the same body again is `exists-identical` exactly if no stamped value held `---` |
| Witnesses.DashedDescription | auto-skill/scripts/auto_skill.py:356-363 | A skill described as `a --- b` is refused when it is created again word for word |
| Create.FirstWriterWins | auto-skill/scripts/auto_skill.py:335-363 | Under every schedule of any number of processes, partial writes included: at most one reports created, only on a free name, and the file is then its rendering; identical goes only to the owner's hash; an existing file is never written; a staged name is logged once |
| Create.SomeoneCreates | auto-skill/scripts/auto_skill.py:347-354 | When all processes on a free name are done, one of them created the file |
| Create.CreatedStays | auto-skill/scripts/auto_skill.py:347-363 | Once a process has reported created, the file is its rendering however the others go on |
| Create.LateReader | auto-skill/scripts/auto_skill.py:356-363 | A loser that reads after the write is told identical exactly if the hashes agree and no stamped value holds `---` |
| Create.MidReader | auto-skill/scripts/auto_skill.py:356-363 | A loser that reads in mid-write is told identical exactly if the hashes agree, no stamped value holds `---`, and the writer is past its closing fence |
| Create.EarlyReader | auto-skill/scripts/auto_skill.py:356-363 | Its instance at no character written: a loser with the very same skill can be refused |
| Create.ExistingReader | auto-skill/scripts/auto_skill.py:356-363 | Where a file was there, whatever it holds, it stays under every schedule; every process that ends is told identical exactly if the `content_hash` it reads there is its own, else refused; nothing is logged |
| Create.CutHashIff | auto-skill/scripts/auto_skill.py:356-357 | A partly written rendering shows a hash exactly if it is the writer's, no stamped value holds `---`, and the closing fence is written |
| Patch.SetFmKey | skills-mcp/server.py:210-229 | The loop that replaces a key line in place or appends it |
| Patch.SetKeyReads | skills-mcp/server.py:210-229 | The key reads as the new value unless a later line that reads as the key is not one the function replaces; no other key changes |
| Witnesses.SpacedKey | skills-mcp/server.py:220-226 | Of `edited_by: a` and `edited_by : b` the first is replaced and the second goes on being read |
| Patch.SkillPatch | skills-mcp/server.py:631-680 | The patch: empty or equal strings, not found exactly if the body does not contain the string, ambiguous, refused because the frontmatter would no longer parse, or the one occurrence replaced, and the text carries hash, time and author of the result (next row) |
| Patch.PatchCarries | skills-mcp/server.py:655-669 | In the patched text read back `content_hash` is the hash of the new body, `edited_at` the time and `edited_by` the source, each exactly unless a line the tool does not replace is read last for it; every other key and every line but those of the three are as they were; the text ends with a newline; the body is the new one, up to the space around it, exactly if newlines are its only breaks, and then hashes to the `content_hash` read back |
| Patch.SourceIs | skills-mcp/server.py:656-659 | The author stamped is the first line of what was given, stripped, or `skills-mcp` where nothing was |
| Patch.CountFirst | skills-mcp/server.py:644-650 | Occurrences are counted from the left, each from the end of the one before |
| Patch.PatchReadBack | skills-mcp/server.py:655-669 | Splitting the patched text again gives the stamped lines as they are, and the body with its line breaks as newlines |
| Patch.PatchRoundTrip | skills-mcp/server.py:642-669 | For any text and any `edited_by`, the body read back is the patched one exactly if newlines are its only line breaks, and it then hashes to the stamp |
| Witnesses.PatchedReturn | skills-mcp/server.py:655-669 | A patch that brings in a carriage return does not read back as what was hashed |
| Patch.PatchBodyExact | skills-mcp/server.py:664-669 | Such a body comes back the same up to surrounding newlines |
| Patch.SourceOneLine | skills-mcp/server.py:656-659 | Whatever `edited_by` is, a single line is stamped |
| Normalize.NormalIff | skills-mcp/server.py:194-194 | Splitting and joining leaves a text alone exactly if newlines are its only line breaks |
| Normalize.StripNormal | skills-mcp/server.py:232-234 | Stripping and normalising line breaks commute |
| Watcher.PsiWatcher.OnChange | infra/claude/oracle-psi-watcher.ts:205-209 | A file change re-arms the vault's debounce timer |
| Watcher.PsiWatcher.OnTimer | infra/claude/oracle-psi-watcher.ts:108-139 | A timer fires: the vault is queued and indexing begins if it can, or the embed pass begins or is left pending |
| Watcher.PsiWatcher.OnIndexEnd | infra/claude/oracle-psi-watcher.ts:123-131 | An index run ends or fails: an embed is scheduled on success, and the next vault begins |
| Watcher.PsiWatcher.OnEmbedEnd | infra/claude/oracle-psi-watcher.ts:199-202 | An embed pass ends: a pending one is scheduled |
| Watcher.PsiWatcher.OnPoll | infra/claude/oracle-psi-watcher.ts:229-239 | One vault of the poll; `WatcherPolls.PollArmsIff` says when it schedules the vault |
| Watcher.PsiWatcher.Reconcile | infra/claude/oracle-psi-watcher.ts:226-241 | The poll over all vaults found, in turn |
| WatcherPolls.ReconcilePolls | infra/claude/oracle-psi-watcher.ts:227-229 | Reconciling is one poll of each vault found, in the order found |
| WatcherPolls.PollArmsIff | infra/claude/oracle-psi-watcher.ts:229-239 | After any possible events from the start a poll arms a new timer for its vault exactly if an earlier event polled the vault and its time exceeds that of every such poll; otherwise it changes no timer, queue or run |
| WatcherPolls.PollIndexes | infra/claude/oracle-psi-watcher.ts:235-239 | On a run that comes to rest such a poll is followed by an index run of the vault |
| WatcherPolls.ChangeArms | infra/claude/oracle-psi-watcher.ts:205-209 | A change always replaces its vault's timer by a new one and touches nothing else |
| WatcherPolls.DebounceFires | infra/claude/oracle-psi-watcher.ts:108-121 | A debounce timer that fires starts an index run of its vault at once if none is under way, else puts the vault at the end of the queue, once |
| WatcherPolls.IndexEnds | infra/claude/oracle-psi-watcher.ts:123-131 | When an index run ends the vault that has waited longest is next; a success arms a new embed timer in place of any other |
| WatcherPolls.EmbedFires | infra/claude/oracle-psi-watcher.ts:136-142 | An embed timer that fires begins a pass, or asks for another while one is under way |
| WatcherPolls.EmbedEnds | infra/claude/oracle-psi-watcher.ts:199-202 | A pass that ends arms an embed timer exactly if another was asked for |
| WatcherPolls.EmbedsIff | infra/claude/oracle-psi-watcher.ts:131-203 | On a run that comes to rest an embed pass begins exactly if one was due or an index run succeeds |
| WatcherPolls.NewerIff | infra/claude/oracle-psi-watcher.ts:230-235 | In every reachable state the remembered time tells what the polls so far do |
| WatcherLaws.NextKeeps | infra/claude/oracle-psi-watcher.ts:108-241 | Every event keeps the whole invariant: handles match timers, single flight, nothing stranded, nothing lost, embeds covered |
| WatcherLaws.DrainLosesNone | infra/claude/oracle-psi-watcher.ts:113-117 | Taking a vault off the queue begins its run after every change noted so far |
| WatcherRuns.Safe | infra/claude/oracle-psi-watcher.ts:99-241 | In every state any interleaving reaches: a change newer than its vault's last index run is waiting; nothing queued is stranded or doubled; at most one index run and one embed pass; an index run newer than the last embed has one to come |
| WatcherRuns.WaitsOrIndexes | infra/claude/oracle-psi-watcher.ts:108-132 | A waiting vault keeps waiting until an index run of it begins |
| WatcherRuns.ComesOrEmbeds | infra/claude/oracle-psi-watcher.ts:136-203 | A due embed stays due, across coalescing, firing in mid-pass and failed passes, until a pass begins |
| WatcherRuns.Bounded | infra/claude/oracle-psi-watcher.ts:108-203 | Without new changes the watcher makes at most as many steps as its work measure |
| WatcherRuns.Rests | infra/claude/oracle-psi-watcher.ts:108-203 | From every state it can come to rest without another change |
| WatcherRuns.IdleIsDone | infra/claude/oracle-psi-watcher.ts:108-203 | At rest every noted change has an index run that began after it, and every successful index run an embed pass |
| WatcherRuns.Settles | infra/claude/oracle-psi-watcher.ts:108-203 | On every run that ends at rest, each change is followed by an index run of its vault and each successful index run by an embed pass |
| WatcherRuns.NeverIndexed | infra/claude/oracle-psi-watcher.ts:108-132 | However long the watcher goes on, a vault that is not waiting and that nothing schedules is never indexed |
| WatcherRuns.IndexedIff | infra/claude/oracle-psi-watcher.ts:108-132 | On a run that comes to rest a vault is indexed exactly if it was waiting or some event schedules it |
| WatcherRuns.RetriedIff | infra/claude/oracle-psi-watcher.ts:126-131 | A failed index run is not tried again for its own sake: its vault is indexed again exactly if it was waiting at the end of the run or a later event schedules it |
| WatcherRuns.FailedRunForgotten | infra/claude/oracle-psi-watcher.ts:126-131 | A trace on which a change goes unindexed and the watcher is at rest |
| Scan.MaxMtimeMd | infra/claude/oracle-psi-watcher.ts:81-97 | The stack loop returns the newest time of any Markdown file that can be reached, or 0 |
| Watchdog.Pass.OnTick | infra/claude/oracle-psi-watcher.ts:176-185 | One check: nothing, SIGTERM, or SIGKILL |
| Watchdog.Pass.OnOutput | infra/claude/oracle-psi-watcher.ts:170-172 | A byte of output resets the stall clock |
| Watchdog.SignalsExactly | infra/claude/oracle-psi-watcher.ts:162-185 | Signals go out at exactly the checks more than the limit after the last byte: SIGTERM first, SIGKILL at every later one |
| Watchdog.NeverSignalled | infra/claude/oracle-psi-watcher.ts:53-53 | A pass never silent for more than the limit is never signalled, however long it runs |
| Watchdog.SilentPass | infra/claude/oracle-psi-watcher.ts:176-185 | A silent pass gets SIGTERM at most one check after the limit, and SIGKILL at every check after that |
| SkillIndex.Server.ParseEntry | skills-mcp/server.py:325-378 | The answer is the cached entry or a fresh parse, and the cache afterwards is the old one, or that (emptied first if over its limit) with the new entry; failures are not cached |
| SkillIndex.Transparent | skills-mcp/server.py:318-378 | In every cache state that any builds over changing disks lead to, the clear included, every answer equals a fresh parse and the cache holds at most one entry over its limit |
| SkillIndex.CacheKeeps | skills-mcp/server.py:332-378 | Looking a slot up in a sound cache changes no answer, and remembering it keeps the cache sound |
| SkillIndex.Server.BuildIndex | skills-mcp/server.py:381-405 | With any sound cache the index equals the cache-free build |
| SkillIndex.Server.ResolveSkillDir | skills-mcp/server.py:413-420 | The folder found is the one the cache-free build gives for the name |
| SkillIndex.BuildExact | skills-mcp/server.py:384-405 | Every slot is listed or excluded, exactly one of the two, in order, and each exclusion names its reason or the root that has the name |
| SkillIndex.PositionsAre | skills-mcp/server.py:387-404 | The listed and the excluded positions partition the slots, in order |
| SkillIndex.UniqueNames | skills-mcp/server.py:395-404 | No two entries share a name |
| SkillIndex.ResolvesFirst | skills-mcp/server.py:413-420 | A name resolves exactly if some slot offers it, and then to the first that does |
| SkillIndex.EarliestRoot | skills-mcp/server.py:310-315 | The copy a name resolves to is from the earliest root that offers it |
| SkillIndex.DiscoveredIff | skills-mcp/server.py:310-315 | The slots are exactly the folders found below the roots |
| SkillIndex.RememberIff | skills-mcp/server.py:332-378 | A skill parsed for the first time is remembered as parsed, nothing else is; what was remembered stays unless a new skill finds more than 2000 entries |
| SkillEntry.RenderedEntry | skills-mcp/server.py:342-374 | A rendered skill is listed under its name, description, category and trigger, on any host, with or without `---` in them |
| SkillEntry.CreatedIsServed | skills-mcp/server.py:413-420 | A created skill's name resolves to its folder unless an earlier slot has the name |
| SkillEntry.ListedIff | skills-mcp/server.py:342-374 | A skill is listed exactly if its `name`, or else its folder's, is not blank and it declares no platform or the host's under one of its names; it is listed by that name, with whatever of description, category and trigger is not blank |
| Recapture.CaptureHook.RemoveLearning | tools/session_capture_hook.ts:93-112 | Removal deletes every row of the learning's file, then the file; each way it can stop is told apart |
| Recapture.CaptureHook.RemoveNew | tools/session_capture_hook.ts:133-135 | The cleanup loop removes exactly the files that were not there before |
| Recapture.CaptureHook.LearnWithRetry | tools/session_capture_hook.ts:120-141 | Up to five attempts; only a lock is retried; every failed attempt leaves the folder as it was |
| Recapture.CaptureHook.SessionEnd | tools/session_capture_hook.ts:183-210 | Skip, write or replace; the record is saved only after a learning was filed |
| RecaptureLaws.TidyIff | tools/session_capture_hook.ts:183-210 | A run keeps one recorded memory per conversation exactly if it does not stop a cleanup half-way, file beside a learning it should replace, or file one the state does not lead to |
| RecaptureLaws.UntouchedTidy | tools/session_capture_hook.ts:73-80 | A vault the hook has never written to satisfies the law below from the start |
| RecaptureLaws.OneMemory | tools/session_capture.ts:387-397 | Over any history of clean runs each session has at most one live learning, and it is the recorded one |
| RecaptureLaws.AfterClean | tools/session_capture_hook.ts:187-210 | After a clean run the session has exactly the learning just filed, recorded with its hash, or none if every attempt failed |
| RecaptureLaws.FiledIff | tools/session_capture_hook.ts:179-207 | The learning an attempt files, all rows and the file, is in the vault after the run exactly if the conversation is worth capturing and not recorded with this hash; otherwise the run changes nothing |
| RecaptureLaws.RowsIff | tools/session_capture_hook.ts:93-112 | A row is there after the run exactly if the run files it, or it was there and is not one of the recorded learning's rows while the removal gets that far; and is unchanged |
| RecaptureLaws.FilesIff | tools/session_capture_hook.ts:93-112 | A file likewise, except that the recorded learning's file goes only if the removal is completed |
| RecaptureLaws.RecordIs | tools/session_capture_hook.ts:206-207 | With a learning filed and the state saved, the record is the run's hash and the id reported, and no other record changes; unsaved or not due, none does |
| RecaptureLaws.NoRecord | tools/session_capture_hook.ts:191-207 | With no learning filed no record changes |
| RecaptureLaws.Unchanged | tools/session_capture.ts:392-394 | A filed conversation that ends again unchanged writes nothing, whatever other sessions did in between |
| RecaptureLaws.NoOrphan | tools/session_capture_hook.ts:133-140 | A run that files nothing leaves no new file, and without a replacement changes nothing |
| RecaptureLaws.OthersKept | tools/session_capture_hook.ts:93-112 | Whatever happens, a run changes no row and no file but those of its own session |
| RecaptureLaws.LosesIff | tools/session_capture_hook.ts:191-207 | A conversation with a live learning has none after a run exactly if the run replaces it, the removal gets at least as far as the rows, and no attempt files the new one |
| RecaptureLaws.Forgotten | tools/session_capture_hook.ts:184-185 | Its old turns then still count as filed |
| Budget.KeepWithin | tools/session_capture.ts:144-168 | The head and tail loops compute the budgeted turns |
| Budget.BudgetSplit | tools/session_capture.ts:144-168 | The input; or the longest prefix in half the budget, one marker with the exact number dropped, at least one, and the longest suffix of the rest in half the budget; kept text is within the budget |
| Budget.EndsLeaveGap | tools/session_capture.ts:165-166 | Over budget nothing is dropped only when there are no turns, which takes a negative budget |
| Budget.ClipWithin | tools/session_capture.ts:114-117 | A clipped turn is within the limit exactly if the limit is at least 1 or nothing was cut |
| Budget.ClipIs | tools/session_capture.ts:114-117 | What is clipped is the text without the blanks around it; too long, it keeps its first max - 1 characters and an ellipsis, and a limit below 1 cuts that many more from the end |
| Text.DecimalValue | tools/session_capture.ts:167-167 | The number in the marker reads as the number dropped, without a zero in front |
| Collector.TurnCollector.Add | tools/session_capture.ts:202-250 | After each record the fields are those of the batch definition over the records so far |
| Collector.TurnCollector.Say | tools/session_capture.ts:228-229 | The bounded tail always holds the last assistant texts |
| Collector.TurnCollector.GetTurns | tools/session_capture.ts:252-258 | The turns are the batch definition over all records |
| Collector.ExtractTurns | tools/session_capture.ts:261-265 | Streaming over the records gives the batch definition |
| CollectorLaws.TurnsAre | tools/session_capture.ts:202-258 | The turns are, in order: what persons typed in user records that are neither meta nor sidechain, not empty and not automation, cut to its limit with the number left out; the non-empty answers to earlier `AskUserQuestion` calls, likewise; and the last n non-blank texts of the assistant; each exactly and in transcript order |
| CollectorLaws.TextsJoined | tools/session_capture.ts:119-125 | What a record of blocks says is its text blocks, in order, one to a line |
| Collector.DecisionIff | tools/session_capture.ts:237-243 | A decision is exactly a non-empty answer to a question that an earlier record asked |
| Collector.IgnoredAnywhere | tools/session_capture.ts:204-204 | Meta and sidechain records, put in anywhere, change nothing |
| ListingParse.ParseListing | skills-mcp/eval/listing_report.py:95-107 | The loop that appends entries and continues the last one |
| ListingParse.MergeJoin | skills-mcp/eval/listing_report.py:96-101 | Joined again, the entries are the listing from its first entry line |
| ListingParse.MergeStarts | skills-mcp/eval/listing_report.py:97-101 | One entry per line that starts one, and each begins with such a line |
| ListingParse.AccountsForAll | skills-mcp/eval/listing_report.py:285-294 | The lengths and separators account for every character exactly if the listing starts with an entry or is empty |
| ListingParse.ParsedCoverNames | skills-mcp/eval/listing_report.py:103-106 | A parsed entry is never shorter than its bare name |
| ListingParse.SplitLinesAre | skills-mcp/eval/listing_report.py:96-96 | Joined again the lines are the listing, and none holds a newline |
| ListingLaws.StartsIff | skills-mcp/eval/listing_report.py:72-72 | A line starts an entry exactly if it is a dash, a name, and then nothing or a colon |
| ListingLaws.ParsedNames | skills-mcp/eval/listing_report.py:103-106 | Each parsed entry is a dash, its name, and then nothing, a colon or a new line, and its length is all of it |
| ListingBudget.Simulate | skills-mcp/eval/listing_report.py:215-249 | The greedy pass computes mode, total and demoted names |
| ListingBudget.SortStable | skills-mcp/eval/listing_report.py:238-240 | Contenders come by descending priority, and within a priority in listing order, each as often as it was listed |
| ListingBudget.TotalConserved | skills-mcp/eval/listing_report.py:227-249 | The total and what the demoted entries gave up make the charged total |
| ListingBudget.WithinIff | skills-mcp/eval/listing_report.py:235-249 | The total is within the budget exactly if the bare-name floor is |
| ListingBudget.NoneStillFits | skills-mcp/eval/listing_report.py:242-248 | No demoted description would fit in what is left |
| ListingBudget.KeptBehindIsShorter | skills-mcp/eval/listing_report.py:242-248 | A contender kept behind a demoted one has a strictly shorter description |
| ListingBudget.DemotesIff | skills-mcp/eval/listing_report.py:231-249 | Over budget someone is demoted exactly if someone is unprotected |
| ListingBudget.ParsedCovering | skills-mcp/eval/listing_report.py:222-226 | The laws above hold of every parsed listing, under any name-only setting |
| ListingLaws.SimulateIs | skills-mcp/eval/listing_report.py:215-249 | Of the listed entries alone: all fit, with their total; or the unprotected ones, by priority and then by place, are kept exactly if what they take beyond their names fits in what those kept before them leave beside everyone's bare name, and the total and the demoted names in that order are so |
| Harvest.ScanTranscript | skills-mcp/eval/build_pairs.py:87-111 | The loop over one transcript computes its pairs and counts the calls the human dictated |
| Harvest.PairsAreCalls | skills-mcp/eval/build_pairs.py:87-111 | The pairs are exactly the calls of a skill the prompt does not name, each with its nearest query and the assistant turns since |
| Harvest.HarvestPairs | skills-mcp/eval/build_pairs.py:121-126 | Of every query and skill exactly one pair is kept, none is closer, and they come in the order first seen; the dictated calls are counted |
| HarvestLaws.CallsCounted | skills-mcp/eval/build_pairs.py:98-111 | Every call of a skill after a query counts once: as a pair if the nearest query does not name it, else as dictated |
| HarvestLaws.TurnsAre | skills-mcp/eval/build_pairs.py:92-99 | A distance is the number of assistant records outside sidechains |
| HarvestLaws.AllPairsIff | skills-mcp/eval/build_pairs.py:76-111 | The pairs of all transcripts are exactly the calls of each |
| HarvestLaws.FirstSeenAt | skills-mcp/eval/build_pairs.py:121-126 | The keys come each once, in the order of the first pair that has them |

## Left out

Contracts that assume more than the code checks, or say less than it does:

- CollectRuns.IdentityStable: for runs in which each folder that is placed holds one skill and reads as the name it is placed under; `CollectRuns.MergeFaithful` shows that on any other run the catalog stops being well-formed. Within one run `CollectRuns.StepKeepsEntry` asks nothing of the source.
- CollectRuns.SecondRun: asks the same of the first run, and pairwise distinct names.
- CollectRuns.Idempotent: asks for pairwise distinct names and one skill to each auto-skill folder.
- CollectCases.Adds: for a well-formed catalog with an exact index, as are `CollectCases.Skips`, `CollectCases.Updates` and `CollectCases.Renames`; `CollectRuns.MergeFaithful` says when a run keeps it so.
- Pipeline.RoundConverges: the live folder's auto-skills lie at their own names, and the first collect is a run as above; the second round is asked nothing.
- Pipeline.PipelineConverges: under the same conditions.
- SyncLaws.ArchivedIff: not about the trash folder itself, to which the archived ones are added.
- Writer.RenderRead: the stamped values hold none of the rarer characters that `splitlines` breaks at and `_yaml_scalar` leaves alone, such as a vertical tab.
- Writer.RenderedBody: is about the text as it was written; for the file as it is read see `Reading.RenderedBodyRead`.
- Create.FirstWriterWins: the processes do not use `--force`; a forced write is in `Create.SkillFile.Create` alone.
- Patch.SkillPatch: whether a frontmatter parses is any predicate of the text, and the atomic replace of the file is not modelled.
- Frontmatter.ReadersAgree: the flat reader only; PyYAML is not part of this model.
- SkillIndex.Server.BuildIndex: path, time and size determine what a file holds, and the file does not change between its examination and its reading; under a reused key the cache would serve the older entry.
- SkillEntry.RenderedEntry: platform names are lower-cased for ASCII letters only.
- Watchdog.SilentPass: checks come exactly every 30 seconds; a late timer delays the signal by as much.
- Recapture.CaptureHook.LearnWithRetry: `handleLearn` is one step that files a learning or fails with files left behind; waiting between attempts is not modelled, nor another writer of the folder.
- RecaptureLaws.OneMemory: `handleLearn` names each learning apart from what is there, and the saved state is read back as it was written.
- ListingBudget.Simulate: the built-in tier is a set of names, and the priority of a name is any real number.

What the repository does that this model does not:

- Git calls, commit and push reporting, argument parsing, environment variables and JSON output.
- Symbolic links and the `realpath` checks; a plain file where a folder is expected; permissions.
- Decoding of files and file size caps; carriage returns are read as newlines in `Reading` alone, and a renamed copy is not shown to lose those of its body.
- The `$` of the folder-name pattern before a final newline: names read from a frontmatter line hold none.
- JSON-RPC dispatch, readiness, linked files and path joining in the server.
- Repairing the inputs of `create` (`_kebab`, `_fit_desc`) and its near-duplicate report: the model starts from the repaired values.
- Process, pipe and `fs.watch` mechanics: they are events in any order. Which vaults exist is an input of the poll.
- The patterns that strip harness text and recognise automation: any functions in `Collector`.
- The rendering of a captured learning, the content hash of its turns and the minimum length of human text: inputs of a run.
- The index database of the memory service beyond rows, their file and their session.
- Reading listings out of transcripts, usage decay and the printed report of the listing simulator.
- The filters of `build_pairs.py` after `harvest`, and the text tests for queries: any functions in `Harvest`.
