# Verified model of rosary's engines

rosary tracks work items ("beads") in per-repository stores and runs agents on them. This project models the
parts of it that have to be right on every input, and proves what they promise:

- **Scheduling and grouping.** Bead clustering by thresholded similarity over a union-find forest
  (`UnionFind`, `Similarity`, `Signals`, `Connectivity`, `Clusters`), scope-overlap admission (`Scopes`), the pipeline's
  decision after every agent completion (`Pipeline`), and dispatch ids (`DispatchIds`).
- **Records that survive runs, crashes and races.** The hash-linked handoff chain and the race for a phase's file
  (`HandoffChain`, `HandoffFiles`), the git-tracked projection (`JsonlSync`, `ProjectionLaws`, `ProjectionExamples`,
  over `OrderedRecords` and `TextLines`), moving a bead between stores and migrating a whole store (`BeadStore`,
  `StoreLaws`, `Runs`, `BeadMove`, `MoveLaws`, `MoveChains`, `MoveTries`, `BeadMigrate`, `MigrationLaws`,
  `MigrationCounts`, with `StoreExamples`), the switch from Dolt to SQLite (`StoreSwap`), the connection pool's config
  rescan (`RepoPool`, `RepoPorts`, `RepoGaps`), and the expiring token cache (`Credentials`, `MintRaces`).
- **Text scanners and rewriters.** The JSON-array scanner (`JsonArray`, `JsonTexts`), the absorbed-parameter walk
  (`BeadMarkup`), paragraph wrapping (`GreedyLines`, `WrapDoc`), and the marker-block merges (`Markers`,
  `AgentsFile`, `PrecommitYaml`).

`Text` and `Trimming` hold the string primitives and `ShortIds` the short-id lookup the engines share.

Where the program updates things in place, so does the model: objects are classes whose methods are proved against
a function of the old state, loops are loops with invariants, and what the program promises is then proved about those
functions. A store write, a file step or a network answer that can fail is a parameter (how many more writes a store
accepts, which paths are stuck, what an endpoint answers), so a statement about every value of that parameter is a
statement about every point of failure.

A definition that an operation and its specification both use has a law of its own next to it, in literals and without
the definition: what counts as a blank (`Text.SpaceIff`) or a tag name (`BeadMarkup.NameIff`), what trimming leaves
(`Trimming.TrimIff`), how numbers, phases and digests are written (`DispatchIds.DecimalReads`,
`HandoffChain.PhaseReads`, `HandoffChain.HexReads`), and so on. The table names those that say more than that.

`dafny verify dfyconfig.toml` checks everything.

## Where the program and its own documentation differ

The model follows the code. Each difference is a lemma, and each condition that can fail has an input on which it does.

- `src/handoff.rs:310-314` says that a chain with a broken link reads as empty; the code returns exactly the records
  before the break, and with them the changed record itself when its own link still holds
  (`HandoffChain.TamperingCutsChain`). A chain reads as empty only when its first file cannot be read
  (`HandoffChain.EmptyIffNoStart`).
- The chain hash puts nothing between the list of files and the list of commits, so only their concatenation is fixed
  (`HandoffChain.PreimageDetermines`, both directions).
- `src/handoff.rs:282-285` says that refusing a second write keeps whichever handoff won. A writer that creates the
  file and fails before all of its text is there has won nothing, yet from then on every write is refused and no read
  decodes, exactly then or when every writer failed to create it (`HandoffFiles.MayDecodeIff`; input:
  `HandoffFiles.FailedCreatorBlocks`).
- `src/decompose.rs:115` speaks of characters; the code counts bytes (`WrapDoc.LinesFit`).
- `src/precommit_yaml.rs:60-65` promises idempotence and untouched content outside the markers.
  - A blank line right after `repos:` takes one application more (`PrecommitYaml.OnceIsFixedIff`,
    `PrecommitYaml.TwiceIsFixed`; input: `PrecommitYaml.BlankLineDelays`).
  - A first install keeps the rest byte for byte exactly when the text ends in a newline and has no carriage return
    before one (`PrecommitYaml.FirstInstallKeepsIff`; input: `PrecommitYaml.MissingNewlineAdded`).
  - A re-install keeps what is behind the managed block exactly when the end marker's line ends there and the next line
    is not empty (`PrecommitYaml.ReinstallKeepsIff`; input: `PrecommitYaml.BlankLineDropped`), and a block without its
    end marker takes the rest of the file with it (`PrecommitYaml.UnclosedLosesRest`).
- Re-running `merge_agents` changes nothing exactly when the template does not itself hold the end marker
  (`AgentsFile.IdempotentIffTemplateClean`; input: `AgentsFile.EndMarkerTemplateNeverSettles`). Outside its section it
  keeps everything, but a section without its end marker reaches to the end of the file, and so does the loss
  (`AgentsFile.UnclosedLosesRest`).
- `src/pool.rs:227` says that a rescan reaps repositories whose `.beads/` disappeared. It keeps the ones that are
  still configured (`RepoPool.RescanIsRestartIff`; input: `RepoPool.LostBeadsStay`).
- `src/pool.rs:310-314` says that `get` serves a repository that was given its `.beads/` after the pool was built. While
  the config file's mtime stays what it was, it answers none (`RepoGaps.GateDiffersIff` says exactly when a call
  answers differently from one that rescans; input: `RepoGaps.NewBeadsUnseen`).
- A dispatch id made before the epoch reads back as the mirrored instant (`DispatchIds.RoundTripIffAfterEpoch`).
- `get_bead` also accepts a short id. When a published id is missing from the store and happens to shorten the id of
  another bead, upserting it writes that other bead in its place, where a refresh would have kept the record
  (`ProjectionLaws.UpsertMeans`, `ProjectionLaws.PublishMeans`, `ProjectionLaws.EachIsRefreshIff`; input:
  `ProjectionExamples.UpsertIsNotRefresh`); publishing such an id leaves a
  file that no refresh can read again, exactly when the other bead is already published
  (`ProjectionLaws.ShortIdSpoilsFile`; input: `ProjectionExamples.PublishingSpoils`). For the same reason verification
  accepts a target that lacks a bead but has one whose id ends in it (`MigrationLaws.VerifiedMeansAgree`; input:
  `MigrationLaws.SuffixPasses`).
- `src/bead_migrate.rs:48-50` calls the migrated content exact. The target store scrubs titles and descriptions, keeps
  whole seconds, and has no empty external ref, and these are exactly the beads that verification rejects
  (`MigrationLaws.MigrationVerifiesIff`; input: `MigrationLaws.EmptyRefIsRejected`). Comments that cannot be read are
  left behind by a migration that reports success (`MigrationLaws.UnreadCommentsAreLost`), verification never compares
  comments (`MigrationLaws.VerifyIgnoresComments`), and edges that cannot be read count as none
  (`MigrationLaws.UnreadEdgesPass`).
- `src/bead_move.rs:13-18` calls a move lossless and promises a tombstoned source. A move that stops behind its first
  write and before its last three leaves two beads that can be moved, the source's and an unfinished copy, and only
  there (`MoveChains.OneMovableIff`; input: `MoveTries.HalfWayLeavesTwo`); over any number of tries there is one more
  for each that stops so, and never none (`MoveTries.NoTryLosesTheBead`). Stopping among its last three writes leaves
  the source's bead open, yet no longer movable (`MoveChains.InterruptedStaysOpen`).
- `src/bead_migrate.rs:272-279` says that Dolt is opened as long as `dolt/` exists. While `beads.db` is there too,
  connecting refuses instead (`StoreSwap.NoEmptyWindow`); and a built store at one of the paths the swap clears first
  is deleted and the swap fails (`StoreSwap.SwapSucceedsIff`; input: `StoreSwap.BuiltInPlaceIsLost`).
- The token cache drops its lock while it mints, so callers that overlap mint again: n of them up to n(n+1)/2 times in
  the time one token would have served, and no more (`MintRaces.MintsPerWindow`; input: `MintRaces.StormReachesBound`).

## Model

| member | source | states |
|---|---|---|
| UnionFind.UnionFind.constructor | src/epic.rs:285-290 | n nodes start in n classes of their own, in a valid forest |
| UnionFind.UnionFind.Find | src/epic.rs:292-297 | the root of x as before; path compression leaves every node's class as it was; recursion depth d satisfies 2^d <= n |
| UnionFind.UnionFind.Union | src/epic.rs:299-314 | exactly the classes of x and y are joined; ranks still rise along parent links and a root of rank r still heads 2^r nodes |
| UnionFind.CompressedForest | src/epic.rs:292-297 | pointing a node at its root keeps the forest, its weights and every node's root |
| UnionFind.LinkedForest | src/epic.rs:305-313 | hanging the root of lower rank under the other keeps the forest and its weights and moves only that tree |
| UnionFind.LogarithmicBound | src/epic.rs:279-314 | in every reachable forest 2^rank and 2^depth are at most the number of nodes |
| Similarity.CombinedSimilarity | src/epic.rs:139-165 | the combined score lies in [0, 1], whatever the text folds do |
| Similarity.CombinedSimilaritySymmetric | src/epic.rs:139-165 | swapping the beads does not change the score |
| Signals.NearDuplicatesIff | src/scanner.rs:99-116 | titles are near duplicates exactly when their word sets are both empty or have more than four fifths of their words in common |
| Signals.StepsOfOneIff | src/epic.rs:207-229 | two titles are steps of one sequence exactly when they differ but not once their numbering is taken out, in one of the two ways |
| Signals.SharesScopeIff | src/epic.rs:171-205 | two titles share a scope exactly when what stands before the first colon, or in leading brackets, is the same up to ASCII case |
| Signals.ScoreMeans | src/epic.rs:106-165 | the score is the greatest of the weighted sum and 0.85 times each strong signal, the signals being the shares of common title topics and description words and the two relations above |
| Clusters.ComponentInOneRepo | src/epic.rs:341-343 | a connected component of the similarity graph never leaves one repository |
| Clusters.OrderIndependent | src/epic.rs:328-364 | permuting the input leaves the groups unchanged as sets of beads |
| Clusters.ClustersOrderIndependent | src/epic.rs:328-364 | for any two outputs on rearranged inputs, every cluster of one has one in the other with the same set of bead ids and the same relationship |
| Clusters.SortOrdered | src/epic.rs:481-535 | members come out ordered by priority and then creation time, as a permutation |
| Clusters.ComponentCohesion | src/epic.rs:481-535 | a component has at least one scored pair and its cohesion lies between 0.45 and 1 |
| Clusters.CohesionAverages | src/epic.rs:481-535 | the cohesion is the mean over exactly the scored pairs of members |
| Clusters.ClassifyRelates | src/epic.rs:537-571 | near duplicate exactly when every two members have word sets that are both empty or more than four fifths common; else sequential exactly when some two are steps of one; else shared scope exactly when some two share one; else overlapping |
| Clusters.ActionFor | src/epic.rs:481-535 | near duplicates, and only they, merge, keeping the first member and closing exactly the others, in order; sequential steps, and only they, sequence; the rest suppress |
| Clusters.BuildCluster | src/epic.rs:481-571 | the cluster reports the sorted ids, the mean of the scores of exactly its scored pairs, the relationship that the titles have, and its action |
| Clusters.LinkPairs | src/epic.rs:338-350 | after the double loop two beads share a root exactly when the similarity graph connects them, and every edge has its score |
| Clusters.CollectGroups | src/epic.rs:352-357 | the beads are bucketed by root, in input order, while finding compresses paths |
| Clusters.ClusterBeads | src/epic.rs:328-364 | the clusters are exactly the components of at least two same-repository beads, each once, each reported as above |
| Clusters.IsDominatedBy | src/epic.rs:370-384 | names the first active bead of the repository, other than itself, whose score exceeds 0.5; none only if there is none |
| Clusters.DominatedShareCluster | src/epic.rs:328-384 | a dominated bead is reported in the same cluster as the bead that dominates it |
| Scopes.OverlapIsCommonPath | src/epic.rs:395-409 | two scopes overlap exactly when some path belongs to both |
| Scopes.ScopePairConflicts | src/epic.rs:419-455 | two items of a repository conflict exactly when some scope of one overlaps a scope of the other |
| Scopes.DotsConflict | src/epic.rs:395-455 | two items of a repository that name one path, with or without a "./" in front in either, conflict |
| Scopes.HasFileOverlap | src/epic.rs:419-455 | names the first active item of the same repository, with another id, that claims a common path; none only if there is none |
| Scopes.RewritingKeepsAnswer | src/epic.rs:395-455 | writing "./" before any scopes of any items, or leaving it out, does not change the answer |
| Scopes.RunsStayDisjoint | src/epic.rs:411-455 | over any admissions and completions, active items of one repository stay pairwise path-disjoint |
| Pipeline.AgentsForMeans | src/pipeline.rs:82-100 | a type has its configured agents or the fallback one, cut to the maximal depth when there is one |
| Pipeline.PassAdvances | src/pipeline.rs:82-170 | without repeated agents a passing completion moves to the next agent, or is terminal at the last |
| Pipeline.PassOutsideEnds | src/pipeline.rs:103-126 | a pass of an agent that is not in the pipeline, or of the last, is terminal |
| Pipeline.StepSpends | src/pipeline.rs:128-170 | every completion, whatever its outcome, strictly lowers the remaining budget of stages and retries |
| Pipeline.EveryRunEnds | src/pipeline.rs:82-170 | without repeated agents every run is over after stages x (max retries + 1) completions |
| Pipeline.SuccessCompletesIffDistinct | src/pipeline.rs:103-170 | the all-success run completes exactly when no agent is repeated |
| Pipeline.FailuresUseRetries | src/pipeline.rs:128-156 | consecutive failures use up a stage's retries one by one and deadletter the run with the next |
| Pipeline.ThirdRevertKills | src/pipeline.rs:18-156 | a failure that is the third consecutive revert deadletters the run whatever retries are left |
| Pipeline.DoneNeedsEveryStage | src/pipeline.rs:103-170 | a run is complete only once every stage has had a success of its own |
| Pipeline.WholeRunNeedsEveryStage | src/pipeline.rs:82-170 | a run from the start is complete only after at least as many successes as its pipeline has stages |
| DispatchIds.ParsesMagnitude | src/pipeline.rs:37-49 | parsing an id gives the magnitude of its start, whatever dashes the bead id has |
| DispatchIds.RoundTripIffAfterEpoch | src/pipeline.rs:37-49 | the start round-trips exactly when it is not before the epoch |
| DispatchIds.ParseI64Iff | src/pipeline.rs:44-49 | a number is parsed exactly when it is written as digits behind at most one sign and fits 64 bits |
| HandoffChain.PreimageDetermines | src/handoff.rs:137-164 | preimages of NUL-free fields are equal exactly when phase, agent, bead, summary, files ++ commits and previous hash are |
| HandoffChain.PreimageReads | src/handoff.rs:137-164 | the hashed bytes are the phase, then agent, bead, summary, files and commits with a zero behind each, then the link |
| HandoffChain.ChainHash | src/handoff.rs:137-164 | feeding the hasher field by field digests exactly the preimage |
| HandoffChain.NewRecords | src/handoff.rs:180-245 | a new handoff holds the agent and the bead, the first commit's message or a size note, the files, the commits in order, and exactly when there is a previous record the hexadecimal digest of that |
| HandoffChain.NewExtendsChain | src/handoff.rs:180-220 | a handoff made after the last of a linked chain extends it to a linked chain |
| HandoffChain.FinalHashFixesHistory | src/handoff.rs:137-164 | fully linked chains with equal final hash agree on every hashed field at every phase, or exhibit a collision of the digest |
| HandoffChain.ReadChain | src/handoff.rs:315-350 | the chain read is the longest run of files from phase 0 whose links hold |
| HandoffChain.TamperingCutsChain | src/handoff.rs:315-350 | after changing a hashed field of record k a read returns exactly the records before k, with the forged one exactly when it kept its link (or has none, or is first), unless the digest collides |
| HandoffChain.EmptyIffNoStart | src/handoff.rs:315-350 | a chain reads as empty exactly when its first file cannot be read |
| HandoffChain.LinkedReadsWhole | src/handoff.rs:315-350 | a fully linked chain reads back whole |
| HandoffFiles.InvKept | src/handoff.rs:268-300 | every step of any number of writers keeps: one creator, and the file holds a prefix of its text, all of it once it succeeds |
| HandoffFiles.WinnerIsReadForever | src/handoff.rs:268-307 | from a successful write on every read gives that writer's record, and no other write ever succeeds |
| HandoffFiles.ReadsAreNeverTorn | src/handoff.rs:268-307 | any two reads that succeed, at any times, give the same writer's record |
| HandoffFiles.MayDecodeIff | src/handoff.rs:268-307 | a phase may still come to decode exactly when no creator failed before its text was complete and, without a file, some writer has yet to try |
| HandoffFiles.DeadForever | src/handoff.rs:268-307 | otherwise the file stays as it is and no writer ever succeeds |
| HandoffFiles.FailedCreatorBlocks | src/handoff.rs:268-300 | a writer that fails right after creating the file brings a phase there |
| GreedyLines.FillingIsOptimal | src/decompose.rs:116-143 | greedy filling uses no more lines than any other in-order wrapping whose lines fit |
| WrapDoc.ParagraphsSplit | src/decompose.rs:119 | the paragraphs joined by two newlines are the text, each but the last ends where two newlines are first found, and the last holds none |
| WrapDoc.SplitUnique | src/decompose.rs:119 | there is only one such split |
| WrapDoc.WrapParagraph | src/decompose.rs:121-135 | the lines are an optimal in-order wrapping of the paragraph's words |
| WrapDoc.WrapText | src/decompose.rs:116-143 | the text is cut at every pair of newlines, from the left, each piece is wrapped optimally and followed by a blank line, trailing blanks are dropped, no word is lost, and each line is at most 76 bytes or a single word |
| WrapDoc.WrapKeepsWords | src/decompose.rs:116-143 | the words of the output are the words of the text, in order |
| WrapDoc.LinesFit | src/decompose.rs:116-143 | each line is at most 76 bytes or a single word of its paragraph |
| JsonArray.ExtractJsonArray | src/bdr_enrich.rs:141-171 | returns the text from the first bracket to where it first closes outside strings; none exactly when there is no bracket or it never closes |
| JsonTexts.ValueNeutral | src/bdr_enrich.rs:141-171 | scanning any JSON value (RFC 8259, sections 3 to 7) returns to the depth it began at and never goes below it |
| JsonTexts.ArrayClosesLast | src/bdr_enrich.rs:141-171 | the depth of a JSON array's text is zero only at its end |
| JsonTexts.ArrayIsExtracted | src/bdr_enrich.rs:141-171 | between a prefix without brackets and any suffix, exactly the array's text is returned |
| BeadMarkup.TagBeforeIff | src/bead_markup.rs:13-41 | the backward walk finds a tag exactly when a closing tag and optional whitespace end where the opener begins |
| BeadMarkup.WalkCostBound | src/bead_markup.rs:13-41 | one walk reads at most its run plus a constant |
| BeadMarkup.WalkAfterPrevious | src/bead_markup.rs:13-41 | walks of successive openers read disjoint stretches |
| BeadMarkup.WalkBack | src/bead_markup.rs:13-41 | one walk, counting every character it reads, finds the tag before the opener or none, at exactly the walk's cost |
| BeadMarkup.WalksAreLinear | src/bead_markup.rs:13-41 | the walks of all openers together read at most the value's bytes plus 8 per opener, and at most 3/2 of its bytes |
| BeadMarkup.RejectAbsorbedParameter | src/bead_markup.rs:13-41 | errors exactly when the value holds a closing tag, optional whitespace and a parameter opener, names that tag, and reads in all exactly the total cost |
| JsonlSync.ReadBeadsJsonl | src/restore/mod.rs:24-46 | every non-blank line parsed in order; one bad line fails the read |
| JsonlSync.ReadLinesMeans | src/restore/mod.rs:24-46 | what is between a line's blanks is skipped when empty, a record when it parses, and otherwise the failure of the whole read |
| JsonlSync.KeyRecords | src/jsonl_sync.rs:61-78 | the records in order of their ids, live ones first; a missing or repeated id is an error |
| JsonlSync.Projection.Refresh | src/jsonl_sync.rs:113-127 | without opt-in or on an error the file is left alone; otherwise it becomes the refreshed text |
| JsonlSync.Projection.Upsert | src/jsonl_sync.rs:144-195 | the file becomes the upserted text, reported as changed exactly when its bytes changed; an error leaves it alone |
| JsonlSync.Projection.PublishIds | src/jsonl_sync.rs:229-266 | the file and the four report lists are those of publishing each id once, in order; when one upsert fails the file is that of the ids before it |
| OrderedRecords.InsertOrdered | src/jsonl_sync.rs:175-187 | inserting keeps the records strictly ordered by id |
| OrderedRecords.BelowIff | src/jsonl_sync.rs:175-187 | ids are ordered as in a dictionary, by code point |
| OrderedRecords.OrderedUnique | src/jsonl_sync.rs:41-47 | ordered records are determined by the map they denote |
| TextLines.LineThen | src/restore/mod.rs:24-46 | a line ends at the first newline, loses one carriage return before it, and what is behind is split the same way |
| TextLines.LinesOfTerminated | src/jsonl.rs:30-37 | newline-terminated lines split back into the same lines |
| TextLines.TerminatedNext | src/jsonl.rs:30-37 | appending a line leaves the text before it untouched |
| ProjectionLaws.WrittenHolds | src/jsonl_sync.rs:41-47 | a written file parses back to exactly the records written |
| ProjectionLaws.CanonicalUnique | src/jsonl_sync.rs:41-47 | sorted files that hold the same records are the same bytes |
| ProjectionLaws.RefreshMeans | src/jsonl_sync.rs:53-78 | a refresh succeeds exactly on well-formed files, keeps the set of ids, takes every live record from the store and keeps the others, and writes a sorted file |
| ProjectionLaws.UpsertMeans | src/jsonl_sync.rs:144-195 | an upsert changes at most its own id's record, adds an id only when allowed and drops none exactly when the id does not just shorten another bead's, or is neither published nor to be inserted; it then writes a sorted file, if any |
| ProjectionLaws.EachIsRefreshIff | src/jsonl_sync.rs:113-195 | upserting every published id in any order gives the refreshed records exactly when no published id missing from the store shortens the id of a stored bead |
| ProjectionLaws.EachIsRefreshBytes | src/jsonl_sync.rs:113-195 | from a sorted file both leave the same bytes |
| ProjectionLaws.PublishMeans | src/jsonl_sync.rs:229-266 | from a sorted file, publishing adds or replaces exactly the named live beads' records and files each id once under missing, inserted, updated or unchanged, exactly when none of the ids just shortens another bead's |
| ProjectionLaws.ShortIdSpoilsFile | src/jsonl_sync.rs:144-195 | publishing an id that only shortens another bead's makes every later refresh fail exactly when that bead was published |
| ProjectionExamples.UpsertIsNotRefresh | src/jsonl_sync.rs:113-195 | a file with the id abc and a store with rsry-abc: the upsert and the refresh differ |
| ProjectionExamples.PublishingSpoils | src/jsonl_sync.rs:144-195 | a readable file with rsry-abc: after publishing abc no refresh reads it |
| ProjectionExamples.LawfulCodecExists | src/jsonl_sync.rs:41-47 | some rendering of records as lines meets everything the projection laws ask of one |
| ShortIds.Resolve | src/bead_sqlite/mod.rs:256-277 | a stored id resolves to itself and anything else at most to a stored id that it shortens |
| ShortIds.ResolveIff | src/bead_sqlite/mod.rs:256-277 | a stored id names itself; any other names the one stored id that it shortens, and nothing when there are none or several |
| BeadStore.StateName | src/bead.rs:157-194 | the name of a state is one of the canonical ones and parses back to it |
| StoreLaws.StatusMeans | src/bead.rs:176-194 | which status strings mean which state, every other one meaning open |
| BeadStore.BeadStore.CreateBeadFull | src/bead_sqlite/mod.rs:611-679 | a new bead is open, stamped now, scrubbed and unowned when the owner is empty; a taken id fails and changes nothing |
| BeadStore.BeadStore.CloseBead | src/bead_sqlite/mod.rs:882-894 | the resolved bead is done and touched, and nothing else changes |
| BeadStore.BeadStore.SetReference | src/bead_sqlite/mod.rs:1096-1104 | the resolved bead has the external reference and is touched |
| BeadStore.BeadStore.CommentOn | src/bead_sqlite/mod.rs:1239-1252 | the scrubbed comment is appended and then the bead touched; when only the second write fails the comment stays and the call fails |
| BeadStore.BeadStore.RestoreStatusOf | src/bead_sqlite/mod.rs:287-297 | the canonical form of the status is written past the transition guard |
| BeadStore.BeadStore.RestoreTimes | src/bead_sqlite/mod.rs:314-333 | both timestamps are written, to the second |
| BeadStore.BeadStore.RestoreEdge | src/bead_sqlite/restore_ops.rs:32-46 | the edge is upserted verbatim, whether or not its target is local |
| StoreLaws.WriteFailsIff | src/bead_sqlite/mod.rs:256-333 | a write fails exactly when the store takes no more, a new id is taken, or the id it names resolves to no bead |
| StoreLaws.CreateMeans | src/bead_sqlite/mod.rs:611-679 | a new bead field by field: open, both times now to the second, texts scrubbed, no reference, unowned exactly when the owner is empty; nothing else changes |
| StoreLaws.UpdateMeans | src/bead_sqlite/mod.rs:287-333 | a write to one bead changes the field that it names and the update time, or both times, and nothing else |
| StoreLaws.CommentMeans | src/bead_sqlite/mod.rs:1239-1252 | a comment goes behind those that are there, its text scrubbed, and is not deleted |
| Runs.AttemptConcat | src/bead_move.rs:86-174 | running steps in a row is running the first part and then, if it went through, the rest |
| BeadMove.MoveBead | src/bead_move.rs:50-183 | a missing or already moved bead is refused untouched; otherwise the planned writes happen in order up to the first failure, and the move succeeds exactly when all do |
| MoveLaws.MoveStops | src/bead_move.rs:86-174 | after any number of writes the source's bead is untouched and the copy what those writes make of it, or it is commented or touched but open beside a whole copy, or closed as well |
| MoveLaws.ClosedMeansCopied | src/bead_move.rs:86-174 | wherever a move stops, a source bead that got closed or commented has its fields, its owner or failing that the agent of its type, and its live comments, in order, in the destination |
| MoveLaws.MoveTexts | src/bead_move.rs:80-174 | the provenance entry, the tombstone and the note about edges, word for word |
| MoveLaws.TombstoneIff | src/bead_move.rs:64-79 | a comment marks a bead as moved exactly when the mover wrote it and it begins with the words of a tombstone |
| MoveChains.StopsMovable | src/bead_move.rs:64-174 | wherever a move stops, the source's bead is movable exactly before the last three writes, the copy is there exactly from the first write on and then movable, and no other bead has changed |
| MoveChains.OneMovableIff | src/bead_move.rs:64-174 | at least one of the two is movable, and exactly one if and only if the move stops before its first write or among its last three |
| MoveChains.InterruptedStaysOpen | src/bead_move.rs:163-174 | before the last write the source's bead is as open as it was; it is not movable exactly behind the tombstone comment, and then the copy is whole |
| MoveChains.HopHops | src/bead_move.rs:50-183 | a move buries the bead where it was, makes a movable copy with one more provenance entry, and leaves every other bead's fields and movability alone |
| MoveChains.OneCopyStaysMovable | src/bead_move.rs:48-183 | over any chain of moves that succeed exactly the last place can be moved from, no place repeats, the tombstone at each place names the next, provenance grows by one entry a hop, and a non-empty owner, the details, the reference and whether it is done are kept |
| MoveTries.TryMoves | src/bead_move.rs:48-183 | one try, killed or failing anywhere: what it leaves movable at both places, every other bead staying as movable as it was |
| MoveTries.NoTryLosesTheBead | src/bead_move.rs:48-183 | after any tries, each from a place the bead has got to, it is movable from one place and one more for each try that stopped half-way |
| MoveTries.HalfWayLeavesTwo | src/bead_move.rs:86-174 | a destination that fills up at the first comment: both beads are movable |
| BeadMigrate.WriteBead | src/bead_migrate.rs:75-100 | creation, status, reference and timestamps, up to the first write that fails |
| BeadMigrate.AttachBead | src/bead_migrate.rs:106-141 | edges, live comments and timestamps again, up to the first write that fails, counted |
| BeadMigrate.MigrateStore | src/bead_migrate.rs:53-144 | the two passes' writes in order up to the first failure, unreadable comments counting as none; a report, with its counts, exactly when all go through |
| BeadMigrate.VerifyMigration | src/bead_migrate.rs:168-270 | succeeds exactly when every source bead matches the target's in every field and in its typed edges, unreadable edges counting as none |
| MigrationLaws.RestoringAdds | src/bead_migrate.rs:75-100 | the first pass over a bead adds exactly the restored bead, its timestamps last |
| MigrationLaws.AttachingAdds | src/bead_migrate.rs:106-141 | the second pass adds exactly the bead's edges and comments, and undoes what the comments do to its timestamps |
| MigrationLaws.MigrationCopiesAll | src/bead_migrate.rs:53-144 | a migration into an empty store leaves exactly the source's beads, restored, with all edges (dangling ones too) and live comments in order |
| MigrationLaws.MigrationVerifiesIff | src/bead_migrate.rs:53-270 | verification right after it succeeds exactly when no bead has an empty external ref, a timestamp between seconds, or a title or description that is scrubbed, whatever comments could not be read |
| MigrationLaws.UnreadCommentsAreLost | src/bead_migrate.rs:127-132 | the migration goes through whatever comments cannot be read, and a bead has its live comments exactly when they could be read or there are none |
| MigrationLaws.EmptyRefIsRejected | src/bead_migrate.rs:168-270 | a bead with an empty external ref migrates and fails verification |
| MigrationLaws.VerifiedMeansAgree | src/bead_migrate.rs:168-270 | with its edges read and its id in the target, a bead passes exactly when owner (trimmed, blank or absent alike), status, reference, timestamps, content and every typed edge, counted with multiplicity, agree |
| MigrationLaws.NormIff | src/bead_migrate.rs:211-232 | owners compare equal exactly when both are absent or blank, or trimmed the same |
| MigrationLaws.SameEdgesIff | src/bead_migrate.rs:249-267 | the sorted edge lists are equal exactly when every edge of the bead occurs equally often in both stores |
| MigrationLaws.SuffixPasses | src/bead_migrate.rs:168-270 | the bead x-abc passes for a bead abc that the target lacks |
| MigrationLaws.UnreadEdgesPass | src/bead_migrate.rs:252-270 | edges unreadable in both stores are not compared; unreadable in one, the other must have none |
| MigrationLaws.VerifyIgnoresComments | src/bead_migrate.rs:168-270 | comments never change the verdict |
| MigrationCounts.ReportCounts | src/bead_migrate.rs:22-141 | the report counts the listed beads, those with an acceptance condition that is not blank, the edges that leave them, those that lead to none of them, and their comments that are not deleted |
| MigrationCounts.MigrationWrites | src/bead_migrate.rs:53-144 | a migration takes four writes for each bead, one less if it is open and one more if it has a reference, one for each edge and two for each comment that it reports |
| StoreSwap.ConnectMeans | src/bead_sqlite/mod.rs:165-212 | the Dolt store is opened exactly when it is there alone, the database file exactly when it is a file without one, and a new store is made exactly when neither is there |
| StoreSwap.FileSystem.SwapDoltToSqlite | src/bead_migrate.rs:280-316 | refused untouched unless the checks pass; otherwise the steps run in order up to the first that fails |
| StoreSwap.NoEmptyWindow | src/bead_migrate.rs:272-316 | after any number of steps connecting opens the Dolt store, refuses, or, after the last, opens the built store; never an empty one |
| StoreSwap.SwapSucceedsIff | src/bead_migrate.rs:280-316 | a swap that may start succeeds exactly when the built store is at none of the cleared paths, no directory is in the way, and no path is stuck |
| StoreSwap.SwapIff | src/bead_migrate.rs:280-316 | on any file system a swap goes through exactly when `dolt/` is a directory, `dolt.bak` is absent, the built store is a file outside the four cleared paths, no directory is at `beads.db`, and no renamed path is stuck |
| StoreSwap.SwapLeaves | src/bead_migrate.rs:299-316 | a finished swap leaves the built store and the backup at their new places and nothing at the old ones, clears the stale files, and keeps all else |
| StoreSwap.BuiltInPlaceIsLost | src/bead_migrate.rs:280-316 | a store built at beads.db itself may be swapped in, and the swap fails |
| AgentsFile.ManagedBlock | src/init.rs:247-260 | appending piece by piece builds the block |
| AgentsFile.MergeAgents | src/init.rs:264-315 | each branch's text and outcome |
| AgentsFile.OutcomeMeans | src/init.rs:264-315 | created exactly without a file; unchanged or updated, by whether the text differs, exactly with our marker; replaced exactly with only bd's |
| AgentsFile.MergeIsSectioned | src/init.rs:264-315 | the result is the block between kept text: what precedes the first start marker, and what follows its first end marker and one newline (nothing, when it is never closed); failing ours the same for bd's block; failing both the whole text and a blank line; from nothing just the block |
| AgentsFile.UnclosedLosesRest | src/init.rs:271-283 | a section without its end marker takes everything behind its start with it |
| AgentsFile.IdempotentIffTemplateClean | src/init.rs:264-315 | merging again changes nothing exactly when the trimmed template does not hold the end marker |
| AgentsFile.EndMarkerTemplateNeverSettles | src/init.rs:264-315 | with the end marker for a template a second merge changes every file again |
| AgentsFile.RerunUnchanged | src/init.rs:233-315 | with such a template a second run reports no change |
| PrecommitYaml.MergePrecommitYaml | src/precommit_yaml.rs:71-100 | the marked entry replaced where it is, or spliced in after the first `repos:` line or a new one |
| PrecommitYaml.OnceIsFixedIff | src/precommit_yaml.rs:71-100 | one application is a fixed point exactly when no empty line follows the `repos:` line it inserts after |
| PrecommitYaml.TwiceIsFixed | src/precommit_yaml.rs:71-100 | two applications always are |
| PrecommitYaml.FirstInstallKeepsIff | src/precommit_yaml.rs:71-100 | a first install, into a `repos:` list or with a new one, leaves the rest byte for byte exactly when the text is newline-terminated without carriage returns before newlines |
| PrecommitYaml.ReinstallKeepsIff | src/precommit_yaml.rs:72-83 | replacing a closed block keeps the text before it, and keeps what is behind it byte for byte exactly when that is a newline and no empty line next |
| PrecommitYaml.UnclosedLosesRest | src/precommit_yaml.rs:72-83 | a block without its end marker takes everything behind its start with it |
| PrecommitYaml.BlankLineDelays | src/precommit_yaml.rs:71-100 | `repos:` and an empty line: the second install changes the file again |
| PrecommitYaml.MissingNewlineAdded | src/precommit_yaml.rs:71-100 | `repos:` without a newline does not survive a first install byte for byte |
| PrecommitYaml.BlankLineDropped | src/precommit_yaml.rs:72-83 | an installed entry and an empty line: a re-install shortens the file |
| PrecommitYaml.RsryIsGood | src/precommit_yaml.rs:29-58 | the shipped entry meets what the merge lemmas ask of an entry |
| RepoPool.RepoPool.FromConfig | src/pool.rs:157-180 | the repositories that have a `.beads/` are recorded and nothing is connected |
| RepoPool.RepoPool.EnsureFresh | src/pool.rs:189-241 | rescans exactly when the config loads and its mtime has risen |
| RepoPool.RepoPool.ReapAndReconnect | src/pool.rs:246-268 | opens the recorded directory and records its client and port; an unknown name or a failed open changes nothing |
| RepoPool.RepoPool.Get | src/pool.rs:315-333 | serves the pooled client unless its port is stale, else reconnects a known name |
| RepoPool.RepoPool.PathFor | src/pool.rs:273-276 | the recorded path after any rescan |
| RepoPool.ClientsMatchRecords | src/pool.rs:189-268 | in every state any run reaches, each client was opened from the directory now recorded for its name |
| RepoPorts.LookupMeans | src/pool.rs:315-333 | a pooled client is served exactly unless its Dolt server no longer announces the port that was seen; else the recorded directory is opened, and a failure changes nothing |
| RepoPorts.PortsComeFromOpening | src/pool.rs:189-333 | over any run each pooled client was opened by a call for its name, and the pool remembers exactly the port announced at that call |
| RepoPorts.ReopenedIff | src/pool.rs:56-268 | a client opened in one world is opened again in a later one exactly when its directory runs a server, announced a port then, and does not announce the same one now |
| RepoPool.GateLosesNothing | src/pool.rs:189-333 | with distinct names and mtimes that rise with every change, the gated pool answers like one that rescans on every call |
| RepoPool.RescanIsRestartIff | src/pool.rs:209-239 | a rescan records what a restart would exactly when no recorded repository is still configured without its `.beads/` |
| RepoPool.LostBeadsStay | src/pool.rs:209-239 | a configured repository whose `.beads/` is gone is kept by a rescan and unknown after a restart |
| RepoGaps.GateDiffersIff | src/pool.rs:189-333 | a call answers differently from one that rescans exactly when the config loads, its mtime has not risen, a rescan would change the path recorded for the name, and, for a store, there is a client to get |
| RepoGaps.FirstRescanIff | src/pool.rs:157-241 | the first call rescans exactly when the config loads and is newer than at startup, or had no mtime then and has one now |
| RepoGaps.NewBeadsUnseen | src/pool.rs:310-333 | a `.beads/` added after startup without touching the config: the pool answers none |
| Credentials.OAuthCredential.AccessToken | src/credential.rs:162-191 | serves a fresh cached token, else mints and replaces it; a failed mint changes nothing |
| Credentials.ServeMeans | src/credential.rs:162-191 | a call mints exactly when not more than 60 s of a cached token are left and the endpoint answers, and has no bearer exactly when it does not |
| Credentials.Bearer | src/credential.rs:153-159 | a static key as it is, an OAuth credential through its cache |
| Credentials.BearerHasTimeLeft | src/credential.rs:162-191 | over any run every bearer handed out was minted by that call or an earlier one, and more than 60 s of its lifetime, counted from that call, are left |
| Credentials.MintsAreSpaced | src/credential.rs:162-191 | with calls one after another, a forward clock and lifetime L above 60 s, k mints take at least (k-1)(L-60) seconds |
| MintRaces.MintsPerWindow | src/credential.rs:162-191 | with n overlapping callers, of the tokens asked for in any window of L-60 seconds at most n(n+1)/2 are cached |
| MintRaces.MintsAreBounded | src/credential.rs:162-191 | over w such windows at most w n(n+1)/2, so a caller alone caches one in each |
| MintRaces.StormReachesBound | src/credential.rs:162-191 | for every n, a run of n callers from idle with an empty cache reaches the bound |

## Left out

- Similarity.CombinedSimilarity: uses real arithmetic where the program uses 64-bit floats, and leaves lower-casing and the two sequence-token folds uninterpreted.
- Clusters.ClusterBeads: leaves the order of the clusters open, because the program takes it from a hash map.
- Scopes.OverlapIsCommonPath: says nothing of `./` as a repository-wide scope, which the program documents elsewhere but does not implement here.
- Pipeline.EveryRunEnds: takes retries to be counted up on a retry and reset on an advance, which is the caller's bookkeeping; the database that stores pipeline states is not modelled.
- DispatchIds.ParsesMagnitude: leaves the calendar library's range of representable dates open.
- HandoffChain.FinalHashFixesHistory: SHA-256 is an arbitrary function to 32 bytes, so the statement names the collision it would need.
- HandoffFiles.WinnerIsReadForever: takes a proper prefix of a record's text not to parse, as holds for JSON objects.
- JsonArray.ExtractJsonArray: scans characters where the program scans bytes; the characters it looks for are ASCII, so multi-byte ones change nothing. Its depth is unbounded, where the program counts in 32 bits.
- ProjectionLaws.EachIsRefreshIff: takes rendered records to be single lines that parse back; rendering itself, git and the temporary file of an atomic replace are not modelled.
- ShortIds.Resolve: the SQL LIKE pattern is an arbitrary relation between ids, so wildcards and case rules are covered but not spelled out.
- BeadStore.BeadStore.CreateBeadFull: dependencies given at creation are left out, because no modelled caller passes any; so are the search index and the count columns.
- BeadStore.BeadStore.CommentOn: comments are kept in the order they are added, and their ids, timestamps and edit trail are left out; the Dolt store does not touch the bead, the SQLite store, which is modelled, does.
- BeadMove.MoveBead: the audit events are best-effort and left out; a read that fails ends a move where its next write would have.
- MoveChains.OneCopyStaysMovable: counts moves that succeed; MoveTries has those that do not. Both take scrubbing neither to make nor to break the start of a tombstone, as holds for the patterns the program redacts.
- BeadMigrate.MigrateStore: a read that fails with an error ends the migration before its next write, as a failing write would; only the reads whose failure the program swallows are parameters.
- MigrationLaws.MigrationCopiesAll: takes the source's edges to have distinct ends, its table's primary key, and the target to have room for every write.
- StoreSwap.NoEmptyWindow: directories are opaque, so a built store inside `dolt/` is not covered; stopping the Dolt server and rewriting `metadata.json` are left out.
- AgentsFile.RerunUnchanged: the shipped template text, docs/onboarding/AGENTS.md, is not part of this model; any template free of the end marker is covered.
- RepoPool.GateLosesNothing: each call is one atomic step, where the program drops its lock while connecting; mtimes have whole seconds, so two changes within one second fall outside its assumption.
- Credentials.MintsAreSpaced: calls are atomic, and overlapping ones are in MintRaces; the token endpoint answers with a fixed lifetime, and its details are left out.
- MintRaces.MintsPerWindow: counts tokens that arrive and are cached; a request that fails is not counted, so there is no bound on those.
- Finite tables (state transitions, tracker mappings, provider aliases), command-line output, network, database and model calls are left out.
- Priority suggestions for beads of a cluster are left out.
