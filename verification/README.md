# CodaLab Worksheets: a verified model

This project models the parts of CodaLab Worksheets that are algorithms and state machines rather
than plumbing, and proves what they promise. `dafny verify dfyconfig.toml` checks all of it.

Code that works by changing state is modelled by classes and methods with loops, each proved
against a function or predicate on plain values; what the source promises is then proved about
those as lemmas. Protocols whose handlers interleave are modelled as state machines over their steps.

- **Mimicry** (`MimicGraph`, `Mimic`, `MimicRequest`, `MimicMeaning`). A table of bundles is a
  dependency graph. `Mimicry` is the recursion over it with its memo, its plan and its `downstream`
  set; `MimicBundles` is the whole request, with the level-by-level fetch before it. A bundle's
  meaning is the tree of commands it was made by, an uninterpreted function of command and ordered
  dependencies. Bundle uuids are numbers here; the server hands out fresh ones.
- **Worksheet interpretation** (`Interpret`, `Interpreter`, `InterpretAlign`, `InterpretReading`,
  `InterpretGroups`, `InterpretErrors`). `Interpreter` is the pass over the raw items with all its
  pending groups and flush points, and `FillBackward` the backward pass. `Interpret` has the same pass
  as a function on states; the other modules say where each item ends up, what the blocks show and in
  which grouping, and which items are errors, in terms of the raw items alone.
- **Worksheet text** (`WhiteSpace`, `ShellWords`, `ShellGrammar`, `WorksheetText`). Directives are
  quoted and split as in section 2.2 (Quoting) of the POSIX Shell Command Language, with the splitter
  proved equal to a grammar; the patterns for the kinds of lines are scanners proved equal to the
  languages of the patterns.
- **Timed locks** (`TimedLocks`). The websocket server's handlers, one step between two awaits.
- **Caches** (`BundleStore`, `ByteRange`). The disk lookup with its recency cache, and the chunk
  cache over growing files.
- **Competition daemon** (`Competition`, `CompetitionHistory`), **rate limiter** (`RateLimit`), **key derivation**
  (`Pbkdf2`), **following files** (`Follow`), **command desugaring** (`Desugar`, `TargetSpecs`),
  **metadata rows** (`MetadataRows`).
- **Worker sockets and downloads** (`WorkerSockets`, `DownloadManager`). The worker tables with a
  history of what happened to the socket table, and every read of the download manager with other
  requests taking steps wherever a read waits.

What is outside the model comes in as a parameter or is left open: answers of the database, the
workers, the disks and the clock; the rendering of blocks; the digest behind the key derivation;
how floats are written and read.

## What turned out to be false

The code is kept as it is; a lemma shows the input that breaks the property, and another says when
it holds.

- The rate limiter is documented to admit at most its maximum in any hour. It admits one more after
  a burst as soon as it refills at all (`OneTooMany`), so the documented limit holds exactly when
  the maximum is below 3600 (`HourlyLimitExactly`), and then nothing is ever refilled: the first that
  many calls are admitted, and none ever after (`LifetimeLimit`). What always holds is twice the maximum
  (`AdmittedInAnHour`).
- The send lock is there to keep handlers apart. A step keeps them apart for good exactly when it
  does not let the failsafe free the lock of a live handler and does not register a socket id again
  under one (`OrderlyExactly`, `SlowHolderShares`, `ReRegistrationShares`).
- The total quota is documented as the number of submissions allowed per user for eternity. Running an
  evaluation takes the tag off earlier evaluations of the same name, so what counts is the number of
  names whose last run is the owner's (`CountIsLastNames`), which is the number of runs exactly when no
  run of the owner is followed by one of the same name, by whatever owner (`CountsRunsExactly`). Names
  are joined with hyphens and may hold hyphens, so two owners can share one and both run without end
  (`TurnsRun`): the quota limits what owners run only if nobody can run anything
  (`TotalLimitsExactly`), or as far as names do not recur (`NamesKeepTheLimit`).
- With several models allowed, each model is checked against the same count and the quota can be passed
  even by what counts (`ModelsShareNoQuota`); the configurations whose passes all keep the quotas are
  known exactly (`QuotaExactly`).
- Evaluations beyond what one fetch returns are not counted, so with a longer history a submission passes
  although its owner is at a quota (`Forgotten`), whatever the configuration, unless nobody can run
  anything (`LongHistoryExactly`).
- A file that grows inside one `read` can leave a hole. It is harmless exactly when the read needs
  one chunk only or the file reaches the last chunk from the beginning (`GrowthInsideRead`).
- A bundle is not always found where it is: a copy on another mounted partition misleads the search
  once the file system lists that partition first (`AnyCopyMisleads`), and one on a partition listed
  before its disk does so without that (`CopyMisleads`). The bundle stays found, whatever happens that
  has no copy of it, exactly while no other mounted disk holds it and the cache agrees
  (`StaysExactly`); as long as the listing keeps its order, exactly while its disk is the first listed
  one that holds it (`InOrderExactly`). Each step that keeps this is known exactly (`FoundKept`).
- If a socket id is handed out again, after a worker cleanup, before the read that had it releases
  it, the read takes away somebody else's socket (`ReusedIdIsTaken`). A read is invisible in the
  table exactly when that does not happen (`InvisibleExactly`); ids that are never reused, or the
  absence of cleanups, rule it out.
- The validation of metadata lets a truth value pass for a number; the rows written for it cannot be
  read back (`ReadableIff`).
- New keys are numbered by the bindings made so far, whatever their names, so a spec without a key can be
  refused: `a` after `b2:x` is (`NewKeyRefused`). It happens exactly when the number's key was asked for
  before (`NewKeyMeets`), and never to specs that ask for no keys (`UnaskedAccepted`).
- A bound target is written `key:target`, but `::x` is written as text without a key
  (`DoubleColonLost`) and `:a/b:c` as text for another target (`ColonMisread`). All that is written for
  a command reads back as it was bound exactly when none of its specs has a target that starts with a
  colon or asks for a key with one (`WrittenReadsBack`).
- A worksheet does not always come back from its text. Which items do is known exactly
  (`PrintAndParse`); a bundle is lost when a line break gets into what its line shows (`BrokenBundle`),
  which its command cannot cause (`DescribedBreaks`).
- Workers are listed with dependencies joined on the worker id alone: a worker may be listed with
  those of another user's (`TwoCheckinsMixUp`), unless all workers of its id have the same ones
  (`ListedOwnExactly`).

Where comments and code disagree the code is followed: `rate_limited` says its limit is per hour,
and `read` in `bundle_fuse.py` starts from a text string although what it joins are bytes.

## Model

| member | source | states |
|---|---|---|
| MimicRequest.GatherLevel | codalab/lib/bundle_util.py:93-110 | one level of the search visits each queued bundle once, fetches exactly those not known yet, and queues the unknown parents of newly visited ones; it fails only on a queued bundle the server does not have |
| MimicRequest.Gather | codalab/lib/bundle_util.py:86-119 | the search fetches exactly the bundles with a walk of fewer than `depth` dependency steps from the starting bundles, and lists exactly those with a walk of at most `depth`; it succeeds iff all it has to fetch exist |
| MimicGraph.WithinMonotone | codalab/lib/bundle_util.py:86-117 | the bundles within fewer levels are among those within more levels |
| MimicGraph.WithinExactly | codalab/lib/bundle_util.py:86-117 | the bundles within k levels are exactly those with a walk of at most k dependency steps from a starting bundle |
| MimicRequest.NextBatchComplete | codalab/lib/bundle_util.py:93-110 | a parent of a newly visited bundle is known by the end of the level or is in the next batch, so skipping known parents loses nothing |
| MimicGraph.ReachesStep | codalab/lib/bundle_util.py:154-159 | the one-step test (lone output, or some parent is downstream) computes the least set of bundles with a path to an old input |
| MimicGraph.VisitFacts | codalab/lib/bundle_util.py:133-152 | asking for a bundle finishes it after all its parents, each bundle once, and finishes only bundles it leads to |
| MimicGraph.FinishedIsClosed | codalab/lib/bundle_util.py:133-152 | whatever a finished bundle leads to through fetched, unmapped bundles is finished too |
| MimicGraph.VisitedExactly | codalab/lib/bundle_util.py:246-252 | whatever the order of the requests, exactly the bundles some request leads to are handled |
| MimicGraph.AcyclicRanked | codalab/lib/bundle_util.py:133-152 | a graph without a dependency cycle among unmapped bundles has a measure under which every parent is smaller, so the recursion ends |
| MimicGraph.RankedAcyclic | codalab/lib/bundle_util.py:133-152 | conversely such a measure rules out every cycle |
| Mimic.Setup.RemakesExactly | codalab/lib/bundle_util.py:154-159 | the remade bundles are exactly the handled ones that are downstream, each once |
| Mimic.Setup.RemakesOrdered | codalab/lib/bundle_util.py:236-239 | in the plan a remade parent comes before its children |
| Mimic.Run.DownstreamDecided | codalab/lib/bundle_util.py:154-159 | with all parents handled, the code's test on the `downstream` set decides exactly whether the bundle has a path to an old input |
| Mimic.Run.KeptInv | codalab/lib/bundle_util.py:240-244 | mapping a bundle to itself keeps the invariant of the recursion: memo, downstream set, plan, created uuids and server agree with the graph |
| Mimic.Run.RemadeInv | codalab/lib/bundle_util.py:159-244 | remaking a bundle keeps it too |
| Mimic.Run.AllRunnable | codalab/lib/bundle_util.py:220-223 | in a completed real run every bundle in the plan was a run or a make |
| Mimic.Client.Create | codalab/lib/bundle_util.py:234-234 | a created bundle gets an unused uuid, holds the info sent, and changes no other bundle |
| Mimic.Mimicry.Finish | codalab/lib/bundle_util.py:153-244 | after its parents, one bundle is kept or remade as the rules say and recorded in plan and memo; it fails only in a real run on a downstream bundle that is neither run nor make |
| Mimic.Mimicry.Recurse | codalab/lib/bundle_util.py:133-244 | the recursion returns where the bundle is mapped, handles exactly the bundles of the depth-first order, and keeps the invariant |
| Mimic.Mimicry.RecurseParents | codalab/lib/bundle_util.py:143-152 | the dependencies are rewritten in order, child and parent paths kept, each parent replaced by its image |
| MimicRequest.ZipInputs | codalab/lib/bundle_util.py:128-130 | the keys are exactly the old inputs as far as both lists go, and each has the new input that stands beside its last place |
| MimicRequest.Request.InputsPaired | codalab/lib/bundle_util.py:128-130 | the inputs every other theorem speaks of are that pairing: with n the shorter length, the keys are the elements of `oldInputs[..n]`, and an old input whose last place before n is i is mapped to `newInputs[i]` |
| MimicRequest.Request.PairedUnique | codalab/lib/bundle_util.py:128-130 | there is only one such pairing |
| MimicRequest.RequestComesTo | codalab/lib/bundle_util.py:63-130 | what a request comes to: fetched are the bundles fewer than `depth` steps above the output, or above the old inputs and what was derived from them; the inputs are the pairing above; the output counts as downstream by itself iff there are no old inputs; it alone is asked for when given |
| MimicRequest.MimicBundles | codalab/lib/bundle_util.py:43-252 | a request succeeds iff all it must fetch exists and, in a real run, all it must remake are runs or makes; the plan's old bundles depend on graph and request only, so dry run and real run list the same ones in the same order; a dry run changes nothing; on success every old input is mapped to the new input beside its last place |
| MimicRequest.PlanExactly | codalab/lib/bundle_util.py:154-252 | the plan holds exactly the bundles that some request leads to and that have a path to an old input, each once, remade parents first |
| MimicRequest.DoableExactly | codalab/lib/bundle_util.py:220-223 | a real run can be carried out iff every bundle in the plan is a run or a make |
| MimicMeaning.MeaningUnique | codalab/lib/bundle_util.py:143-152 | a bundle has at most one meaning |
| MimicMeaning.MeaningExists | codalab/lib/bundle_util.py:143-152 | on an acyclic table every bundle has one |
| MimicMeaning.OldMeaningsStay | codalab/lib/bundle_util.py:234-234 | creating bundles changes no existing meaning |
| MimicMeaning.PlaceCopies | codalab/lib/bundle_util.py:143-152 | the bundle that stands for a fetched bundle has its type, its command, and its dependencies in order under the same child and parent paths, each moved to where it ended up |
| MimicMeaning.MimicPreservesMeaning | codalab/lib/bundle_util.py:133-244 | the bundle an old bundle is mapped to means exactly what the old one meant with every old input replaced by its new input; bundles beyond the fetched depth are unchanged |
| MimicMeaning.SubstitutionExists | codalab/lib/bundle_util.py:133-244 | on an acyclic table the substituted meaning exists for every bundle |
| MimicMeaning.MimicSubstitutes | codalab/lib/bundle_util.py:133-244 | so there is exactly one meaning that is both the old bundle's with every old input replaced and that of the bundle it is mapped to |
| MimicMeaning.UntouchedMeaning | codalab/lib/bundle_util.py:153-244 | a bundle without a path to an old input stays where it is, and the substitution does not change its meaning |
| MimicMeaning.FindMimicked | scripts/competitiond.py:470-492 | a bundle is found in a plan iff the plan remakes it |
| MimicMeaning.RunPrediction | scripts/competitiond.py:433-492 | nothing is created unless the dry run's plan has the submission; when it has, the real plan has it too, and its new bundle exists and is new |
| Interpret.OnePositionEach | codalab/lib/worksheet_util.py:937-1156 | every raw item gets one position, one extra only when the flush after the last item is what fails |
| Interpret.StepRises | codalab/lib/worksheet_util.py:937-1152 | one item, with or without an error, keeps the positions in rising block order and within the blocks to come |
| Interpret.PositionsRise | codalab/lib/worksheet_util.py:937-1152 | block numbers never decrease along the raw items, whatever errors occur |
| Interpreter.NextPositionIsFirst | codalab/lib/worksheet_util.py:1158-1170 | the position an empty entry takes is the first recorded one after it |
| Interpreter.NextPositionNone | codalab/lib/worksheet_util.py:1158-1170 | it stays empty when nothing after it is recorded |
| Interpreter.FilledRises | codalab/lib/worksheet_util.py:1158-1170 | filling keeps the block order |
| Interpreter.FillBackward | codalab/lib/worksheet_util.py:1158-1170 | the backward pass gives each empty entry the next later position, and sends each recorded position to the largest raw index that held it before the fill, and nothing else |
| Interpreter.Interpreter.FlushBundles | codalab/lib/worksheet_util.py:710-913 | a pending group becomes the blocks of its display mode and is cleared, or an error leaves it |
| Interpreter.Interpreter.Open | codalab/lib/worksheet_util.py:946-984 | what an item ends is flushed and reset, in the order bundles, subworksheets, display, schema |
| Interpreter.Interpreter.Place | codalab/lib/worksheet_util.py:986-1086 | the item joins its group or block and its position is recorded |
| Interpreter.Interpreter.Close | codalab/lib/worksheet_util.py:1088-1115 | after the last item everything held back is flushed |
| Interpreter.Interpreter.Handle | codalab/lib/worksheet_util.py:1117-1149 | an error drops what is held back, adds an error block and records it as a position |
| Interpreter.Interpreter.Run | codalab/lib/worksheet_util.py:937-1152 | the whole pass ends in the state the step function prescribes |
| Interpreter.InterpretItems | codalab/lib/worksheet_util.py:637-1177 | the result has one filled position per raw item (one extra only when the closing flush fails), in rising block order, with the way back to the last raw index of each position |
| InterpretAlign.Alignment | codalab/lib/worksheet_util.py:937-1115 | in an error-free interpretation each bundle in table mode maps to (b, k) where final block b is the table whose row k is that bundle, and each subworksheet, schema, search and non-empty markup line maps to the block showing it, though the index is recorded before the block exists |
| InterpretAlign.OpenedAligned | codalab/lib/worksheet_util.py:946-984 | flushing at the next item turns the promised position into the block that shows the item, and moves no other |
| InterpretAlign.PlacedNew | codalab/lib/worksheet_util.py:986-1086 | the position recorded for an item is where its block is or will be |
| InterpretAlign.ClosedAligned | codalab/lib/worksheet_util.py:1088-1115 | the closing flush turns every remaining promise into a block |
| InterpretReading.BlocksReadBack | codalab/lib/worksheet_util.py:710-1115 | reading the final blocks in order gives back exactly the items that belong in blocks, in raw order, whatever the display mode, each markup line with its id and its text: none lost, none twice, none out of order |
| InterpretReading.LinesOverRuns | codalab/lib/worksheet_util.py:997-1025 | in every interpretation, with errors or without, a markup block has one line for each of its ids, or is the notice of an error |
| InterpretReading.ParagraphOverRuns | codalab/lib/worksheet_util.py:997-1025 | text is only ever joined to the paragraph of the item before it, never to a notice |
| InterpretGroups.NeighboursShare | codalab/lib/worksheet_util.py:986-1025 | without errors two neighbours of one kind share a block: a bundle or subworksheet is in the row after the one before it, a line of markup in the same paragraph |
| InterpretGroups.OthersBegin | codalab/lib/worksheet_util.py:946-1025 | an item whose neighbour before it is of another kind begins a block past all blocks that show an item before it |
| InterpretGroups.SchemaBlock | codalab/lib/worksheet_util.py:1034-1064 | a schema definition with the `add` and `addschema` lines after it becomes one block at the position of the definition, with its fields and its ids in their order |
| InterpretErrors.FineExactly | codalab/lib/worksheet_util.py:710-1086 | after an error-free beginning an item raises an error iff what it asks for does not hold: a known directive with its name, a schema being defined, a known schema, and a group before it that can be shown |
| InterpretErrors.KnownSchemas | codalab/lib/worksheet_util.py:1034-1054 | known are exactly the schemas the worksheet began with and those defined before; the one being defined is one of them |
| InterpretErrors.HeldOverRuns | codalab/lib/worksheet_util.py:946-1032 | held back is exactly the run of bundles or of subworksheets right before the item, and the display in force is the one set for it |
| InterpretErrors.ErrorLeaves | codalab/lib/worksheet_util.py:1117-1149 | an error drops whatever is held back and leaves a notice as the last block, which is where its item is found |
| WhiteSpace.SpacesAre | codalab/lib/worksheet_util.py:69-73 | white space, as patterns and trimming take it, is these characters, one by one |
| ShellWords.TokensRoundTrip | codalab/lib/formatting.py:170-191 | splitting the quoted text of any tokens gives back the tokens |
| ShellWords.LexQuote | codalab/lib/formatting.py:160-178 | one quoted token is read as that one word in any context |
| ShellWords.TokensNewline | codalab/lib/formatting.py:170-178 | the text has a line break iff some token has |
| ShellWords.TokensEnd | codalab/lib/formatting.py:170-178 | the text starts and ends solid, so trimming a line cannot eat into it |
| ShellWords.QuoteBare | codalab/lib/formatting.py:170-178 | a token stands unquoted iff it is not empty and has only letters, digits and the ten safe characters |
| ShellGrammar.SplitExactly | codalab/lib/formatting.py:181-191 | a line is split iff it is made of words, white space, quoted stretches and escaped characters, and then into just the words these spell |
| WorksheetText.MatchSound | codalab/lib/worksheet_util.py:69-73 | what the scanner finds is a spec of the line in the language of the pattern |
| WorksheetText.MatchComplete | codalab/lib/worksheet_util.py:69-73 | every line in the language of the pattern is recognized |
| WorksheetText.BundleSpecUnique | codalab/lib/worksheet_util.py:69-73 | a bundle line holds one spec only, whatever its description contains |
| WorksheetText.DirectiveSound | codalab/lib/worksheet_util.py:69-73 | what the scanner takes for a directive is in the language of the directive pattern, with that body |
| WorksheetText.DirectiveComplete | codalab/lib/worksheet_util.py:69-73 | every line in that language is recognized, with the one body it can have |
| WorksheetText.GetWorksheetLines | codalab/lib/worksheet_util.py:137-188 | the printer writes each stored item as its line, in order: a bundle with its type, name, dependencies and command, or bare when nothing is known of it, a worksheet with its name |
| WorksheetText.DescribedBreaks | codalab/lib/worksheet_util.py:162-178 | what is written about a bundle has no line break iff its type, its name and the names and paths of its dependencies have none; its command may have any |
| WorksheetText.RunDescribed | codalab/lib/worksheet_util.py:162-178 | a run with two dependencies, one under the name of its bundle, and a command of two lines is described as `run r -- :a,k:b/p : x y` |
| WorksheetText.CopyDescribed | codalab/lib/worksheet_util.py:162-178 | a make whose only dependency has no key is described as `make copy -- a.txt` |
| WorksheetText.LostDescribed | codalab/lib/worksheet_util.py:162-178 | of a dependency that is gone, the path is written |
| WorksheetText.PercentPrinted | codalab/lib/worksheet_util.py:155-160 | a directive is printed as a percent sign, a space unless its text is empty or starts with a percent sign, and its text |
| WorksheetText.BrokenBundle | codalab/lib/worksheet_util.py:69-73 | a bundle line whose description has a line break is not recognized as one, whatever the description is |
| WorksheetText.ParseLine | codalab/lib/worksheet_util.py:325-353 | one line becomes the item its kind says |
| WorksheetText.CommentRead | codalab/lib/worksheet_util.py:326-328 | a line that begins with two slashes is a comment of the rest, whatever else it matches |
| WorksheetText.BundleRead | codalab/lib/worksheet_util.py:329-333 | otherwise a line of the bundle pattern is the bundle its spec resolves to, or an error |
| WorksheetText.SheetRead | codalab/lib/worksheet_util.py:334-345 | otherwise a line of the subworksheet pattern is the worksheet its spec resolves to, or markup that says why it does not |
| WorksheetText.DirectiveRead | codalab/lib/worksheet_util.py:346-348 | otherwise a line of the directive pattern is its body split into words, or an error |
| WorksheetText.MarkupRead | codalab/lib/worksheet_util.py:349-350 | every other line is markup, verbatim |
| WorksheetText.ResolveBundles | codalab/lib/worksheet_util.py:305-323 | bundle specs are resolved in one batch that fails iff one of them fails |
| WorksheetText.ParseWorksheetForm | codalab/lib/worksheet_util.py:287-355 | parsing succeeds iff every line does, and then gives the item of each line in order |
| WorksheetText.BundleRoundTrip | codalab/lib/worksheet_util.py:100-101 | a bundle line with a full uuid reads back as that bundle iff its description has no line break |
| WorksheetText.SheetRoundTrip | codalab/lib/worksheet_util.py:104-105 | a subworksheet line with a full uuid reads back as that worksheet, for every newline-free description |
| WorksheetText.DirectiveRoundTrip | codalab/lib/worksheet_util.py:152-160 | a directive reads back iff its tokens have no line break, and else becomes markup |
| WorksheetText.MarkupRoundTrip | codalab/lib/worksheet_util.py:293-303 | markup reads back iff its text does not read as another kind |
| WorksheetText.ItemRoundTrip | codalab/lib/worksheet_util.py:137-188 | an item reads back from its line, up to the description, iff it is canonical |
| WorksheetText.PrintAndParse | codalab/lib/worksheet_util.py:137-355 | a whole worksheet as stored comes back from its text, but for the descriptions, iff all its items are canonical: markup that does not read as another kind, comments of one token, other directives without line breaks, bundles that are shown on one line |
| TimedLocks.TimedLock.Acquire | codalab/bin/ws_server.py:27-31 | acquired without waiting, as the handlers do, the lock is taken iff it was free, with the time of taking |
| TimedLocks.TimedLock.Release | codalab/bin/ws_server.py:36-37 | releasing a free lock is an error |
| TimedLocks.TimedLock.ReleaseIfTimeout | codalab/bin/ws_server.py:39-44 | afterwards the lock is held iff it was and has not been for longer than its timeout |
| TimedLocks.TablesKept | codalab/bin/ws_server.py:61-131 | every step, orderly or not, keeps socket and lock tables in agreement |
| TimedLocks.InvKept | codalab/bin/ws_server.py:61-131 | a step keeps the exclusion invariant iff it does not let the failsafe free a live handler's lock and does not register a socket id a handler is sending on |
| TimedLocks.ExclusionOverRuns | codalab/bin/ws_server.py:80-131 | in every interleaving of such steps at most one live handler per connection is between acquire and release |
| TimedLocks.SlowHolderShares | codalab/bin/ws_server.py:118-123 | from every state in order, one worker message that is late for a live handler lets any new handler in beside it |
| TimedLocks.ReRegistrationShares | codalab/bin/ws_server.py:115-116 | from every state in order, registering a socket id under a live handler, wherever that handler stands, is followed by a continuation without worker messages that puts two live handlers on one connection |
| TimedLocks.ReRegistrationHappens | codalab/bin/ws_server.py:80-116 | such a state is reached in two steps |
| TimedLocks.OrderlyExactly | codalab/bin/ws_server.py:61-131 | a step keeps the connection exclusive for whatever the handlers do after it iff it neither frees the lock of a live handler nor registers its socket id again |
| TimedLocks.AbandonedFreed | codalab/bin/ws_server.py:118-123 | in every state whose tables agree, orderly or not, a step leaves a lock no live handler holds as it was taken, unless it is a message of its worker later than the timeout, which frees it |
| TimedLocks.FirstLateFrees | codalab/bin/ws_server.py:39-44 | in every run, orderly or not, that leaves the connection alone, such a lock stays taken up to a step and is freed by it iff that step is the first message of its worker later than the timeout since the lock was taken |
| TimedLocks.AckFollowsForward | codalab/bin/ws_server.py:84-89 | in every interleaving whatever, data is forwarded after it was received and acknowledged after it was forwarded |
| TimedLocks.GoneIsNotTaken | codalab/bin/ws_server.py:129-130 | once a connection has gone no handler takes its lock until its socket id is registered again |
| TimedLocks.SendsWhereRegistered | codalab/bin/ws_server.py:80-116 | a handler that takes the lock of a connection sends on the socket registered last, whatever happens after it has taken it |
| TimedLocks.MinuteLocks | codalab/bin/ws_server.py:18-25 | every lock in the tables may be held for a minute |
| BundleStore.RoomiestIsBest | codalab/lib/bundle_store.py:114-121 | the disk chosen for a new bundle has the most room, the first of those that have as much |
| BundleStore.LocationIsRight | codalab/lib/bundle_store.py:102-126 | the location every theorem below speaks of is that answer: with no entry and no holder, node k with `free(nodes[i]) <= free(nodes[k])` for all i, strictly for i < k |
| BundleStore.RightLocationUnique | codalab/lib/bundle_store.py:102-126 | there is only one such answer |
| BundleStore.MultiDiskBundleStore.GetBundleLocation | codalab/lib/bundle_store.py:96-126 | the answer is the disk of the cached entry, else the first partition that holds the bundle, else the one with the most free space, the first of several; it is made the newest entry of the cache |
| BundleStore.MultiDiskBundleStore.SearchNodes | codalab/lib/bundle_store.py:105-112 | the search stops at the first partition that has the bundle |
| BundleStore.MultiDiskBundleStore.FindRoomiest | codalab/lib/bundle_store.py:114-121 | the loop over the disks agrees with the choice above |
| BundleStore.MultiDiskBundleStore.AddPartition | codalab/lib/bundle_store.py:128-162 | after adding a partition exactly it and the partitions from before are listed, each once, and every cached location is still on a listed partition; a link cannot take the place of an existing entry; a new partition is the mounting step of the runs below |
| BundleStore.MultiDiskBundleStore.RmPartition | codalab/lib/bundle_store.py:171-209 | the last partition stays, an unknown one is an error, else exactly the others are listed and the cache is purged, which is the unmounting step of the runs below |
| BundleStore.CacheIsRecent | codalab/lib/bundle_store.py:102-125 | the cache left by any lookups holds exactly the last CACHE_SIZE distinct uuids among them, in recency order |
| BundleStore.CacheReplays | codalab/lib/bundle_store.py:96-209 | in every run of lookups, writes, mounts and unmounts the cache is what the lookups since the last effective unmount make it |
| BundleStore.CacheOverRuns | codalab/lib/bundle_store.py:96-209 | so in every run the cache holds exactly the last CACHE_SIZE distinct uuids looked up since the last purge, in recency order |
| BundleStore.RecencyByLastLookup | codalab/lib/bundle_store.py:102-125 | in that order a uuid looked up later for the last time comes later |
| BundleStore.CacheMountedKept | codalab/lib/bundle_store.py:96-209 | a cached location is always on a mounted partition |
| BundleStore.HomeKept | codalab/lib/bundle_store.py:96-209 | a step leaves a bundle on its disk alone iff it brings no copy of it elsewhere and does not unmount the disk |
| BundleStore.HomeLocated | codalab/lib/bundle_store.py:102-121 | a bundle at home is located there whether cached or not |
| BundleStore.LookupAwaits | codalab/lib/bundle_store.py:114-125 | locating a bundle that is nowhere settles where it is awaited |
| BundleStore.AwaitedKept | codalab/lib/bundle_store.py:96-209 | it stays awaited there through every step that neither looks it up or writes it, nor brings a copy, nor takes the disk |
| BundleStore.WrittenIsFound | codalab/lib/bundle_store.py:96-209 | in every run: a bundle located on a disk when it was nowhere, not looked up or written until it is written there, is found on that disk at every later moment, through evictions, purges and changes of free space, while the partition stays and no copy appears |
| BundleStore.LocatedExactly | codalab/lib/bundle_store.py:102-126 | a bundle that is on some mounted partition is located on the cached disk, and without one exactly on the first listed partition that holds it |
| BundleStore.HomeIsFoundOn | codalab/lib/bundle_store.py:102-121 | a bundle alone on its disk, with no other location cached, meets the condition below |
| BundleStore.FoundKept | codalab/lib/bundle_store.py:96-209 | a step leaves a disk the first that holds a bundle iff it neither takes the disk nor brings a copy on one listed before it |
| BundleStore.FoundOverRuns | codalab/lib/bundle_store.py:96-209 | through any run of such steps the bundle is located on that disk |
| BundleStore.StaysExactly | codalab/lib/bundle_store.py:96-209 | a bundle stays located on a disk, whatever is looked up, written, mounted and unmounted that has no copy of it and in whatever order the partitions are then listed, iff no other mounted disk holds it and no cached location says otherwise |
| BundleStore.AnyCopyMisleads | codalab/lib/path_util.py:127-127 | with a copy on any other mounted disk some continuation that moves no copy ends with the bundle located elsewhere, the partitions being listed in another order |
| BundleStore.InOrderExactly | codalab/lib/bundle_store.py:96-209 | as long as the partitions are listed in their old order, a new one last, it stays located there iff that disk is the first listed one that holds it and the cache does not say otherwise |
| BundleStore.CopyMisleads | codalab/lib/bundle_store.py:105-112 | whenever a copy is on a partition listed before the disk, or the cache says otherwise, some continuation without any copy brought or taken, partitions listed in their old order, ends with the bundle located elsewhere |
| ByteRange.FullChunkStays | codalab/lib/bundle_fuse.py:63-64 | a full chunk stays what it is while the file grows |
| ByteRange.ChunksCover | codalab/lib/bundle_fuse.py:44-51 | the chunks from the first byte's to the last byte's cover the range, also for an empty one |
| ByteRange.JoinedNext | codalab/lib/bundle_fuse.py:50-51 | joining one more chunk extends the bytes read by exactly that chunk's range |
| ByteRange.JoinedCut | codalab/lib/bundle_fuse.py:52-57 | the slice cut out of the joined chunks is exactly the wanted range of the file |
| ByteRange.PiecesRead | codalab/lib/bundle_fuse.py:50-57 | chunks that are all as in one state of the file give exactly the wanted range of that state |
| ByteRange.RightStays | codalab/lib/bundle_fuse.py:63-64 | growth does not make a right cache wrong |
| ByteRange.ByteRangeReader.FetchChunk | codalab/lib/bundle_fuse.py:59-92 | through hits, expiries and evictions a chunk is what the file has now; cached chunks are full and right, and never more than the maximum |
| ByteRange.ByteRangeReader.Read | codalab/lib/bundle_fuse.py:43-57 | each chunk is what the file holds when it is fetched, and the bytes returned are cut from those; they are exactly the bytes from offset to min(offset+length, size) when the file does not grow inside the read, and those of the last fetch when it reached the last chunk before |
| ByteRange.ReaderSurvivesGrowth | codalab/lib/bundle_fuse.py:43-92 | a reader stays valid when files grow between reads |
| ByteRange.GrowthInsideRead | codalab/lib/bundle_fuse.py:43-57 | a read of at least one byte returns what the file holds at the last fetch, however the file grows inside the read, iff it needs one chunk only or the file reaches the last chunk when the read begins |
| RateLimit.RateLimiter.Call | codalab/lib/server_util.py:60-82 | a call refills, caps, and is charged or refused |
| RateLimit.CreditBounded | codalab/lib/server_util.py:66-80 | credit always stays between 0 and the maximum |
| RateLimit.CreditBalance | codalab/lib/server_util.py:66-80 | calls admitted since some call, plus what is left, never exceed the maximum plus the refills since |
| RateLimit.AdmittedAtMost | codalab/lib/server_util.py:55-84 | of any calls i to j at most max + (max // 3600)*(t_j - t_i) are admitted |
| RateLimit.AdmittedInAnHour | codalab/lib/server_util.py:55-84 | so at most twice the maximum in any hour |
| RateLimit.OneTooMany | codalab/lib/server_util.py:47-53 | a history in which max + 1 calls are admitted within two seconds, for every max of 3600 or more |
| RateLimit.HourlyLimitExactly | codalab/lib/server_util.py:47-53 | the documented hourly limit holds for all histories iff max < 3600 |
| RateLimit.LifetimeLimit | codalab/lib/server_util.py:69-69 | below 3600 the limiter admits exactly the first that many calls, whenever they come, and none ever after |
| Competition.FetchLatestSubmissions | scripts/competitiond.py:307-336 | for each owner (or owner and model) the newest submission is picked, the last listed of several as new |
| Competition.FetchSubmissionHistory | scripts/competitiond.py:338-377 | ids and counts are exactly those of the tagged evaluations with a readable source, in total and in the trailing period |
| Competition.AllowedIsDue | scripts/competitiond.py:379-415 | with such counts the filter's test means: not evaluated before, and the owner under both quotas |
| Competition.FilterSubmissions | scripts/competitiond.py:379-415 | exactly the submissions passing that test are kept |
| Competition.Server.RunEvaluation | scripts/competitiond.py:494-544 | earlier evaluations of the name lose the tag, and one new evaluation is tagged; an exception leaves nothing done, only the untagging, or both |
| Competition.CountUntagged | scripts/competitiond.py:497-508 | untagging never raises a count |
| Competition.RunSubmissions | scripts/competitiond.py:756-774 | kept submissions whose prediction succeeds are evaluated, each once, all of them unless an evaluation raises, which ends the loop |
| Competition.RunOnce | scripts/competitiond.py:751-783 | a pass runs only the newest submission of each key that is due and predicted, one per key, and all of those unless an evaluation raises; the evaluations afterwards are exactly those runs after the ones before |
| Competition.QuotaKept | scripts/competitiond.py:379-415 | a pass whose owners were under quota keeps the total quota and the period quota in every window of the period's length |
| Competition.QuotaOverPasses | scripts/competitiond.py:751-799 | for every configuration that is safe, over all passes, cut short or not, with evaluations losing tags in between, neither quota is ever passed |
| Competition.ModelsShareNoQuota | scripts/competitiond.py:307-415 | for every configuration that is not safe, a history within the quotas and a pass of one owner's models, all eligible, that together take the owner past a quota |
| Competition.QuotaExactly | scripts/competitiond.py:307-415 | every pass from a history within the quotas keeps them iff one model per owner is allowed, or a quota is zero, or at most one submission is fetched, or twice the fetch limit is within the smaller quota (the total one when the period is not positive) |
| Competition.QuotaUnlimited | scripts/competitiond.py:307-415 | were any number of submissions fetched, every pass would keep them iff one model per owner is allowed or a quota is zero |
| CompetitionHistory.Forgotten | scripts/competitiond.py:338-377 | with more evaluations tagged than one fetch returns, a history within the quotas and a pass of one eligible submission that takes its owner past a quota |
| CompetitionHistory.LongHistoryExactly | scripts/competitiond.py:338-415 | every pass from a history within the quotas, however long, keeps them iff a quota or the fetch limit is zero |
| Competition.CountIsLastNames | scripts/competitiond.py:494-533 | an owner's count is the number of evaluation names whose last run, among those of all owners, was this owner's |
| Competition.CountIsDistinctNames | scripts/competitiond.py:494-508 | where all runs are of one owner, its count is the number of distinct evaluation names run |
| Competition.CountsRunsExactly | scripts/competitiond.py:494-508 | an owner's count is the number of its runs iff none of them is followed by a run, by whatever owner, of the same evaluation name; it is never more |
| Competition.TotalLimitsExactly | scripts/competitiond.py:125-127 | through every sequence of passes no owner gets more runs than the total quota iff that quota, the period quota or the fetch limit is zero |
| Competition.TurnsRun | scripts/competitiond.py:494-508 | with none of these zero, two owners who share an evaluation name submit in turn and every submission is run, however many there are |
| Competition.NamesKeepTheLimit | scripts/competitiond.py:125-127 | with a safe configuration and passes not cut short, an owner none of whose runs is followed by one of the same evaluation name gets no more runs than the total quota |
| Competition.NotRunAgain | scripts/competitiond.py:379-415 | over the passes, a submission that was run is not run again as long as no run of its evaluation name has followed |
| Pbkdf2.XorSplit | codalab/lib/crypt_util.py:209-209 | integer exclusive or acts on high and low bits apart |
| Pbkdf2.XorRefines | codalab/lib/crypt_util.py:102-115 | exclusive or of big-endian integers is the integer of the bytewise exclusive or, for strings of any equal length |
| Pbkdf2.XorBits | codalab/lib/crypt_util.py:209-209 | bit by bit, exclusive or tells where two numbers differ |
| Pbkdf2.BinToLongIsBigEndian | codalab/lib/crypt_util.py:102-107 | reading the hexadecimal digits of a byte string gives its big-endian value |
| Pbkdf2.WrittenBack | codalab/lib/crypt_util.py:110-115 | the padded hexadecimal form of that value is the byte string again, leading zeros included |
| Pbkdf2.IntIsBigEndian | codalab/lib/crypt_util.py:202-202 | the four bytes of a block index are its big-endian form, most significant first |
| Pbkdf2.F | codalab/lib/crypt_util.py:201-210 | the integer loop computes U_1 xor ... xor U_c of section 5.2 of RFC 2898 |
| Pbkdf2.UIterates | codalab/lib/crypt_util.py:201-208 | the U are the digest of salt and block index and then each the digest of the one before |
| Pbkdf2.BlockBits | codalab/lib/crypt_util.py:201-210 | a bit of a block is set iff it is set in an odd number of them |
| Pbkdf2.BlocksAt | codalab/lib/crypt_util.py:212-213 | byte p of the joined blocks is byte p % hlen of block p / hlen + 1 |
| Pbkdf2.BlockCountBounds | codalab/lib/crypt_util.py:187-190 | the double negation rounds up: the block count is the least that suffices, and fits four bytes iff the length passes the limit check |
| Pbkdf2.DeriveKey | codalab/lib/crypt_util.py:166-213 | the key has dklen bytes, a digest's worth when dklen is 0, and byte p of it is byte p % hlen of T_(p / hlen + 1) of section 5.2 of RFC 2898; it fails iff there are no iterations or the length is over the limit |
| Follow.ReadStep | codalab/lib/bundle_cli.py:2792-2808 | an answered range request continues the output where it stopped, and an answer shorter than asked for reaches the end of the file |
| Follow.KeptLater | codalab/lib/bundle_cli.py:2767-2818 | what was written stays a stretch of the file as it grows |
| Follow.ReadOn | codalab/lib/bundle_cli.py:2790-2808 | one file is read on with no gap and no repetition, to its end once the run is over; no other file's output is touched |
| Follow.WaitForPaths | codalab/lib/bundle_cli.py:2755-2766 | the wait ends, with every path there or the run over |
| Follow.ReadAll | codalab/lib/bundle_cli.py:2772-2808 | a round reads every path that has appeared, and stops at one that is missing |
| Follow.FollowTargets | codalab/lib/bundle_cli.py:2738-2818 | following ends; it succeeds iff every path exists in the end, and then each file was written from its first byte, or, not from the start, without all but the last 64 of the bytes it had when seen first, to its final end; otherwise the paths before the first missing one were, and nothing of the others |
| Follow.FollowedIsWritten | codalab/lib/bundle_cli.py:2782-2786 | what is written of a file leaves out nothing from the start on, and else exactly its first size - 64 bytes, or none when it had at most 64 |
| Follow.RoundMissing | codalab/lib/bundle_cli.py:2772-2777 | a path found missing after the wait never appears |
| WorkerSockets.RowsAreLive | codalab/model/worker_model.py:250-274 | the socket table holds exactly the sockets allocated to a worker and neither released nor cleaned up since |
| WorkerSockets.WorkerModel.AllocateSocket | codalab/model/worker_model.py:250-265 | a socket id not in the table is entered for the worker |
| WorkerSockets.WorkerModel.DeallocateSocket | codalab/model/worker_model.py:267-274 | the row and the socket file go, nothing else |
| WorkerSockets.WorkerModel.WorkerCheckin | codalab/model/worker_model.py:48-129 | worker and dependency tables keep the same keys; a known worker keeps its socket, and its group when the group name is unknown; a new one gets a live socket |
| WorkerSockets.WorkerModel.WorkerCleanup | codalab/model/worker_model.py:139-180 | every row and socket file of the worker goes, and nothing of any other worker; none of its sockets stays live |
| WorkerSockets.WorkerModel.HasReplyPermission | codalab/model/worker_model.py:428-446 | reply permission holds iff the socket was allocated to that worker and not released since |
| WorkerSockets.WorkerModel.GetWorkers | codalab/model/worker_model.py:182-224 | every worker is listed once, with its runs in the order of their rows and the dependencies its last joined row brings, in whatever order the database answers; an error iff some run is of an unknown worker |
| WorkerSockets.ListedFromJoin | codalab/model/worker_model.py:188-195 | a worker is listed with the dependencies of some worker that has its worker id, whoever the user |
| WorkerSockets.SharedIdMixesUp | codalab/model/worker_model.py:188-195 | of any two workers with one worker id, for some order of the answer the one is listed with the dependencies of the other |
| WorkerSockets.TwoCheckinsMixUp | codalab/model/worker_model.py:48-129 | so after two users check in under one worker id with different dependencies the first may be listed with those of the second |
| WorkerSockets.ListedOwnExactly | codalab/model/worker_model.py:182-224 | a worker is listed with its own dependencies in every order of the answer iff all workers with its worker id have the same ones |
| WorkerSockets.NoInterference | codalab/lib/download_manager.py:133-157 | if none of the read's sockets is given to another before it releases them, the table is what the others made it plus those sockets |
| WorkerSockets.InvisibleExactly | codalab/lib/download_manager.py:133-157 | at every moment the table is what the others made it plus the read's open sockets iff no socket is given to anyone else before the read releases it |
| WorkerSockets.LeavesNoTrace | codalab/lib/download_manager.py:133-157 | once all is released the table is exactly what the others made it |
| WorkerSockets.UniqueIdsSuffice | codalab/model/worker_model.py:250-265 | ids that are never reused ensure that |
| WorkerSockets.NoCleanupSuffices | codalab/model/worker_model.py:139-180 | so does the absence of cleanups, even with reused ids |
| WorkerSockets.ReusedIdIsTaken | codalab/model/worker_model.py:267-274 | with a cleanup and a reused id there is a history in which a read takes away another worker's reply permission |
| DownloadManager.TargetInfoWithinBundle | codalab/lib/download_manager.py:100-157 | the bundle answers as its state says: not found before it runs, the worker's reply while it runs, the disk after; on success, error or no answer the one socket taken for that worker is given back |
| DownloadManager.TargetInfoOnce | codalab/lib/download_manager.py:58-98 | one try follows the path into the dependency it leads into when the bundle does not have it; sockets are given back |
| DownloadManager.GetTargetInfo | codalab/lib/download_manager.py:58-98 | the same with one retry at every bundle on the way, made iff the bundle had just stopped running; the recursion into dependencies ends |
| DownloadManager.InfoIsFound | codalab/lib/download_manager.py:58-98 | every failure is reported as not found, and information is what some bundle the path leads to gave on one of the attempts |
| DownloadManager.InfoOfFirst | codalab/lib/download_manager.py:73-98 | the other way round: when nobody has just stopped running, the answer is that of the first bundle on the way, dependency after dependency, that has the path, fails otherwise, or leads no further |
| DownloadManager.RetryMade | codalab/lib/download_manager.py:19-45 | a bundle that had just stopped running is asked once more and the second answer stands; after any other failure none is asked |
| DownloadManager.MatchingIsOne | codalab/lib/download_manager.py:74-79 | the dependency a path leads into has its first name as child path, and none is missed |
| DownloadManager.ForwardsTo | codalab/lib/download_manager.py:77-94 | a path `key/rest` is looked for as `subpath/rest` in the bundle that the last dependency under `key` names |
| DownloadManager.StreamFile | codalab/lib/download_manager.py:159-225 | the caller gets the local file or the worker's stream, or the first failure on the way; a stream from a worker holds exactly its own socket, everything else holds none, and sockets are taken for the workers asked only; one retry iff the bundle had just stopped running |
| DownloadManager.Close | codalab/lib/download_manager.py:400-415 | closing gives the socket back, unless closing the file itself fails |
| DownloadManager.ReadFileSection | codalab/lib/download_manager.py:227-297 | reading or summarizing a file yields the local data, or the worker's, unzipped unless zipped data is wanted, and gives each socket taken back however it ends; one retry iff the bundle had just stopped running |
| DownloadManager.Netcat | codalab/lib/download_manager.py:299-313 | netcat yields the worker's reply or the first failure, without retry, and gives the socket back |
| DownloadManager.ReadLeavesNoTrace | codalab/lib/download_manager.py:19-313 | a finished read leaves the socket table as the others made it; alone, as it was before |
| Desugar.KeyedIff | codalab/lib/cli_util.py:64-88 | a spec reads as key and value iff it is the key, a colon, and a non-empty value that does not start with a colon, with no colon in the key |
| Desugar.PartsPrintBack | codalab/lib/cli_util.py:91-106 | the parts of a spec make up the spec, the bundle is not empty and has no slash after its first character |
| TargetSpecs.PartsExactly | codalab/lib/cli_util.py:91-106 | the parts of a spec are in exactly one way instance, worksheet, bundle and subpath: each of the first two ends at the first doubled separator that something follows, the bundle at the first slash after its first character |
| TargetSpecs.UnkeyedIff | codalab/lib/cli_util.py:64-88 | a spec reads without a key iff it has no colon or a second one right after the first, and is then its own target |
| TargetSpecs.EmptyValueIff | codalab/lib/cli_util.py:79-87 | a spec is refused iff it is empty or ends with its first colon |
| TargetSpecs.KeyAsked | codalab/lib/cli_util.py:127-133 | a spec `key:target` asks for its key, and `:target` for the subpath of the target, or for the bundle when there is none |
| Desugar.NextPlaceholderIff | codalab/lib/cli_util.py:121-121 | a command matches the placeholder pattern in exactly one way |
| Desugar.BindKeeps | codalab/lib/cli_util.py:137-147 | binding keeps keys distinct and both dictionaries in step with the list |
| Desugar.BindFails | codalab/lib/cli_util.py:139-143 | binding fails iff the key already has another target |
| Desugar.AllServed | codalab/lib/cli_util.py:127-147 | every spec is bound under the key it got to exactly its own target, under the key it asked for if any, and no key is bound twice |
| Desugar.TwoTargetsFail | codalab/lib/cli_util.py:139-143 | one key asked for with two targets is always an error |
| Desugar.AskedKeysIff | codalab/lib/cli_util.py:127-147 | specs that all ask for keys are accepted iff each has a target and no key is asked for with two |
| Desugar.KeysAreRight | codalab/lib/cli_util.py:127-147 | every accepted spec has the key it asks for, or the path or bundle of its target when it asks with an empty key, or, without a key, the key of the first spec with its target, or `b` and the number of different keys so far and one for a new target |
| Desugar.RightKeyUnique | codalab/lib/cli_util.py:127-147 | that leaves one key only |
| Desugar.AcceptedExactly | codalab/lib/cli_util.py:138-143 | one more spec with a target is accepted iff its key was not given to a spec with another target |
| Desugar.UnaskedAccepted | codalab/lib/cli_util.py:134-147 | specs that all have targets and ask for no key are always accepted, and each gets `b` and the decimal digits of the number of different targets up to its own first place |
| Desugar.SameKeyIff | codalab/lib/cli_util.py:134-147 | two of them get the same key iff they have the same target |
| Desugar.NewKeyMeets | codalab/lib/cli_util.py:134-143 | among specs of any kind, a spec with a new target and no key is refused iff an earlier spec asked for the key `b` and the number of different keys so far and one |
| TargetSpecs.NewKeyRefused | codalab/lib/cli_util.py:134-143 | so the specs `b2:x` and `a` together are refused |
| Desugar.SegmentsWeaveBack | codalab/lib/cli_util.py:153-161 | text and placeholders in turn make up the command, and no placeholder is left at the end |
| Desugar.PlaceholdersNamed | codalab/lib/cli_util.py:109-161 | in the output every placeholder is its key, bound to exactly its target, and all other text is verbatim |
| Desugar.BindingsReadBack | codalab/lib/cli_util.py:64-147 | the bindings made for a list of specs all read back as they were bound iff no spec has a target that starts with a colon and none asks for a key that has one |
| Desugar.WrittenReadsBack | codalab/lib/cli_util.py:109-161 | so what a command writes for its targets reads back as what was bound iff that holds of its specs and placeholders |
| Desugar.DoubleColonLost | codalab/lib/cli_util.py:139-147 | the spec `::x` is written as `b1:::x`, which reads back without a key |
| Desugar.ColonMisread | codalab/lib/cli_util.py:134-147 | the spec `:a/b:c` is written as `b:c:a/b:c`, which reads back as the target `c:a/b:c` under the key `b` |
| Desugar.Desugarer.Get | codalab/lib/cli_util.py:127-147 | the closure gives each spec its key and updates the dictionaries and the list, or fails, as the lemmas about accepted specs and right keys say |
| Desugar.DesugarCommand | codalab/lib/cli_util.py:109-161 | both loops end, and yield the bindings and the rewritten command described above, with the keys described above, or the first error |
| MetadataRows.IntReadsBack | codalab/objects/metadata.py:98-99 | a whole number is read back from its decimal text, by a reader that also takes white space, a plus sign and underscores between digits |
| MetadataRows.ParseIntExactly | codalab/objects/metadata.py:98-99 | the texts read as whole numbers are exactly a numeral with single underscores between digits, perhaps a sign before it and white space around it, and they are read as the number the digits stand for |
| MetadataRows.ToDicts | codalab/objects/metadata.py:102-118 | one row per value in the order of the specs, a list one row per element, nothing for missing or empty keys |
| MetadataRows.RowsInOrder | codalab/objects/metadata.py:108-118 | rows come in the order of the specs |
| MetadataRows.CollapseDicts | codalab/objects/metadata.py:68-100 | list keys collect their values in order, other keys keep the last, list and user-set keys without a row get the empty value of their type, unknown keys are dropped; it fails iff some row of a known key cannot be read |
| MetadataRows.HoldsUnique | codalab/objects/metadata.py:68-100 | that description leaves one dictionary only |
| MetadataRows.LastSays | codalab/objects/metadata.py:90-99 | of several rows for a key that is no list, the last says its value |
| MetadataRows.ThereAndBack | codalab/objects/metadata.py:68-118 | writing and reading keeps every value the validation accepts, but for truth values under number keys: text up to characters outside ASCII, lists in order, a whole number under a float key as the float its text reads as; it fills missing list and user-set keys |
| MetadataRows.WhatComesBack | codalab/objects/metadata.py:68-118 | so each value comes back: ASCII text, whole numbers, floats and lists as they were, with a question mark for each character outside ASCII and a float for a whole number under a float key; a missing list or user-set key has its empty value, and another missing key stays missing |
| MetadataRows.AgainIsTheSame | codalab/objects/metadata.py:68-118 | doing it again changes nothing |
| MetadataRows.ReadableIff | codalab/objects/metadata.py:22-48 | validated metadata can be read back from its rows iff no number key holds a truth value |

## Left out

- Memoised mimicry, the metadata and naming edits of a mimicked bundle, its placement on worksheets, shadowing and preludes: they do not touch the graph; `child_uuid` is a placeholder and is not kept either.
- MimicRequest.MimicBundles: the answer to the very first fetch of a request without an output (the old inputs and their descendants) is a parameter of the request.
- Mimic.Client: only what mimicry asks of the server; uuids are numbers and a created bundle gets an unused one.
- Interpret: what a display mode renders is an oracle that may fail; blocks keep their kind and what they hold, without table headers, sort keys and file contents; the keys of the way back are pairs where the code writes them as text with a comma.
- InterpretAlign.Alignment: for bundles it speaks of table mode only; the other modes are covered by the rising positions and the one entry per item.
- WorksheetText: names that are not full uuids are resolved by a parameter.
- TimedLocks.TimedLock.Acquire: waiting and timed acquisition, which no caller uses.
- TimedLocks: authentication; a handler is told which of the worker's sockets it tries, the random order being left open.
- TimedLocks.ExclusionOverRuns: one way, since a run may break an assumption where it does no harm; step by step the condition is exact (`OrderlyExactly`).
- BundleStore.MultiDiskBundleStore: paths, links and the names of directories; a cache size of zero.
- ByteRange.ByteRangeReader.Read: the file does not change within the fetch of one chunk; sizes of zero for chunks or cache; the model joins bytes although the code starts from a text string.
- RateLimit: time and credit are exact numbers, without rounding.
- Competition.RunOnce: the leaderboard; predictions succeed or fail, and evaluations raise, as parameters say (what a prediction does is `RunPrediction`); evaluations are created no earlier than the history was read, on one clock.
- Competition.QuotaOverPasses: each pass has to begin with a history that one fetch returns; without that the quotas are not kept (`CompetitionHistory.LongHistoryExactly`). Failed evaluations count, as in the code.
- Pbkdf2.DeriveKey: the digest is any function with outputs of one length; padding and keying of its two halves are part of that function.
- Follow.FollowTargets: output is bytes; decoding them to text, which fails when a character is cut in two, is not modelled.
- WorkerSockets: columns of a worker row other than its socket and group are one value; transactions are atomic steps.
- DownloadManager: what a read is told by database, disks and worker comes in as answers, any of which may be a failure; how data is compressed is a function. A read begins with no socket of its own.
- Desugar: specs and commands with line breaks, on which the patterns stop matching.
- MetadataRows.CollapseDicts: digits outside ASCII, which `int()` accepts, count as unreadable.
- MetadataRows: attributes of the object other than its metadata keys.
- Competition: what the passes of a sequence fetch are any lists of submissions; in the sequence that runs on without end each list goes on from the one before.
- WorkerSockets.WorkerModel.GetWorkers: the list comes as a table from worker to what is listed; the order of the workers in it is left out.
- SQL, HTTP, sockets, containers, uploads, the index of archives, and the account pages: input and output, or finite data.
