# Verified models of the log book and the cluster cron scheduler

Two programs share an atomic compare-and-set key/value store: a signed,
hash-chained log book (`examples/relations`) and a cron scheduler that several
processes run against one cluster (`examples/croncmd`). This project models both
and proves what they promise over every run, every interleaving of their writers
and every input.

`dafny verify dfyconfig.toml` checks all of it.

## How the models are laid out

**Bytes.** `Common` holds what all share. `Bytes`, `Entities`, `Records` and `Listings` hold the byte layer:
four-byte entities, nine-byte keys, the record encoding, ordered scans and paging.
`Backend` is the in-memory store as an object whose map changes in place.

**Verification.** `Chain` says what a store, an event and an acceptable log are.
`Verifier` is the verifying loop, proved to accept exactly those logs. `Agreement`
shows what a verified head pins down, and `Footprint` what it leaves open.

**The book as a state machine.** `Transactions`, `Sealing` and `Book` give one step
for each kind of committed transaction: declaring an actor, interning a column, term
or actor, writing a line (alone or as the replacement of another), voiding,
countersigning, signing off a page, renaming, closing or reopening a vocabulary, and
recording a derivation. `Now` says what must hold of the store the step lands on.
`Growth`, `Allocation`, `Acceptance`, `Preserve`, `Steps` and `Reach` carry the main
invariant through every step; `EventOrder`, `Mirroring`, `Corrections`, `Marks`,
`Vocabulary`, `Dictionary` and `Rows` carry the others.

**Races.** `Interleaving` lets any number of writers read, build and commit at
different times: each item a transaction does not compare may have been read from any
earlier store. `Stability` and `Racing` show that every such trace is a run of whole
steps, so that all theorems about runs hold of traces; `LogBook` restates them.
`Undercount` exhibits a trace in which a sign-off records too few lines.

**The code's own loops.** `Allocator` (the search for a free id), `Builder` and
`Described` (working out and sealing the events of a transaction), `History`
(correction chains and live pages), `Journals`, `Caches`, `Sessions` and `Readback`
(the journal with its five caches, any sequence of its calls, and rows read back).
`Progress` shows when steps are possible, and `LongChain` writes a correction chain
that is too long.

**Genealogy.** `Lineage` is the breadth-first trace on any graph, `UnitLog` the
log-based package, `Genealogy` the relational one and the equality of the two,
`Recording` how an execution is recorded and what each package accepts, and `TwoUnits`
a book in which the comparison's premises are met.

**Cron.** `Calendar`, `CronSpec` and `Horizon` hold the proleptic Gregorian calendar,
expressions with the day rule of the INPUT FILES section of the POSIX.1-2017 `crontab`
utility, and the search. `Scheduler` and `Runs` are the cluster as a machine whose
actions are single store accesses; `AtMostOnce`, `SkewBound`, `NoLostFire` and
`LostFire` its properties; `Pass` the loops of one process.

## What the models assume

- The hash is any function to 32 bytes. No property of it is assumed: the agreement
  theorem ends in agreement or in two explicit strings with one hash.
- A signature check is any predicate of key, payload and signature, and a writer's
  records are records that pass it for a declared actor. Nothing is claimed about
  Ed25519 (section 5.1 of RFC 8032) itself.
- The function from texts to presence buckets is arbitrary.
- A log byte has one store. Its actors have the actor type and are declared once.
  Nobody calls the raw declare, link and unlink operations behind the journal's back.
- A rename reads both buckets and the declaration in one snapshot; interning is
  modelled read by read. Every value put into a bucket is new to it, as its time stamp
  makes it.
- The two directions of a relation may carry different time stamps and signatures.
- Retry loops are any number of attempts; which attempt commits does not matter.
- Times are integers in UTC. Watermarks keep whole seconds (section 5.6 of RFC 3339).
  Failed submissions are not retried, and all schedulers share one catch-up window.

## Where code and comments differ

The models follow the code.

- `examples/relations/chain.go:109-112` gives the last expressible number as the bound
  on events. The bound that holds is the number spelling the anchor, which is smaller
  for every log byte (`Reach.ReachableBounded`).
- `examples/relations/chain.go:490-509` describes verification as closing the holes a
  chain leaves. Records that no event is about, a line's declaration with its author,
  the party and tail of a line event's link, and names that were never changed are
  outside it, and the head's own signature is not examined (`Footprint`).
- `examples/relations/signoff.go:99-101` says the line count is read again after a
  conflict. It is not; `Racing.SignOffCount` says when the recorded count is right, and
  `Undercount.CountTooLow` exhibits a trace where it is not.
- `examples/relations/corrections.go:270-332` walks chains of up to a thousand lines.
  A chain of exactly one more can be read from its last line only
  (`History.ReadFromAll`), and such a chain can be written
  (`LongChain.ChainTooLong`).
- `examples/croncmd/croncmd.go:345-347` says an empty preview means the expression
  never matches. That fails exactly for expressions confined to 29 February
  (`Horizon.EmptyMeansNeverIff`). A scheduler whose catch-up window is longer than five
  common years, a minute and the first admitted time of day can lose a fire of such an
  expression; no other does (`LostFire.LosslessIff`).
- `examples/relations/genealogy.go:32-37` says both genealogies have the same
  semantics. The log-based package also accepts executions that consume and produce one
  unit, and the relational one ids with a comma; on all other executions they agree
  (`Recording.AcceptanceDiffers`). A unit renamed in the book keeps its old id in the
  log of units.
- `examples/relations/journal.go:312-342` takes any entity of the column type as a
  column, declared or not. A term interned under the owner of the column names is then
  found as a column, and asking the name of an entity that is no column makes its text
  a column's in the cache (`Journals.Journal.Field`, `Journals.NameRemembered`). A term
  asked of that owner under a column's name is answered with the column, and remembered
  as a term (`Journals.Journal.Term`).
- `examples/relations/journal.go:942-951` pages with a loop that reads the last element
  of an answer that may be empty. `Listings.ReadAll` stops on a short page instead.

## Model

| member | source | states |
|---|---|---|
| `CronSpec.Next` | examples/croncmd/spec.go:311-339 | the search that skips whole months, days and hours returns what a minute-by-minute search returns, for every expression and every date: the least matching minute after t before the deadline, and nothing only if there is none |
| `CronSpec.FirstMatch` | examples/croncmd/spec.go:257-288 | the reference search: its answer matches, nothing before it in the range does, and an empty answer means nothing in the range does |
| `Horizon.EmptyMeansNeverIff` | examples/croncmd/croncmd.go:338-347 | the promise that an empty preview means the expression never fires holds exactly for the expressions that are not confined to 29 February |
| `Horizon.FoundFromEverywhere` | examples/croncmd/spec.go:290-339 | an expression that is not confined to 29 February and matches some minute, ever, is found by the search from every starting minute |
| `Horizon.NoFireInFive` | examples/croncmd/spec.go:290-339 | the family that fails: a leap-day expression searched from the end of February of the first of five common years in a row finds nothing |
| `Horizon.MissedIsFar` | examples/croncmd/spec.go:290-339 | a fire the search misses is at least five common years, a minute and the first admitted time of day away |
| `Horizon.MissedThatFar` | examples/croncmd/spec.go:290-339 | and one is missed at exactly that distance, for every leap-day expression |
| `Pass.NextFires` | examples/croncmd/croncmd.go:348-364 | the preview lists exactly the matching minutes up to its last one, in order, at most as many as asked, and fewer only where the search finds nothing |
| `Pass.RunSchedule` | examples/croncmd/scheduler.go:240-294 | one pass over a schedule, with its first-sight case, catch-up cut, per-pass cap and failing accesses, does what the cluster machine does when this process alone moves: the same claims, submissions and watermark |
| `Pass.FireOne` | examples/croncmd/scheduler.go:299-345 | claiming and submitting one fire is a run of the machine, whichever of its accesses fail and whether or not a failed claim reached the store: a claim that is lost counts as dealt with, a claim or submission that fails ends the pass, and the fire is submitted only by whoever claimed it |
| `Pass.FireWindow` | examples/croncmd/scheduler.go:269-288 | the loop over due minutes is a run of the machine, up to the cap, the first failure or the end of the window; what it submits it claimed, and it submits no more than the cap |
| `Pass.Begin` | examples/croncmd/scheduler.go:258-267 | the window starts at the watermark if that is inside the catch-up window, at now if the watermark is ahead, and at the start of the catch-up window if it is behind |
| `AtMostOnce.NeverTwice` | examples/croncmd/scheduler.go:240-345 | no fire is submitted twice in any run of any number of schedulers, with crashes, failures, pruning and catalogue edits, whose claims are each made by a pass whose window clears the prunes before it |
| `AtMostOnce.NeverTwiceWithinSkew` | examples/croncmd/scheduler.go:134-145 | no fire is submitted twice in any run whose claims are made by passes with clocks at most one catch-up window behind every clock that has pruned |
| `SkewBound.OverlapSubmitsTwice` | examples/croncmd/scheduler.go:389-409 | whenever the window of a clock overlaps a prune's cutoff, there is a run that submits one fire twice, all of whose claims are made by passes at that clock and whose one prune has that cutoff |
| `SkewBound.DoublesIffOverlap` | examples/croncmd/scheduler.go:389-409 | the bound is exact: passes at one clock and prunes at one cutoff submit a fire twice in some run exactly if the window of that clock overlaps that cutoff |
| `NoLostFire.NothingLost` | examples/croncmd/scheduler.go:238-294 | for a fixed expression, every matching minute after a schedule's first watermark and up to its present one has been claimed, or was older than the catch-up window of a pass that looked, whatever caps, failures and slower clocks did to the watermark |
| `LostFire.FirstSightRace` | examples/croncmd/scheduler.go:246-256 | two schedulers that see a schedule for the first time lose the minutes between their clocks, so the base is the latest first watermark |
| `LostFire.LeapDayLost` | examples/croncmd/spec.go:290-339 | with a catch-up window longer than five common years, a minute and the first admitted time of day, a leap-day schedule loses a fire in some run |
| `LostFire.LosslessIff` | examples/croncmd/scheduler.go:238-294 | no run loses a fire of a schedule exactly if its expression is not confined to 29 February or the catch-up window is at most that long |
| `Calendar.MonthsTile` | examples/croncmd/spec.go:311-339 | months tile the days, so rolling to the next month skips no day |
| `Entities.KeyOrder` | examples/relations/entity.go:177-247 | comparing nine-byte keys is comparing namespace, first entity and second entity as numbers |
| `Entities.EntityAt` | examples/relations/entity.go:177-184 | the entity built from a number has that number as its value |
| `Entities.Next` | examples/relations/entity.go:204-210 | the successor of an entity, which only the last one lacks |
| `Records.RoundTrip` | examples/relations/record.go:95-187 | a record within the length bounds decodes from its encoding, consuming all of it |
| `Records.ReEncode` | examples/relations/record.go:146-202 | whatever decodes re-encodes to the same bytes, and what a signature covers is those bytes without the signature field |
| `Records.PrefixFree` | examples/relations/record.go:95-127 | no encoding is a proper prefix of another, so concatenations of them parse in one way |
| `Listings.ReadAll` | examples/relations/store.go:381-452 | reading page after page with any limit and resuming after the last entity terminates and gives the whole scan |
| `Listings.ReadPage` | examples/relations/store.go:424-452 | a bounded scan is the first entries of the range in key order |
| `Listings.SortedIsListing` | examples/relations/chain.go:369-387 | sorting a line's records by key gives what a scan of the line gives |
| `Backend.Memory.Apply` | examples/relations/backend.go:88-122 | the checks all come before the writes: the map becomes what the writes make of it, or stays as it was |
| `Backend.LastWriteDecides` | examples/relations/backend.go:100-122 | a key is left as the last write that names it says |
| `Backend.UntouchedKeeps` | examples/relations/backend.go:100-122 | a key that no write names keeps its value |
| `Backend.Memory.Scan` | examples/relations/backend.go:124-149 | the entries between two keys, inclusive, in byte order, up to the limit |
| `Backend.ScanIsListing` | examples/relations/entity.go:309-342 | the bound pair of an entity selects exactly its relations, in the order of their targets |
| `Backend.ScanSkipsDeclaration` | examples/relations/entity.go:306-322 | for any asked range, the clamped bounds select exactly the relations of the entity to targets in the range, and never its declaration |
| `Verifier.VerifyChain` | examples/relations/chain.go:510-603 | verifying accepts exactly the stores whose events replay, and when it stops early every event it counted is sound |
| `Verifier.ReadEvents` | examples/relations/chain.go:458-488 | the events are those of the anchor's links, in the order of their numbers, unless one does not parse |
| `Verifier.CheckEvent` | examples/relations/chain.go:541-588 | an event passes exactly if its number, link signature, covered records and digest are right |
| `Verifier.LineContent` | examples/relations/chain.go:717-743 | the content of a line is read back exactly if the line and its content are signed, and flattens to the bytes that were hashed |
| `Verifier.CheckEveryLineIsChained` | examples/relations/chain.go:747-778 | passes exactly if the lines with events are the lines the allocator handed out |
| `Verifier.CheckMutableState` | examples/relations/chain.go:610-648 | passes exactly if every renamed name and vocabulary state is what the last event about it says |
| `Verifier.Replay` | examples/relations/chain.go:510-603 | replays events in order, counting those that are sound |
| `Builder.ChainBuilder.Add` | examples/relations/chain.go:193-213 | an event is digested onto the last and linked at its number, unless the number has run out or spells the anchor |
| `Builder.ChainBuilder.Finish` | examples/relations/chain.go:219-236 | the links and the new head fit the events that were added |
| `Builder.ChainEvents` | examples/relations/chain.go:249-289 | the seal is for exactly the events the transaction's writes amount to; it is refused exactly if the head does not read, a write has no event tag, or numbers run out |
| `Builder.Sweep` | examples/relations/chain.go:268-287 | every write outside the line is an event of its kind, in order, and one with no tag refuses them all |
| `Described.WriteDescribed` | examples/relations/chain.go:249-289 | the events worked out from a line's writes are the line, and the strike on the line it replaces |
| `Described.MarkDescribed` | examples/relations/chain.go:302-335 | the events worked out from a strike, an endorsement or a sign-off are that record, once |
| `Described.RewriteDescribed` | examples/relations/chain.go:259-271 | a rename or a vocabulary change is chained once, by the event its writer describes |
| `Sealing.SealSpells` | examples/relations/chain.go:193-236 | a row of event links with a transaction's links added spells the events before and then the new ones |
| `Acceptance.InvAccepts` | examples/relations/chain.go:510-603 | the invariant every step keeps is enough for verification to accept, counting what the head counts |
| `Reach.StepKept` | examples/relations/chain.go:238-289 | every kind of transaction keeps the invariant and puts its events at the end of the chain |
| `Reach.ReachableAccepted` | examples/relations/chain.go:510-603 | every log any run reaches verifies, and the verifier counts exactly the events the head records |
| `Reach.ReachableBounded` | examples/relations/chain.go:109-126 | the head count stays below the number that spells the anchor, a tighter bound than the stated maximum for every log byte |
| `LogBook.AlwaysVerifies` | examples/relations/chain.go:249-289 | the same for every trace of racing writers |
| `LogBook.HeadFixesLog` | examples/relations/chain.go:490-603 | a log writers made and any store that verifies under the same head agree on everything the events cover, or an explicit pair of colliding strings exists |
| `Agreement.SameHeadAgree` | examples/relations/chain.go:347-401 | any two stores that verify with the same head agree on the event stream, the lines, each line's records, every record an event is about, current names and vocabulary states, or a hash collision is exhibited |
| `Agreement.ContentParses` | examples/relations/chain.go:369-395 | the bytes hashed for a line determine the line's records |
| `Footprint.UncoveredIsFree` | examples/relations/chain.go:510-603 | verification depends on the links, the head's payload, the page counters, the keys that signatures need and, for each event, the records it covers: any change that keeps these leaves it accepting |
| `Footprint.LineDeclarationIsFree` | examples/relations/chain.go:717-743 | a line's declaration, which names its author, is verified and not digested: any declared actor may have signed another |
| `Footprint.UnrenamedIsFree` | examples/relations/chain.go:610-648 | the declaration of a column or term that was never renamed can be changed without verification noticing |
| `Footprint.UnchainedRecordUnnoticed` | examples/relations/chain.go:717-743 | a strike, endorsement or sign-off that no event is about can be added without verification noticing |
| `Footprint.UnchainedStrikeUnnoticed` | examples/relations/corrections.go:207-219 | in particular, the status of a line nobody struck can read as struck in a log that verifies |
| `Footprint.LineLinkIsFree` | examples/relations/chain.go:510-603 | the party and the trailing bytes of a line event's link are not covered: any declared actor may have signed others |
| `Allocator.FindSlot` | examples/relations/store.go:183-242 | the search for a free id: the first undeclared id from the counter on, on the first page that is neither closed nor full, or which page's counter does not read, or that there is none |
| `Allocator.TryPage` | examples/relations/store.go:193-242 | what one page offers: nothing if closed, full or all taken, else the least free id from its counter on |
| `Allocation.StepAlloc` | examples/relations/store.go:183-294 | every transaction keeps the lines of each page at ids 1 to the last handed out, with no page entered before those before it are ruled off |
| `Allocation.NewLineIsLast` | examples/relations/store.go:183-294 | a new line comes after every line there is in key order |
| `Allocation.ClosedStays` | examples/relations/store.go:565-601 | a closed page stays closed and gains no line |
| `Allocation.AllocatedIsDeclared` | examples/relations/store.go:542-563 | walking the page counters finds exactly the declared lines |
| `LogBook.AlwaysNumbered` | examples/relations/store.go:183-294 | the numbering holds for every trace of racing writers |
| `EventOrder.ReachableOrderly` | examples/relations/countersign.go:52-86 | in every run's events, lines come in key order and once each, then endorsements by different actors who did not write the line, then at most one strike, then nothing about that line |
| `LogBook.AlwaysOrderly` | examples/relations/corrections.go:346-378 | the same order for every trace of racing writers |
| `Mirroring.ReachableMirrored` | examples/relations/store.go:313-343 | after any run the index is the converse of the relations, with the same kind, author, name and data |
| `Transactions.MirrorKept` | examples/relations/store.go:313-335 | a transaction that writes both directions keeps the index the converse |
| `Corrections.ReachableCorr` | examples/relations/corrections.go:129-203 | after any run each line is struck at most once, a replacement is a later line, and both ends of a replacement name each other |
| `Corrections.OneChain` | examples/relations/corrections.go:270-332 | correction chains do not meet: every member of a chain has that chain |
| `Corrections.LastStands` | examples/relations/corrections.go:334-344 | nothing replaced the last line of a chain |
| `History.History` | examples/relations/corrections.go:276-332 | the whole chain of a line, oldest first, unless it is too long to walk |
| `History.WalkBack` | examples/relations/corrections.go:276-305 | the older lines of the chain, unless there are more than a thousand |
| `History.Latest` | examples/relations/corrections.go:338-344 | the end of the chain, from every member that can be read |
| `History.ReadFromAll` | examples/relations/corrections.go:276-344 | a chain of at most a thousand lines reads the same from every member; with one more, only from the last |
| `LongChain.ChainTooLong` | examples/relations/corrections.go:276-344 | there is such a run: whoever holds a key can write a chain of one thousand and one lines, which reads from its last line and not from its first |
| `History.StatusReads` | examples/relations/corrections.go:207-219 | in a book a line's status always reads, says live exactly if there is no mark, and names the line's replacement |
| `History.CorrectionLog` | examples/relations/corrections.go:226-243 | the scan of the marker's backlinks lists exactly the struck lines with their statuses |
| `History.LivePage` | examples/relations/corrections.go:248-268 | a page without its struck lines is the page filtered by status, in order |
| `Marks.ReachableInBook` | examples/relations/corrections.go:207-268 | what these readers rely on holds after every run |
| `LogBook.AlwaysReadable` | examples/relations/corrections.go:207-268 | and after every trace of racing writers |
| `Vocabulary.ReachableAlternates` | examples/relations/vocabulary.go:104-155 | the vocabulary events of a column alternate, closing first, and its state is what the last one says |
| `Vocabulary.ClosedIsFrozen` | examples/relations/vocabulary.go:176-194 | no step adds a term to a closed column or takes one away |
| `LogBook.AlwaysAlternates` | examples/relations/vocabulary.go:104-155 | the alternation holds for every trace of racing writers |
| `Dictionary.ReachableDictionary` | examples/relations/journal.go:578-697 | for any bucket function, after any run no two entities of a vocabulary hold one text and each is listed once, in the bucket of its present text |
| `Dictionary.TextsDiffer` | examples/relations/journal.go:604-627 | two columns, or two terms of a column, with the same text are one |
| `Dictionary.ListedOnce` | examples/relations/journal.go:436-502 | a column or term is listed in no bucket of its vocabulary but that of its text |
| `Dictionary.UnpackPack` | examples/relations/journal.go:528-602 | a bucket's bytes give back the entities packed into it |
| `LogBook.AlwaysUnique` | examples/relations/journal.go:629-697 | the dictionary stays unique under any interleaving of interns with snapshot-read renames |
| `Racing.MayIsNow` | examples/relations/journal.go:646-697 | whatever a writer read at whatever times, a transaction whose comparisons succeed meets all the conditions of its operation at the moment it lands |
| `Racing.TraceIsRun` | examples/relations/backend.go:20-29 | every trace of writers that read, build and commit at different times is a run of whole steps to the same store |
| `Racing.SignOffCount` | examples/relations/signoff.go:53-107 | the line count in a sign-off is never too high, and right exactly if no line was written on the page between reading the count and closing |
| `Undercount.CountTooLow` | examples/relations/signoff.go:53-107 | there is such a trace: whoever holds a key can start a book whose first page is signed off with a count that is too low |
| `Progress.VoidingEnabled` | examples/relations/corrections.go:161-203 | after any run a standing line can be voided, for any reason, exactly while there is an event number left |
| `Progress.WritingEnabled` | examples/relations/journal.go:754-826 | after any run a line of any cells whose terms are declared, alone or replacing any standing line, can be written exactly while there are event numbers left for it and a page neither full nor signed off |
| `Progress.InterningEnabled` | examples/relations/journal.go:646-697 | a text can be interned in a column exactly if nobody holds it there, the vocabulary is open, its bucket has room and an id is left |
| `Progress.BookBegins` | examples/relations/journal.go:754-826 | from nothing, whoever holds a key can declare themself, name a column and write a line |
| `Journals.Journal.FieldInput` | examples/relations/journal.go:264-292 | what a column holds, as it reads without a cache, with the cache still right |
| `Journals.Journal.FieldName` | examples/relations/journal.go:1089-1108 | an entity's name as it reads without a cache; the cache stays right exactly if the entity is a column or not declared |
| `Journals.Journal.ResolveTerm` | examples/relations/journal.go:1058-1087 | a term's text and column as they read without a cache, or nothing exactly if it is undeclared or in no column |
| `Journals.Journal.ResolveBucket` | examples/relations/journal.go:604-627 | the entity of a bucket that is called the text, with every term passed on the way remembered rightly |
| `Journals.Journal.Intern` | examples/relations/journal.go:646-697 | the entity that holds a text in the store after the call, found or just declared, with the cache right for that store |
| `Journals.Journal.Field` | examples/relations/journal.go:208-262 | cached, found or just declared, the column a name resolves to in the store after the call, if it has the type asked for; the cache is right for that store exactly if what was answered is a column |
| `Journals.Journal.Term` | examples/relations/journal.go:312-342 | cached, found or just declared, the term a column's text resolves to in the store after the call; the cache is right for that store exactly if what was answered is a term |
| `Journals.Journal.RenameCached` | examples/relations/journal.go:539-558 | a cache right before the journal's own rename is right after it |
| `Journals.Journal.ReadRow` | examples/relations/journal.go:871-925 | the columns of a line in key order, as they read without a cache, failing only if some relation cannot be shown |
| `Caches.HolderIs` | examples/relations/journal.go:604-627 | an entity of a vocabulary is what its own text resolves to, so a right cache answers as the buckets do |
| `Caches.StepCoherent` | examples/relations/journal.go:97-104 | whatever any writer does short of renaming, a right cache stays right |
| `Caches.RunCoherent` | examples/relations/journal.go:97-104 | and so along any run without a rename |
| `Caches.InternedIsRead` | examples/relations/journal.go:232-248 | a column or term just declared reads as it is remembered |
| `Caches.RenameCoherent` | examples/relations/journal.go:539-558 | after a journal's own rename its cache is right again |
| `Caches.ForeignRename` | examples/relations/journal.go:97-104 | after somebody else's rename a cache is right exactly if it remembered nothing of the entity |
| `Sessions.Serve` | examples/relations/journal.go:201-558 | through any sequence of a journal's questions, declarations and own renames, among any steps of other writers that are no renames, every answer is the one read from the store at that moment without a cache |
| `Sessions.ReachableGood` | examples/relations/journal.go:560-567 | every store a run reaches is one such a session can start from, unless a term was declared under the owner of the column names |
| `Rows.ReachableHolds` | examples/relations/journal.go:761-855 | every line written in a run still has exactly its cells at the end of it |
| `Rows.NumberReadsBack` | examples/relations/journal.go:839-842 | a 64-bit signed number survives being written into a cell |
| `Readback.RowGivesBack` | examples/relations/journal.go:871-925 | a row read back says each cell of its line once, under present names, and nothing else |
| `Readback.WrittenReadsBack` | examples/relations/journal.go:754-925 | after any run, reading a line that was written in it succeeds and gives back its cells |
| `Lineage.Trace` | examples/relations/genealogy.go:219-272 | on any graph, cycles included: exactly the units at distance 1 to the depth, each once, in order of distance, the start never |
| `Lineage.WithinIsReach` | examples/relations/genealogy.go:219-272 | within k means reachable by a path of at most k edges |
| `Lineage.Duality` | examples/relations/genealogy.go:205-217 | x is an ancestor of y exactly if y is a descendant of x, at every depth, when the two readings are converse |
| `Lineage.SameDistances` | examples/genealogy/genealogy.go:254-300 | if two graphs differ only in the names of some units that are closed under edges, distances from those units are the same |
| `Lineage.SameTrace` | examples/genealogy/genealogy.go:254-300 | and an answer of the walk on one, under the other names, is an answer on the other: the same units, nearest first, each once |
| `UnitLog.Record` | examples/genealogy/genealogy.go:139-181 | nothing is written unless all ids are valid; otherwise each output is related to each input both ways and nothing else changes |
| `UnitLog.IdsOfJoined` | examples/genealogy/genealogy.go:78-98 | a list of valid ids survives being joined with commas and split |
| `UnitLog.SplitIds` | examples/genealogy/genealogy.go:86-98 | the non-empty pieces between commas |
| `Genealogy.ReachableDerives` | examples/relations/genealogy.go:98-138 | after any run the derivations in the relations and in the index are exactly the recorded pairs |
| `Genealogy.AncestorsAreConverse` | examples/relations/genealogy.go:205-272 | after any run, ancestors and descendants are converse at every depth |
| `Genealogy.ListingReads` | examples/relations/genealogy.go:236-262 | after any run, listing a unit's relations or backlinks and keeping the derivations gives exactly its parents or children |
| `Genealogy.FollowsSame` | examples/relations/genealogy.go:98-138 | however executions are interleaved with other steps that rename no unit, the run records exactly their pairs, and each unit still holds its id |
| `Genealogy.SameAncestors` | examples/relations/genealogy.go:32-47 | for the same executions, interleaved with any other steps that rename no unit, the ancestors the book finds of any unit at any depth, as texts, are an answer of the log-based package: the same ids, nearest first, each once |
| `Genealogy.SameDescendants` | examples/relations/genealogy.go:32-47 | and so are the descendants |
| `Genealogy.NeverFromItself` | examples/relations/genealogy.go:121-126 | no run records a unit as produced from itself |
| `Recording.LinkUnits` | examples/relations/genealogy.go:121-133 | every output is linked to every input and nothing else, or nothing at all exactly if a unit is on both sides |
| `Recording.RecordExecution` | examples/relations/genealogy.go:98-138 | for declared units, the one step that records the execution's pairs under its instance, or a refusal exactly if the instance or an id is empty, no unit is named, or a unit is on both sides |
| `Recording.RecordingEnabled` | examples/relations/genealogy.go:121-133 | an execution whose units are declared can be recorded by whoever can sign exactly if no unit is on both sides |
| `Recording.AcceptanceDiffers` | examples/relations/genealogy.go:79-126 | for declared units, exactly when the two packages accept the same execution: the log refuses ids with a comma, the book units on both sides, and they agree on everything else |
| `Recording.TwoDifferences` | examples/genealogy/genealogy.go:102-110 | one execution only the log accepts and one only the book accepts |
| `TwoUnits.BothRecord` | examples/relations/genealogy.go:98-138 | from nothing, any accepted execution of one input and one output can be recorded in both packages, so that all the comparison requires is met |

## Left out

- Command line programs, the web application, the mobile wrappers, node sessions and text layout: they add no protocol of their own.
- Raft, the replicated state machine and access control: their source is not part of this model; the store is an atomic map.
- JSON, cron expression text, time zones and daylight saving: schedules, claims and expressions are values, and times are UTC.
- Claim keys and watermark texts: a claim is a pair of schedule and minute, a watermark an instant cut to whole seconds; a watermark that does not parse is not modelled.
- Releasing a claim after a failed submission: the option is off, as the at-most-once promise requires.
- Catalogue validation and the listing of past fires: easy members.
- Renames read by read: a rename's reads are one snapshot, as stated above.
- Signing on another machine: an endorsement or sign-off made elsewhere is one of the signed records a step may carry.
- Time stamps in statuses: the moment of a strike is not part of `History.Status`, and the two directions of a relation may disagree on it.
- Journals.Journal.Intern: what the journal commits to declare a text is a step it is given, not ops it builds; a first look that another writer overtakes is a call that finds the text.
- Append, Correct, Void, Countersign, SignOffPage, Rename and the vocabulary operations: modelled as guarded transactions on values in `Book` and `Interleaving`, so the retry loops around them are not code here.
- Genealogy.SameAncestors: the order among units at one distance is unspecified in both packages and not compared, and runs that rename a unit are outside it.
- Recording.RecordExecution: takes units and instance as declared; declaring them is `Journals.Journal.Term`, and a refused execution leaves them declared.
- Lineage.Trace: reads the neighbours of a unit through a function, so a store that changes during the walk is not modelled.
- Sessions.Serve: another process renaming an entity is outside it; `Caches.ForeignRename` says exactly which caches that spoils.
