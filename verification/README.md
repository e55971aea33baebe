# A model of scap's listing, its index, and three smaller protocols

`scap list` finds git repositories under configured roots. It walks each root with a work-stealing
pool, and with `--cache` it answers from an index of the last complete walk, checking each remembered
directory's modification time instead of reading it. This project models that machinery and proves
what it promises. It also models naming and `--unique`, the per-URL memo, the clone protocol, and the
CodeCommit recogniser.

## How it is laid out

- `Bytes`, `Paths`, `FileTree`: byte strings, root-relative paths, and the file system a listing sees:
  directories with an mtime, a read bit, a search bit and an entry list, links known by what `stat`
  says about their target, and everything else. `intact` says whether reading a directory reaches its end.
- `Walk` is the walk as functions: what each entry leads to (`Decide`, `QueueChild`), what one job does
  (`RunJob`), and what a whole subtree adds up to (`Total`). `DirectoryReader` (in `Walker.dfy`) is the
  reader as the program has it: a class with an entry buffer and an output, updated entry by entry,
  proved equal to those functions. `Counting` compares sums one count at a time.
- `WalkRules` states the listing rules path by path and without permission bits (`RoleOf`), and proves
  that a complete walk records exactly what they say. `WalkRecords` shows that any walk's records form
  a tree. `Strategies` compares the two `.git` detection strategies, `Entered` says what their
  difference in reads counts, and `WalkCounts` what the walk's counters count. `Sight` is about trees with
  search bits missing.
- `Pool` is the work-stealing pool as a transition system over an arbitrary kind of job, with panics,
  batch steals and parking. `PoolWalk` runs the walk on it, `ShortWalks` says what comes out when something is
  lost on the way, and `Reopening` exactly when what comes out depends on the descriptor budget. `RootWalk` is a
  whole root, with the checks made before it is opened, and a re-walk of paths below one.
- `DescriptorBudget` is the racy shared count of parked descriptors, and `BudgetedPool` the pool and that
  count together. `Arenas` (in `Arena.dfy`) is the path buffer.
- `IndexFormat` is the file format with its parser as a function, `IndexCodec` the encoder and the
  cursor-based decoder, `IndexLayout` one file byte by byte, `IndexBuild` the linking of records into a tree,
  `IndexValidate` the stack-driven validation pass.
- `CachedListing` proves the central claim for one run: entries that validate plus re-walked stale
  subtrees are the listing. `Completeness` says when such an answer is complete, and `BlindSpots` has the
  trees on which an index and a walk disagree. `CheckReport` is the comparison a check prints. `Cache` puts
  one run together. `CacheEvents` is what can happen to a root and its file, with the invariant, and
  `CacheRuns` proves safety over whole histories. `CacheAnswers` is about answers that are short, and
  `CacheReuse` about when there is an answer and what it costs. `SlowWalks` is about timestamps: the racy window,
  and reading the mtime first.
- `TmpNames` is the names of temporary directories and the sweep for leftovers, `CloneTree` the directories
  clones are made in, by path, and what creating, removing and renaming do to them. `ClonePublication` is
  the clone protocol over them, for any number of users, processes and threads, `LoneClone` a thread with nobody in
  its way, and `CloneTwins` one history of three.
- `Naming`, `Unique`, `UrlMemo`, `CodeCommit` are on their own.

## The main results

- `CachedListing.CachedListingIsRightSoFar`, `CachedListingIsFresh`: for an index of a complete walk of an earlier
  tree, if the directories whose mtimes still match (and are not racy) hold the entries they held, an answer from
  the index has no record, mtimes included, and no repository that the rules do not define for the tree as it is
  now, and all of them that are not at or below something its re-walk lost. So a complete answer has exactly
  those. A complete walk has the same (`FreshWalkIsTheListing`).
- `CacheAnswers.EveryAnswerIsRightSoFar`, `EveryWalkIsRightSoFar`: in every history that is so of every answer
  from the index and of every walk, short or not, and each says that it is short exactly when something was
  lost. What the index believed is listed once whatever was lost, and nothing but repositories is ever printed.
- `CacheReuse.TheNextRunReadsNothing`, `EveryRunAnswersIff`: in every history, after a complete listing was
  stored and with nothing moved since, a run answers from the index without reading a directory if and only if
  every directory the rules descend into had been left alone for two seconds when it was stored. Whatever has
  moved, a run answers from the index if and only if it can open the root, the file is this root's, and the
  root's own entry still holds.
- `Completeness.AnswerIsRightIff`: over a tree that every walk covers completely, and with descriptors to
  spare, the answer is complete, and is that listing, if and only if no entry handed back for re-walking is
  a repository that cannot be read.
- `CacheRuns.TheFileIsAlwaysGood`, `EveryListingIsRight`, `TheIndexAnswersAsAWalk`,
  `TheIndexEqualsTheWalk`, `ChecksNeverDiffer`: the same over any interleaving of changes to the tree and
  to the root's read bits, listings, checks, short walks, walks and index answers during which the tree
  changed, stores that land late, and damage to the file. On a tree that can be read the index's answer
  equals the fresh walk, with nothing assumed of either.
- `Reopening.WalksAreExactIff`, `PoolWalk.MergedOutputIsDetermined`: every walk of a root that finds
  descriptors when it re-opens paths gives the tree's total, whatever the number of threads, the
  interleaving, the batches stolen and the descriptor budget, if and only if nothing is hidden behind a
  path. In every case it gives the total, or says that it is short and lists nothing that the total does not.
- `ShortWalks.WalksAreRightSoFar`: where everything can be searched, every walk on the pool, whatever the
  schedule and the descriptors, lists nothing the rules do not, and everything they do that is not at or below
  a path it warned about; unless descriptors ran out those paths are directories that cannot be read.
- `Sight.AnyWalkListsWhatIsSeen`: whatever the permission bits, a walk of a root lists at most what the rules say
  of the tree as it can be seen, and exactly that if it lost nothing.
- `WalkRules.SubtreeMatchesRules`: the walk refines the rules. `Strategies.StrategiesAgreeUnlessBroken`:
  exactly when the detection strategies agree. `Entered.ReadsDifferByRepositories`: by how much their reads
  differ.
- `ClonePublication.SafeExactlyWhenApart`: the exact condition on a set of destinations under which, in every
  history in which no process clones to one of them twice at a time, published clones are kept with all that is
  in them, nothing but a whole clone appears at a destination, and running threads' temporary directories are
  left alone.
- `LoneClone.LoneClonesEnd`, `LoneThreadsMove`: a thread with nobody in its way ends, with its destination whole if
  git succeeded, be it absent or empty before, and as it was if git failed; its temporary directory and its lock
  file are gone.
- `UrlMemo.LookupsAreToldWhatTheyAsked`: in every history a lookup that returns is told an answer git gave for the
  very URL it asked about.
- `IndexFormat.ParsingInvertsEncoding` and `IndexCodec.Decode`: bytes decode to an index exactly when
  they are the encoding of a well-formed one.

## Where the code stops short

Some promises do not hold as broadly as they read. The code is modelled as it is; each has an input on which
it fails and the condition under which it holds.

- A walk's output is meant not to depend on the descriptor budget. A directory that is a repository but
  cannot be read is listed when its parent opens children directly, by a `.git` probe; queued by path, it
  has no such probe when it is re-opened. So past the budget open-scan can lose it
  (`Reopening.OpenScanLosesPastTheBudget`). The output is independent if and only if no directory the walk
  enters holds a searchable, unreadable child, due to be opened, whose `.git` stats
  (`Reopening.WalksAreExactIff`, and `RewalksAreExactIff` for re-walks). Stat-first always meets that, and
  so does a tree that can be read. Without it everything still holds up to the output saying it is short.
- The index is meant to list what a walk would have printed anyway (`src/index.rs:255-259`). Under the
  default strategy, a remembered directory that has become a repository of mode 0111 is listed by a walk,
  which asks its parent, and lost by the index, which re-walks it by path: the answer is short and the
  repository is missing (`BlindSpots.IndexLosesWhatTheWalkLists`). Over a tree every walk covers completely it
  happens exactly when some entry handed back is a repository that cannot be read to its end
  (`Completeness.AnswerIsRightIff`; in every history, `CacheRuns.TheIndexAnswersAsAWalk`).
- A listing that does not say it is short is meant to be whole. A root with none of its three read bits is
  listed as empty and complete (`src/walk/mod.rs:452-454`, `src/walk/mod.rs:612-617`), so the claim holds of
  a walk exactly when the root has a read bit or there is nothing to list
  (`CachedListing.CompleteWalkIsRight`, `CacheRuns.EveryListingIsRight`). The empty listing is never stored.
- The two detection strategies agree "while the budget is not hit" except where a repository opens but
  its entry list fails part-way; stat-first lists it unopened and open-scan loses it
  (`Strategies.HalfReadRepositoriesBreak`). `Strategies.StrategiesAgreeUnlessBroken` has the exact condition,
  and mode bits alone never cause it.
- A published clone is meant to stay, and a destination to hold nothing else. Destinations are paths of any
  depth, a sweep removes whole directories, and making a clone's parents makes directories. So a clone is
  deleted when its path is, or lies in, what a sweep for another destination takes for a dead process's
  leftover, as `g/foo.tmp-0/repo` does for `g/foo` (`LookalikesAreSwept`). A destination above another becomes
  a directory that is no clone, and is then refused its own (`NestedClonesCollide`, `OccupiedIsRefused`). One
  named like another's lock file becomes that file (`LocksCollide`). Histories are safe if and only if none of
  these occurs among the destinations (`ClonePublication.SafeExactlyWhenApart`).
- That is for processes that clone to one destination once at a time. Three threads of `get --parallel` with
  one target share a temporary directory, and the lock file keeps them apart only until it is unlinked: the
  second can publish what the third is removing (`CloneTwins.TwinsPublishDamage`).
- What only a rename was thought to change (`src/index.rs:538-541`) a link changes too: a link named `*.git`
  stays listed by the index after its target is gone (`BlindSpots.LostLinksAreKept`).

A link's target lies outside the directories whose mtimes are watched, which the index documents as a
blind spot (`src/index.rs:30-64`). It is part of the hypothesis (`CachedListing.SameEntry`), and
`BlindSpots.LinkGainsAreMissed` and `LostLinksAreKept` show that both halves of it have to be.

## Assumptions about the surroundings

- git's matcher is an arbitrary function of pattern and path; processes' liveness, whose they are, and git's
  answers are arbitrary.
- A batch steal is one atomic step. Waking from parking may always happen.
- In `CacheEvents`, a change stamps every directory whose entries it changes with a time within
  `granularity` of the change, `granularity` being at most the two-second window; and while some walk is
  on its way to being stored, a change does not repeat an mtime that walk read. A replaced root has an
  identity never seen before. The file may at any time be lost, damaged, or become the index of another root whose
  name gives the same file.
- A walk, or an index answer, that takes time is given by one tree that puts together what it saw and, of
  directories it did not read, what it believed. `SlowWalks` derives from the times at which things were seen
  that this tree is faithful. What an answer hands back for re-walking and then finds gone is missing from it.
- In `ClonePublication` a process number is not given out again while a sweep that has listed its leftover goes
  on. Each call is one step, except `remove_dir_all`, which is any number of partial removals.
- What `CacheEvents` takes a walk and a re-walk to be good for, `RootWalk` derives from whole runs of the
  pool (`WalksAreHonest`, `RewalksAreHonest`).
- Trees in `WalkRules`, `ShortWalks` and all about the index have all their search bits: an mtime says nothing
  about permission bits. `Sight` carries the rules over to trees that do not.

## Model

| member | source | states |
|---|---|---|
| Paths.JoinSplits | src/walk/sys.rs:727-734 | splitting a joined path at its last slash gives back directory and name |
| Paths.SiblingsAreApart | src/walk/sys.rs:434-464 | two entries of one directory have no path in common below them |
| Paths.SafeMeansWalkable | src/index.rs:825-834 | the decoder's path check admits exactly the paths a walk can build by joining names |
| DirectoryReader.EntryBuf.Push | src/walk/sys.rs:114-123 | one shared byte buffer with offsets holds the entries in order, without `.` and `..` |
| DirectoryReader.Walker.Fill | src/walk/sys.rs:358-402 | says whether reading reached the end, and if so the buffer is the directory's entry list |
| DirectoryReader.Walker.IsRepo | src/walk/sys.rs:575-588 | the scan of the buffer decides rules (i) and (iv) as stated on the tree |
| DirectoryReader.Walker.Enqueue | src/walk/sys.rs:596-647 | opening, queueing by path, emitting or losing a child, by budget and permission bits |
| DirectoryReader.Walker.Visit | src/walk/sys.rs:435-533 | one entry adds exactly its step's output and jobs, by kind, exclusion, name, strategy and links |
| DirectoryReader.Walker.ReadDir | src/walk/sys.rs:358-535 | reading a directory merges exactly that directory's output and appends exactly its jobs; a stream that breaks is a loss |
| DirectoryReader.Walker.Run | src/walk/sys.rs:305-349 | a job with a descriptor or a path does what `RunJob` says, losses and vanished paths told apart |
| WalkRules.NothingInside | src/walk/sys.rs:414-421 | nothing is listed inside a repository, a link or an excluded directory |
| WalkRules.RolesRestrict | src/walk/mod.rs:505-541 | a walk started at a directory gives everything below it the role the root's walk gives it |
| WalkRules.RulesOfAnEntry | src/walk/sys.rs:435-533 | in so many words: a directory is a repository by its name or by a `.git` that is no dangling link, and looked into otherwise; a link is one, or nothing, by its own name or its target |
| WalkRules.ExclusionsOnlyPrune | src/walk/sys.rs:453-459 | exclusions take away what they match and all below it, and change nothing else |
| WalkRules.SubtreeMatchesRules | src/walk/sys.rs:358-535 | a complete walk of a searchable tree records exactly what the rules define, each path once |
| WalkRules.WalksListTheirRecords | src/walk/sys.rs:206-216 | every repository printed is one repository record, the root as `.` |
| WalkRules.WalkListsTheRules | src/walk/mod.rs:486-514 | a complete walk of a root that is opened prints each repository the rules define once, and nothing else |
| WalkRules.ReadableWalksAreComplete | src/walk/mod.rs:425-432 | on a tree that can be read and searched nothing is lost |
| Sight.SubtreeIsSeen | src/walk/sys.rs:404-533 | whatever the bits, a walk lists no more than the walk of the tree as it can be seen, and the same, prunes included, if it lost nothing |
| Sight.WalkListsWhatIsSeen | src/walk/sys.rs:404-533 | so it lists each repository the rules define for that at most once, and exactly once if nothing was lost |
| Sight.AnyWalkListsWhatIsSeen | src/walk/mod.rs:486-514 | and so does every run of it on the pool, short or not |
| WalkCounts.CountersCountPaths | src/walk/sys.rs:412-460 | a complete walk counts one read for each directory looked into or read to know it for a repository, and one exclusion for each directory or link pruned |
| WalkRecords.WalksAreTidy | src/walk/sys.rs:418-427 | any walk, whatever the bits: one record a path, all below the start, each in a recorded directory |
| WalkRecords.WalkRecordsBuild | src/index.rs:642-671 | a walk's records are closed under parents, which are directories; an unreadable root leaves none |
| Strategies.StrategiesDifferByTheGap | src/walk/mod.rs:91-105 | exactly how repositories, records, reads and prunes differ between open-scan and stat-first |
| Strategies.StrategiesLoseTheSame | src/walk/sys.rs:596-647 | open-scan is incomplete exactly when stat-first is or a repository's entry list broke |
| Strategies.StrategiesAgreeUnlessBroken | src/walk/sys.rs:474-489 | same listing and completeness if and only if no entered repository's read breaks |
| Strategies.BreaksAreCounted | src/walk/sys.rs:474-489 | the gap counts some repository exactly when an entered one opens and its entry list breaks |
| Strategies.ModeBitsNeverBreak | src/walk/sys.rs:619-641 | read and search bits alone never make the strategies disagree |
| Strategies.HalfReadRepositoriesBreak | src/walk/sys.rs:366-402 | a tree on which they disagree: one repository whose entry list breaks |
| Strategies.StrategiesListTheSame | src/walk/mod.rs:91-105 | where what opens can be read to its end they list the same, and only `dirs_read` differs |
| Entered.ReadsDifferByRepositories | src/walk/mod.rs:91-105 | on readable, searchable trees that difference is the number of repositories below the root that are directories and not named `*.git` |
| Pool.InitInv | src/walk/pool.rs:114-148 | seeds are counted before any worker starts |
| Pool.StepKeepsInv | src/walk/pool.rs:158-218 | after every step the in-flight count is the jobs queued, held and counted, and every job was queued once |
| Pool.SeedStealKeepsInv | src/walk/pool.rs:236-243 | a batch from the seed queue moves jobs and neither loses nor copies any |
| Pool.StealKeepsInv | src/walk/pool.rs:244-256 | nor does a batch from another worker's queue |
| Pool.PanicKeepsInv | src/walk/pool.rs:85-107 | a panicking worker retires its job, so the count stays right |
| Pool.CountIsZeroWhenQuiet | src/walk/pool.rs:192-194 | the count is zero exactly when there is no work anywhere |
| Pool.ZeroIsStable | src/walk/pool.rs:206-214 | once zero, always zero |
| Pool.WhoeverLeavesLeavesNothing | src/walk/pool.rs:158-218 | when any worker has left, no work is left; without panics every job queued was run, once |
| Pool.SomebodyCanMove | src/walk/pool.rs:158-218 | a worker that has not left or died has a step of its own, except one looking for work while none is to be had, for which another is in the middle of a job and has one |
| Pool.StepsMakeProgress | src/walk/pool.rs:158-218 | every step but running a job, parking, waking and panicking brings its worker nearer to its next job or to leaving |
| PoolWalk.DirectoryPaysUp | src/walk/sys.rs:358-535 | a directory's output and the jobs it queues together are worth its whole subtree, for every budget |
| PoolWalk.JobPaysUp | src/walk/sys.rs:305-349 | so are any job's, a re-opened path included; never more, whatever was lost |
| PoolWalk.MoveKeepsInv | src/walk/pool.rs:158-218 | outputs so far plus work outstanding stay equal to what the seeds are worth, or a loss is noted |
| PoolWalk.MergedOutputIsDetermined | src/walk/mod.rs:542-582 | the merged output of any run over any seeds, threads and interleaving is determined by the tree, or incomplete and no more than that; exactly determined when nothing below the seeds is hidden behind a path |
| PoolWalk.JobsAreBounded | src/walk/pool.rs:158-218 | jobs run are never more than the directories under the seeds |
| PoolWalk.WalkingARoot | src/walk/mod.rs:486-514 | an opened root's own reading merged with the pool's outputs is the tree's total, or is incomplete and no more than that |
| ShortWalks.JobIsRight | src/walk/sys.rs:305-349 | what any job lists and queues is at most what the rules owe at and below its path, and all of it that is not at or below a path it warns about |
| ShortWalks.WalksAreRightSoFar | src/walk/mod.rs:559-581 | so is what any walk on the pool lists; it says that it is short exactly when it warned about some path, and unless descriptors ran out each such path is a directory that cannot be read |
| ShortWalks.RootIsRightSoFar | src/walk/mod.rs:486-514 | and what the root's own reading and the pool's come to together |
| Reopening.MovesMakeProgress | src/walk/pool.rs:158-218 | every move but parking and waking leaves less work, or as much and a worker nearer to its next job: walks end |
| Reopening.HiddenRepositoriesCanBeLost | src/walk/sys.rs:596-647 | what is hidden behind a path, some whole walk on any number of threads loses and says so |
| Reopening.WalksAreExactIff | src/walk/sys.rs:596-647 | every walk of a root, so long as re-opening finds descriptors, gives its total if and only if nothing is hidden behind a path |
| Reopening.RewalksAreExactIff | src/walk/mod.rs:542-582 | and the same for a re-walk of paths |
| Reopening.OpenScanLosesPastTheBudget | src/walk/sys.rs:311-346 | a tree on which open-scan lists a repository within the budget, and a whole walk past it whose merged output lacks it |
| RootWalk.WalkRoot | src/walk/mod.rs:440-515 | nothing for a root that is not a directory or has no read bit; itself for one named `*.git`; a loss when it cannot be opened; else its own reading merged with the pool's output, the pool not being started for nothing |
| RootWalk.WalksAreHonest | src/walk/mod.rs:440-515 | so any run's listing of a root is its total, or short and right but for the paths it warned about, whatever the schedule; and what the early exits give otherwise |
| RootWalk.RewalksAreHonest | src/walk/mod.rs:542-582 | and any run's re-walk is what the paths' subtrees hold, or short and right but for the paths it warned about |
| DescriptorBudget.StepKeepsInv | src/walk/sys.rs:604-613 | the count is exactly the parked and just-taken descriptors; with those about to be added it stays bounded |
| DescriptorBudget.BudgetHolds | src/walk/sys.rs:258-270 | never negative, never above the cap plus one per other worker |
| DescriptorBudget.BoundIsReached | src/walk/sys.rs:258-270 | that bound is tight for every positive cap and number of workers |
| DescriptorBudget.ZeroCapParksNothing | src/walk/sys.rs:604-607 | with a cap of zero the count stays at zero |
| BudgetedPool.StepKeepsInv | src/walk/pool.rs:158-218 | every step of pool and count together is a step of each, so the bound carries over |
| BudgetedPool.CountEndsAtZero | src/walk/sys.rs:258-270 | in every run the bound holds, and once any worker has left the count is zero |
| Arenas.Arena.Push | src/walk/arena.rs:37-42 | the paths held grow by the pushed one, with 32-bit ranges in bounds |
| Arenas.Arena.Merge | src/walk/arena.rs:70-77 | the paths held become this arena's followed by the other's |
| Arenas.Arena.All | src/walk/arena.rs:60-62 | every path, in order |
| IndexFormat.NatAt | src/index.rs:854-864 | a fixed-width number parses exactly where its little-endian bytes are |
| IndexFormat.I64At | src/index.rs:866-868 | so does a signed one, in two's complement |
| IndexFormat.EntriesFormATree | src/index.rs:776-801 | the decoder's running checks on children mean forward edges, each entry claimed once |
| IndexFormat.ParsingInvertsEncoding | src/index.rs:705-804 | parsing gives an index exactly when the index is well formed and the bytes are its encoding |
| IndexCodec.Encode | src/index.rs:705-732 | the buffer built up is the encoding |
| IndexCodec.PushEntry | src/index.rs:718-730 | a kind byte and the path, and for directories the mtime and the child list |
| IndexCodec.Reader.Take | src/index.rs:847-852 | the cursor moves over exactly the bytes returned, or nothing past the end |
| IndexCodec.Reader.Count | src/index.rs:881-884 | a count that the remaining bytes could not hold is refused |
| IndexCodec.Reader.ClaimChildren | src/index.rs:771-784 | children parse as the format says, and their flags are set; the list's room fits the bytes left |
| IndexCodec.Reader.Entries | src/index.rs:762-790 | entries parse as the format says; entries, flags and children reserved fit the input |
| IndexCodec.DecodeParsed | src/index.rs:743-804 | the cursor-driven decoder computes the parsing function |
| IndexCodec.Decode | src/index.rs:743-804 | decodes to a well-formed index whose encoding is the input, or no such index exists; room reserved is at most the input's length |
| IndexLayout.SampleIsLaidOut | src/index.rs:705-732 | one index byte by byte: magic, version, root, identity, time, patterns and entries, little end first; those bytes decode to it and no others do |
| IndexBuild.SortingKeeps | src/index.rs:645-646 | sorting keeps every record |
| IndexBuild.Deduping | src/index.rs:647 | dropping repeats leaves strictly increasing paths from the input, first of each run |
| IndexBuild.DedupKeepsPaths | src/index.rs:647 | and loses no path |
| IndexBuild.BinarySearch | src/index.rs:667 | finds a path among sorted records, or it is not there |
| IndexBuild.Link | src/index.rs:665-671 | every entry ends up among its parent's children in order, or some parent is missing |
| IndexBuild.Build | src/index.rs:642-680 | an index of this root, identity, time, exclusions and records, exactly when the root is known and recorded and parents are recorded |
| IndexBuild.LinksFormATree | src/index.rs:660-671 | sorted paths give forward edges that claim every entry but the root once |
| IndexBuild.BuiltIsWellFormed | src/index.rs:642-680 | what is built is a well-formed index, within the format's widths |
| IndexValidate.DecodedIsARootedTree | src/index.rs:736-742 | whatever decodes is a tree of safe relative paths, every entry below the root |
| IndexValidate.OnlyParent | src/index.rs:776-801 | an entry is listed by one parent only, and after it |
| IndexValidate.WalkIndex | src/index.rs:461-491 | visits exactly the entries below believed directories, once; hits, stale and racy counts are theirs |
| IndexValidate.ExactlyOneFate | src/index.rs:453-460 | every entry is consulted or strictly below a stale entry, never both |
| IndexValidate.CountersCountEntries | src/index.rs:461-491 | every entry consulted is counted as a hit or a miss; the racy ones are those with the time remembered, but within two seconds of the write |
| IndexValidate.ProbeAll | src/index.rs:512-533 | each slot gets its own entry's probe, whatever the number of threads |
| IndexValidate.AnyOrderProbesAlike | src/index.rs:522-531 | and whatever the order in which the threads fill the slots |
| CachedListing.DescendedStep | src/index.rs:453-460 | a directory with its old mtime below a believed one is still where the rules descend |
| CachedListing.BelievedDirectoriesStay | src/index.rs:474-483 | every directory hit has the role and mtime the rules give it now |
| CachedListing.BelievedRepositoriesStay | src/index.rs:536-559 | every repository hit is a repository by the rules now |
| CachedListing.StaleEntryPaysUp | src/walk/mod.rs:517-541 | what the rules owe from a stale entry's path alone is what they owe at and below it in the whole tree |
| CachedListing.OneEntrySettles | src/index.rs:453-460 | no path is answered for by two consulted entries |
| CachedListing.AnswerMatchesRules | src/index.rs:341-364 | the believed entries, and what the rules owe from the stale ones, are together what the rules owe, each record once, whatever can be read |
| CachedListing.RepoPathsCount | src/walk/mod.rs:377-388 | the repositories derived from records are the repository records, the root as `.` |
| CachedListing.FreshWalkIsTheListing | src/walk/mod.rs:433-435 | a complete walk is the listing the rules define |
| CachedListing.CachedListingIsRightSoFar | src/index.rs:353-364 | an answer from the index, short or not, lists nothing the rules do not, and all they do that is not at or below something its re-walk lost |
| CachedListing.CachedListingIsFresh | src/index.rs:313-365 | and exactly what the rules define when it is complete |
| CachedListing.BelievedEntriesAreListed | src/index.rs:461-491 | every believed entry is listed once, and printed once if it is a repository, whatever was lost |
| CachedListing.WalkIsRightButFor | src/walk/mod.rs:440-515 | a walk of a root with a read bit lists nothing the rules do not, and all they do that is not at or below something it lost |
| CachedListing.CompleteWalkIsRight | src/walk/mod.rs:440-515 | a walk that does not say it is short is right if and only if the root has a read bit or nothing is listed; roots named `*.git` included |
| Completeness.WalkReaches | src/walk/mod.rs:425-432 | a complete walk has read every directory the rules descend into and lost nothing in it |
| Completeness.StaleEntryIsLostIff | src/walk/mod.rs:517-541 | where a walk is complete, re-walking a stale entry falls short exactly when it is a repository that cannot be read |
| Completeness.AnswerIsRightIff | src/index.rs:255-259 | where a walk is complete, the answer is complete, and is the listing, if and only if no entry handed back is such a repository |
| Completeness.ReadableAnswersAreComplete | src/index.rs:341-364 | on a tree that can be read the answer is complete |
| BlindSpots.IndexLosesWhatTheWalkLists | src/index.rs:255-259 | a tree whose walk is complete and lists a repository that the index's answer, short, does not |
| BlindSpots.LinkGainsAreMissed | src/index.rs:30-64 | a link whose target gains `.git` is missed though every mtime matches |
| BlindSpots.LostLinksAreKept | src/index.rs:536-545 | a link named `*.git` whose target is gone is still a hit |
| Cache.ListedParents | src/index.rs:636-671 | the records of any right listing, cached or walked, contain the root and every parent |
| Cache.BuiltRemembers | src/index.rs:642-680 | an index built from a listing remembers exactly that tree's rules |
| Cache.ListFromIndex | src/index.rs:313-365 | decode, guards, probes, validation and re-walk give an answer of the pass, or nothing when the run has to walk |
| Cache.StoreIfComplete | src/index.rs:381-406 | the file is replaced by the encoding of a complete listing's index, and otherwise left |
| Cache.ListRoot | src/index.rs:260-276 | lists the index's answer or else the walk, and stores exactly what that listing allows |
| Cache.NamedRootIsRepeated | src/walk/mod.rs:455-463 | the index of a root named `*.git` answers what its walk does, whatever is in it now |
| Cache.CheckRoot | src/index.rs:285-305 | lists and stores the walk, and reports a difference exactly when the repositories are not the same |
| CheckReport.SortedAreEqualIff | src/index.rs:581-589 | sorted listings are equal exactly when the same paths are listed equally often |
| CheckReport.ReportDiff | src/index.rs:580-599 | says whether they differ, and which paths only one side has, in order |
| CheckReport.DifferencesAreAccountedFor | src/index.rs:591-598 | where no path is listed twice, a difference always names a path |
| CacheEvents.StampsAreRacy | src/index.rs:92-101 | a stamp given at or after the write is within the racy window |
| CacheEvents.ChangeKeepsStored | src/index.rs:474-483 | a change keeps a stored index faithful: what it touches is mismatched or racy |
| CacheEvents.ChangeKeepsPending | src/walk/sys.rs:370-376 | and one not yet stored, when stamps are new to it |
| CacheRuns.PassIsRight | src/index.rs:313-365 | a complete answer from any index of an earlier listing is the listing of the tree it was used on, paths that vanished meanwhile left out |
| CacheRuns.CachedAnswerIsRight | src/index.rs:313-365 | in a good state a complete cached answer is the listing of the root, read bit or not, named `*.git` or not |
| CacheRuns.CachedAnswerIsRightIff | src/index.rs:255-259 | where a walk would be complete, it is complete and right exactly when it hands back no repository that cannot be read |
| CacheRuns.StoredDecodes | src/index.rs:396-406 | what is stored decodes to the index that was built |
| CacheRuns.StepKeepsInv | src/index.rs:260-305 | every event keeps the file and the listings on their way to it good |
| CacheRuns.TheFileIsAlwaysGood | src/index.rs:366-387 | in every history the file is absent, undecodable, another root's, or the index of a complete listing |
| CacheRuns.EveryListingIsRight | src/index.rs:260-276 | in every history a listing that does not say it is short is exactly the tree's, if and only if it came from the index, the root had a read bit, or nothing is listed |
| CacheRuns.TheIndexAnswersAsAWalk | src/index.rs:255-259 | in every history the index answers as a complete walk would, if and only if it hands back no repository that cannot be read |
| CacheRuns.TheIndexEqualsTheWalk | src/index.rs:255-259 | in every history, on a tree that can be read, its answer and the fresh walk are complete and equal |
| CacheRuns.ChecksNeverDiffer | src/index.rs:285-305 | in every history a check of two complete listings finds a difference exactly when the root has no read bit and something to list |
| CacheAnswers.EveryAnswerIsRightSoFar | src/index.rs:353-364 | in every history, for every answer from the index: believed entries are listed once; paths not at or below something a stale entry's re-walk lost, exactly as the rules say; nothing else; short exactly when something was lost; reads and prunes are the re-walk's |
| CacheAnswers.EveryWalkIsRightSoFar | src/walk/mod.rs:433-435 | in every history the same of every walk of a root with a read bit |
| CacheAnswers.ListingsPrintRepositories | src/walk/mod.rs:425-435 | in every history a listing, short or not, prints repositories by the rules and nothing else, each once |
| CacheReuse.StoredIsIndex | src/index.rs:381-406 | a complete listing that fits is stored as the index of that root, identity, exclusions, time and listing |
| CacheReuse.NothingIsStaleIff | src/index.rs:461-491 | on an unchanged tree every entry is believed if and only if every directory looked into had its time two seconds before the write |
| CacheReuse.TheNextRunReadsNothing | src/index.rs:642-680 | in every history, a later run that finds the file and the tree as they were answers with the listing, hands nothing back and reads no directory, if and only if the tree had been left alone for two seconds, or the root is a repository by its name |
| CacheReuse.EveryRunAnswersIff | src/index.rs:313-355 | in every history a run answers from the index if and only if it can open the root, the file is an index of this root and these exclusions, and the root's entry still holds |
| SlowWalks.WindowCoversGranularity | src/index.rs:92-101 | the window catches every change at or after the write if and only if it is as wide as the clock is coarse |
| SlowWalks.SlowWalksAreFaithful | src/walk/sys.rs:370-385 | with mtimes read first, a directory that shows the mtime read holds the entries read, however the tree changed during the walk |
| SlowWalks.SlowPassesAreFaithful | src/index.rs:313-365 | so does, after an index answer that took time, a directory that was believed or re-walked, however the tree changed meanwhile |
| SlowWalks.LossesShow | src/index.rs:453-460 | where an entry of a believed directory turns out changed, that directory or one above it no longer shows its time |
| SlowWalks.TimeReadLastIsFooled | src/walk/sys.rs:370-376 | read the other way round, that fails |
| Naming.BoundaryIsContainment | src/cmd/list.rs:250-270 | starting with a root and stopping on a slash is being below it, component by component |
| Naming.RootPrefixNames | src/cmd/list.rs:257-270 | the byte test accepts exactly the roots that contain the path and cuts to the relative path |
| Naming.FullPathJoins | src/cmd/list.rs:326-336 | joining is the path made of both parts, for `/` and `.` too |
| Naming.FirstRoot | src/cmd/list.rs:235-243 | the scan ends on the first root that matches; the walked one always does |
| Naming.NameRepositories | src/cmd/list.rs:222-248 | every span is its path, named by the first root that contains it; joining gives the path back; primary exactly when the first root contains it |
| Naming.NamesAreInvertible | src/cmd/list.rs:222-248 | under one root no two paths share a name |
| Unique.TailsAreTheTails | src/cmd/list.rs:344-346 | exactly the tails on component boundaries, shortest first |
| Unique.Count | src/cmd/list.rs:442-452 | the maps hold the distinct owners of each tail and the copies of each path |
| Unique.LineFor | src/cmd/list.rs:455-464 | the shortest tail with one owner, or nothing exactly when all are shared or it is a non-primary copy |
| Unique.LineIsDetermined | src/cmd/list.rs:455-464 | that describes one line |
| Unique.LinesAreUnambiguous | src/cmd/list.rs:441-467 | different paths never print the same line |
| Unique.FormatUnique | src/cmd/list.rs:441-467 | the output is those lines, in order |
| UrlMemo.OnlyRunner | src/config.rs:179-184 | one thread at a time is inside a slot, and git runs only for unanswered ones |
| UrlMemo.StepKeepsInv | src/config.rs:821-847 | locks are held by who is inside, and a slot holds an answer exactly when one run produced it |
| UrlMemo.OneRunPerUrl | src/config.rs:805-808 | at most one answer per URL is ever produced, and every successful lookup was told it |
| UrlMemo.MemoHoldsWhatGitAnswered | src/config.rs:805-814 | in every history the memo holds an answer if and only if git gave it at some step |
| UrlMemo.FailuresAreForgotten | src/config.rs:811-814 | so whoever holds a slot is told an answer exactly if there was one, and runs git exactly if there was none, however many runs failed |
| UrlMemo.LookupsAreToldWhatTheyAsked | src/config.rs:836-846 | in every history each lookup that returns adds one answer, which git gave for the URL it last asked about; no other step tells anyone anything |
| UrlMemo.WaitsAreShort | src/config.rs:179-184 | whoever waits, waits for a thread that can move, and for git only of the same URL |
| TmpNames.DecimalParses | src/cmd/get.rs:205-209 | a process number written in a name parses back, when it fits `i32` |
| TmpNames.TmpNamesAreUnique | src/cmd/get.rs:205-209 | a temporary name is of one destination and one number |
| TmpNames.SweepReadsTheOwner | src/vcs/git.rs:120-147 | a sweep for any destination takes a temporary directory to be its owner's |
| TmpNames.StaleTmpPaths | src/vcs/git.rs:120-147 | lists exactly the leftovers: no existing process's directory, be it another user's; every one of a number with no process, and of a number that is none, as often as it is there |
| TmpNames.LivingAreNotLeftovers | src/vcs/git.rs:149-185 | the directory of a process that exists, whether or not it may be signalled, is not among them |
| TmpNames.DeadAreLeftovers | src/vcs/git.rs:149-185 | that of a process that does not exist is, when its destination is swept for |
| CloneTree.NamesAreSpelled | src/cmd/get.rs:199-209 | for `foo` and process 42: `foo.tmp-42` and `.scap-lock-foo`, beside it |
| ClonePublication.OnlyTouchedPathsChange | src/cmd/get.rs:147-197 | sweeping, locking, cloning, renaming and cleaning up change nothing but what is at or below the paths they are about, and parents that were missing |
| ClonePublication.StaleIsNobodys | src/cmd/get.rs:149-151 | what a sweep removes, with all that is in it, holds no destination and nothing of a running thread's |
| ClonePublication.OccupiedIsRefused | src/cmd/get.rs:186-187 | a clone is refused a destination in use, which stays as it is |
| ClonePublication.StepPublishes | src/cmd/get.rs:147-197 | one step changes a destination, and anything in it, only from absent or empty to a whole clone |
| ClonePublication.StepSparesOthers | src/cmd/get.rs:147-197 | a running thread's temporary directory is touched by nobody else |
| ClonePublication.StepKeepsInv | src/cmd/get.rs:147-197 | every step keeps sweeps to what is stale and finished clones whole |
| ClonePublication.StepKeepsClosed | src/cmd/get.rs:147-197 | whatever the destinations, every entry stays in a directory |
| ClonePublication.ClonesAreKept | src/cmd/get.rs:147-197 | in every history a published clone stays, with all that is in it |
| ClonePublication.EveryStepIsSafe | src/cmd/get.rs:147-197 | in every history, for destinations that keep apart, every step publishes and spares |
| ClonePublication.LookalikesAreSwept | src/vcs/git.rs:120-147 | for a destination that is or lies in what looks like a leftover of another, a history that deletes its clone |
| ClonePublication.NestedClonesCollide | src/vcs/git.rs:34-37 | for a destination above another, a history that makes it a directory and no clone |
| ClonePublication.LocksCollide | src/cmd/get.rs:199-203 | for a destination named like another's lock file, a history that makes it that file |
| ClonePublication.SafeExactlyWhenApart | src/cmd/get.rs:147-197 | every step of every history publishes and spares if and only if no two destinations are related in one of these ways |
| LoneClone.LoneClonesEnd | src/cmd/get.rs:147-197 | a thread with nobody in its way whose git succeeds leaves its destination whole, absent or empty before; one whose git fails, as it was; temporary directory and lock file are gone |
| LoneClone.LoneThreadsMove | src/cmd/get.rs:147-197 | and until then it always has a step that brings it nearer to the end |
| LoneClone.LeftoversCanGo | src/cmd/get.rs:149-151 | what a dead process left beside the destination its sweep can find and remove whole |
| CloneTwins.TwinsPublishDamage | src/cmd/get.rs:235-258 | for any destination, a history of three threads of one process that ends with a damaged clone published |
| CodeCommit.RecogniserIsThePattern | src/url.rs:292-340 | the recogniser returns some groups exactly when the pattern matches with them |
| CodeCommit.InputIsInTheLanguage | src/url.rs:345-347 | the predicate is membership in the pattern's language |
| CodeCommit.GroupsAreForced | src/url.rs:276-291 | a match has only one set of groups |

## Left out

- System calls, directory streams and error codes beyond the classes the code branches on.
- Walks that do not record index entries: the model always records, which adds records and changes
  nothing else.
- A failed `fstat` while recording (`src/walk/sys.rs:377-384`), whose stand-in mtime never validates.
- A root whose `stat` fails for another reason than not being there (`src/walk/mod.rs:597-606`), which lists
  nothing, as one that does not exist; and a root path holding a NUL byte.
- A link as an intermediate component of a re-opened path: it resolves to nothing here. The paths
  re-opened have only directories above them unless the tree changes during the walk.
- Trees without all their search bits, for the index: a `chmod` moves no mtime, which the program
  documents (`src/index.rs:30-64`).
- CacheRuns.EveryListingIsRight: one listing sees the tree at one moment. Walks and index answers during which
  the tree changes are events of their own, whose results may be stored but are not said to be any one
  moment's listing.
- CacheRuns.StepKeepsInv: an index has to fit the format's widths to be stored; a length that saturates
  makes the file undecodable or another file, which is not followed further.
- IndexBuild.Build: the sort is the library's; it is an insertion sort here, and which of two records with
  one path survives is the stable choice.
- CheckReport.ReportDiff: the sort is the library's; it is an insertion sort here.
- IndexValidate.ProbeAll: the method fills the chunks one after another; other orders have a lemma of their own.
- DescriptorBudget.BudgetHolds: runs in which a worker panics, after which the count is not used again.
- Pool.WhoeverLeavesLeavesNothing: spinning and the parking timeout are left to chance; parking may
  always end.
- UrlMemo.OneRunPerUrl: the spawn counter shown in a trace span, and what git answers.
- ClonePublication.EveryStepIsSafe: `--update`, destinations whose names are not UTF-8, and a git that goes on
  after its process has died.
- Naming.NameRepositories: filtering by query, sorting and printing the lines.
- `mode`, cache-directory placement, FNV file names, the atomic write's temporary file, environment
  variables, configuration loading, general URL normalisation, subprocesses, tracing and stderr wording.
