# A verified model of the benchmark harness

A Dafny model of the parts of the harness that decide whether a published number can be trusted: what
counts as the same answer, which bytes a corpus is, how a run is driven and compared, and the
statistics a verdict rests on. Each part is modelled in the form its source has. What changes things
step by step is a class or a method with loops, proved against a specification function; the laws are
lemmas about those functions, over every input, every run or every reachable state.

`dafny verify dfyconfig.toml` checks the whole project.

## How it is laid out

| part | files |
|---|---|
| canonical answers | `Calendar`, `Text`, `Answer`, `Sameness` (which values and tables come out the same), `Bytes`, `Digest` |
| corpus identity | `Manifest`, `Selections` (which manifests are alone with their identity) |
| the store | `Store` (one process, over a filesystem whose every step may be refused), `StoreInterleaving` (many processes, one step at a time, with crashes), `Streams` (streams and the counting reader) |
| filling the store | `Corpus` (what fetching and generating share), `Fetch`, `Generate` |
| the run protocol | `Session`, `Protocol`, `Schedule`, `Agree` |
| statistics | `SplitMix`, `Vectors` (its first draw, bit by bit), `Statistics`, `Coverage` (medians, quantiles and intervals by counting), `Measure`, `Repetition`, `Variance` (what the components of a pilot mean), `Claim`, `Means`, `Leaderboard` |
| column projection | `Projection` |
| shared vocabulary | `Sorting`, `Reals`, `Wrappers` |

Things outside the program are parameters. A driver and a page cache are functions of everything that
happened before, so they stand for any driver. A filesystem is a map of paths with a function saying
which of its steps are refused. A hash is any function of the bytes it is fed, and nothing is assumed
about collisions. A request, a generator and a stream are whatever they deliver. A shuffle draws from
any function. The logarithm and the exponential are any pair with the three laws the proof uses.

## Where the code does less than its comments say

Each of these is stated of the code as it is, with the condition under which it does hold.

- **A partly present corpus cannot be generated.** `generate` asks the store about the corpus as a
  whole, and a file whose digest is there is then streamed in without being read, so it is counted as
  no bytes and refused for its size. Taking in succeeds exactly when every file was written as pinned
  and no listed digest is there already or listed twice, files declared empty excepted
  (`Generate.GeneratesExactly`, `Generate.PartlyThereNeverGenerates`). `fetch` asks
  file by file and does not have this (`Fetch.FetchesExactly`).
- **A crash can leave a bad object.** `insert_stream` renames before it knows the digest. A crash
  between the rename and the removal leaves bytes under a digest they do not hash to, which later calls
  accept (`StoreInterleaving.CrashLeavesABadObject`). In every run the bad objects of a quiescent store
  are exactly those a removal was due for and did not happen
  (`StoreInterleaving.ExactlyStrandedAreBad`). From any fresh store, a digest can be left bad exactly
  when the store does not have it and some call for it may break its promise
  (`StoreInterleaving.NeverBadExactly`). Where none does, as with `insert_bytes`, every step is safe
  (`StoreInterleaving.HonestStoreIsAlwaysSelfNamed`). A truncated object never appears, whatever crashes
  (`StoreInterleaving.NoTruncatedObject`).
- **A bad call can take away another's good object**, without any crash
  (`StoreInterleaving.BadCallRemovesAGoodObject`): what two processes write under one digest is not
  identical by construction. From a fresh store it can happen exactly at the digests that were not there
  at the start and for which one call may keep its promise and another may break it
  (`StoreInterleaving.KeepsGoodExactly`). Being told that a digest is there means that it will be exactly
  when it was there at the start or no call for it may break its promise
  (`StoreInterleaving.KeepsAnyExactly`).
- **A wrong size does not mean nothing was kept.** The size is looked at after the store has decided. A
  refused fetch has kept its bytes exactly when they are new, whole and of the right digest and only
  their size is not the declared one, and the next fetch then takes them (`Fetch.WrongSizeIsKept`). For
  the same reason a removal that was refused is reported as a wrong size exactly when the size was wrong
  too (`Corpus.TakeIn`).
- **`insert_file` does not compare what it hashed with what it copied**; the store stays self-named
  exactly when they agree (`Store.Store.InsertFile`).
- **The identity of a manifest is not unique once newlines are allowed.** A name may hold the first
  lines of a listing, and a newline may stand in a name or a path. Among newline-free manifests the
  identity is exact (`Manifest.IdentityExact`). Over all listings a manifest is alone with its bytes
  exactly when it has one file and no newline (`Selections.AmongAllListings`); over those that pass the
  checks on names, paths and sizes, exactly when it has one file and its name and path split nowhere else
  into a name and a path that pass (`Selections.AmongValidated`).
- **The maximum of an interval rule is not always a maximum.** A series that never settles is stopped by
  it exactly when the minimum is no larger and the maximum is a positive multiple of the checking
  interval (`Measure.MaximumHoldsExactly`); with the default of at most 500, asked every 8, it ends at
  504. A minimum at or above the maximum decides alone (`Measure.MinimumOverridesMaximum`). Likewise an
  exact count is met exactly when it is such a multiple (`Measure.AfterIsExactly`).
- **Short run lists never occur.** The record type allows an answered query with fewer than three runs;
  `measure` never makes one (`Protocol.AnsweredExactly`).
- **A field does not determine its value.** Two values share a text exactly when they are the same, or are
  times of one time of day, or one is a text that spells the other (`Sameness.FieldsAlikeExactly`). So
  two systems that type a column differently agree exactly when their tables are alike in that sense
  (`Sameness.OrderedAnswersAlike`, `Sameness.UnorderedAnswersAlike`).
- **A resample with a zero median does not lose the ratio.** It is dropped. There is no ratio exactly when
  there are no pairs, when the observed denominator is zero, or when it is in every resample of several
  pairs (`Statistics.NoRatioExactly`).
- **The body does not always hold a line for each row.** It does for every table but two: a single row
  without columns, and a single row of one empty text, have a row count of one and an empty body
  (`Answer.RowsAreLinesExactly`, `Answer.OneEmptyLine`).

## Model

| member | source | states |
|---|---|---|
| Calendar.CivilIsTheCalendar | crates/bench-driver/src/answer.rs:148-166 | For every integer day number the date formula is the Gregorian calendar counted day by day from 1970-01-01, forwards and backwards, leap years and month lengths included |
| Calendar.CivilInverted | crates/bench-driver/src/answer.rs:148-166 | Every day number gives a valid date, and the day count of that date is the number again |
| Calendar.CivilOfDayNumber | crates/bench-driver/src/answer.rs:148-166 | Every valid date is the date of its day count, so the two are inverse bijections |
| Calendar.CivilOrdered | crates/bench-driver/src/answer.rs:148-166 | Later day numbers are later dates |
| Answer.DateRead | crates/bench-driver/src/answer.rs:115-118 | The date text of any day number, also beyond year 9999 and before year 0, reads back to it |
| Answer.ClockRead | crates/bench-driver/src/answer.rs:125-140 | The clock text of any count of microseconds reads back to the time of day, trimmed fraction or not |
| Answer.DateTextForm | crates/bench-driver/src/answer.rs:115-118 | For the years 0 to 9999 the date text is four digits, two and two, with dashes between |
| Answer.ClockTextForm | crates/bench-driver/src/answer.rs:125-140 | The clock text has a fraction exactly when there is one, of one to six digits that do not end in a zero |
| Answer.ClockForgetsDays | crates/bench-driver/src/answer.rs:125-140 | Two times render alike exactly when they differ by whole days |
| Answer.IntTextForm | crates/bench-driver/src/answer.rs:86-88 | An integer's text has a sign only below zero and no zero first but in zero itself |
| Answer.RenderRead | crates/bench-driver/src/answer.rs:81-109 | In a column of one kind, nulls included, every rendered field reads back to its value and holds no separator |
| Sameness.FieldsAlikeExactly | crates/bench-driver/src/answer.rs:81-140 | For all values of all kinds: two share a text exactly when they are the same, or times of one time of day, or one is a text spelling the other, which is no null |
| Sameness.KindsShareText | crates/bench-driver/src/answer.rs:81-109 | A pair that does: a flag and the text that spells it |
| Sameness.OrderedAnswersAlike | crates/bench-driver/src/answer.rs:310-357 | For any tables of even width, mixed or differently typed columns included, answers under an order are equal exactly when the tables are alike field by field |
| Sameness.UnorderedAnswersAlike | crates/bench-driver/src/answer.rs:310-357 | Without an order, exactly when they are alike field by field in some order of the rows |
| Answer.RenderInto | crates/bench-driver/src/answer.rs:81-109 | Rendering into a buffer appends the field and leaves what was there |
| Answer.EscapeInto | crates/bench-driver/src/answer.rs:81-109 | The character loop appends the escaped text |
| Text.EscapeRead | crates/bench-driver/src/answer.rs:81-109 | Escaped text reads back, holds no tab, newline or return, and never spells the null |
| Answer.Rows.Push | crates/bench-driver/src/answer.rs:280-303 | A row is taken exactly when it is as wide as the first, and a refused row changes nothing and is named in the error |
| Answer.Rows.Finish | crates/bench-driver/src/answer.rs:310-323 | The answer is the canonical form of the rows taken, sorted when the query gave no order |
| Answer.AnswerCounts | crates/bench-driver/src/answer.rs:310-323 | The counts are those of the rows and of the first row's columns, and nothing for no rows |
| Answer.AnswerRead | crates/bench-driver/src/answer.rs:310-323 | Rows, columns and body give back the rendered lines, in order or sorted |
| Answer.UnorderedLinesAscend | crates/bench-driver/src/answer.rs:310-313 | Without an order the lines of an answer stand in the order of their characters |
| Answer.AnswersEqual | crates/bench-driver/src/answer.rs:310-357 | Ordered answers are equal exactly when their columns and sequences of rendered rows are; unordered ones exactly when columns and multisets are |
| Answer.TableRead | crates/bench-driver/src/answer.rs:81-140 | A table of fixed column kinds is decoded from its answer, up to row order when the query gave none |
| Answer.SameAnswer | crates/bench-driver/src/answer.rs:346-357 | Over fixed kinds, equal answers mean the same rows, and the same order exactly when the query named one |
| Answer.RowsAreLinesExactly | crates/bench-driver/src/answer.rs:310-323 | For every table, ordered or not, the body holds as many lines as there are rows exactly when the table is not a single row without columns or of one empty text |
| Answer.OneEmptyLine | crates/bench-driver/src/answer.rs:310-323 | One of the two tables for which it does not |
| Bytes.CharBytesForm | crates/bench-workload/src/digest.rs:25-35 | A character's bytes carry seven, eleven, sixteen or twenty one bits of its number in the form of UTF-8 |
| Digest.PreimageParts | crates/bench-workload/src/digest.rs:25-35 | Eight bytes that come, least first, to the row count, eight to the column count or the most eight can, and the body |
| Digest.PreimageInjective | crates/bench-workload/src/digest.rs:25-35 | The bytes hashed of two answers are equal exactly when the answers are |
| Digest.AlikePreimage | crates/bench-workload/src/digest.rs:25-35 | Whatever their columns hold, two tables are hashed as the same bytes exactly when they are alike, in order when one was asked for |
| Digest.SamePreimage | crates/bench-workload/src/digest.rs:25-35 | Two tables of the same kinds are hashed as the same bytes exactly when they hold the same rows, in order when one was asked for |
| Manifest.HexForm | crates/bench-corpus/src/manifest.rs:258-273 | A digest is written as two lower case digits a byte, the high four bits first |
| Manifest.ListedByPath | crates/bench-corpus/src/manifest.rs:258-273 | The entries are listed in the order of their paths |
| Manifest.IdentityIgnoresOrder | crates/bench-corpus/src/manifest.rs:258-273 | Reordering the entries of a manifest with distinct paths does not move its identity |
| Manifest.IdentityExact | crates/bench-corpus/src/manifest.rs:258-273 | Without newlines, two identities have the same bytes exactly when the names and the sets of path, digest and size are equal |
| Selections.NamesOneSelectionExactly | crates/bench-corpus/src/manifest.rs:258-273 | Under any checks on name, path and size that survive folding, a manifest is the only one with its bytes exactly when it has one file and its name and path split nowhere else into a name and a path that pass |
| Selections.AmongAllListings | crates/bench-corpus/src/manifest.rs:258-273 | Over all listings with distinct paths, newlines allowed everywhere: exactly when it has one file and no newline |
| Selections.AmongValidated | crates/bench-corpus/src/manifest.rs:314-408 | Over manifests that pass the checks on names, paths and sizes: exactly when it has one file and no other acceptable split |
| Selections.FoldedShares | crates/bench-corpus/src/manifest.rs:262-271 | Any manifest of several files shares its bytes with the one whose name holds its first lines, and that one passes the same checks |
| Manifest.Identity | crates/bench-corpus/src/manifest.rs:258-273 | Sorting and feeding a hasher piece by piece is hashing the whole preimage |
| Manifest.CheckDistinct | crates/bench-corpus/src/manifest.rs:401-408 | The seen list refuses exactly the listings with a repeated path, and names the first repeat |
| Store.PlacesTogether | crates/bench-corpus/src/store.rs:115-119 | An object sits under its hex name split after two digits, and its temporary files in the same directory |
| Store.PlacesDistinct | crates/bench-corpus/src/store.rs:115-119 | No two digests share an object path, and no temporary name of any process is an object's or another's |
| Store.SelfNamedPut | crates/bench-corpus/src/store.rs:224-270 | Putting bytes under a digest keeps a store self-named exactly when they hash to it |
| Store.Store.Contains | crates/bench-corpus/src/store.rs:123-125 | Answers whether the object map has the digest |
| Store.Store.InsertBytes | crates/bench-corpus/src/store.rs:132-145 | A duplicate changes no file, success adds exactly these bytes under their hash and leaves no temporary file, and failure leaves the objects alone |
| Store.Store.InsertFile | crates/bench-corpus/src/store.rs:155-186 | What is added is the second reading under the first reading's digest, and the store stays self-named exactly when they agree |
| Store.Store.InsertVerified | crates/bench-corpus/src/store.rs:197-211 | A file that does not hash to the promise is refused before any file is touched; an unchanged one ends under the promised digest |
| Store.Store.InsertStream | crates/bench-corpus/src/store.rs:224-270 | A duplicate reads nothing and changes nothing; success adds exactly the streamed bytes, which hash to the digest; a mismatch leaves every object and no temporary file; only a refused removal leaves a bad object; and which of these happens is decided by the stream when no step is refused |
| Store.Store.FinishWrite | crates/bench-corpus/src/store.rs:320-361 | The temporary file is renamed whole or the objects do not change; it survives only a refused step |
| Store.Store.Verify | crates/bench-corpus/src/store.rs:298-317 | Accepts exactly the readable objects that hash to their name, and tells missing from mismatched |
| StoreInterleaving.RunKeeps | crates/bench-corpus/src/store.rs:224-270 | In every state of every interleaving of any number of processes, crashes and refusals included, an object is bad exactly when its removal was due and lost or it awaits the judgement of a last renamer whose bytes are bad |
| StoreInterleaving.UndisturbedStoreIsSelfNamed | crates/bench-corpus/src/store.rs:224-270 | Without crashes and refusals, a bad object is one its last renamer has yet to take away, and a quiescent store holds only self-named objects |
| StoreInterleaving.ExactlyStrandedAreBad | crates/bench-corpus/src/store.rs:224-270 | With them, a quiescent store's bad objects are exactly those whose removal was due and lost |
| StoreInterleaving.OneDigest | crates/bench-corpus/src/store.rs:224-270 | Whatever the calls for other digests do and whatever crashes, a digest whose own calls all keep their promise has a self-named object in every state, for good; one whose calls all break it never has |
| StoreInterleaving.NeverBadExactly | crates/bench-corpus/src/store.rs:256-260 | From any fresh store, runs can come to rest with bad bytes at a digest exactly when the store does not have it and some call for it may break its promise |
| StoreInterleaving.KeepsGoodExactly | crates/bench-corpus/src/store.rs:320-361 | From any fresh store, a good object can go away exactly when it was not there at the start, one call for its digest may keep its promise and another may break it, with crashes or without |
| StoreInterleaving.KeepsAnyExactly | crates/bench-corpus/src/store.rs:224-234 | From any fresh store, an object that is there stays there exactly when it was there at the start or every call for its digest keeps its promise, with crashes or without |
| StoreInterleaving.NoTruncatedObject | crates/bench-corpus/src/store.rs:320-361 | In every state of every interleaving, whatever crashes or is refused, an object is the one there at the start or all the bytes of a call made for its digest |
| StoreInterleaving.HonestStoreIsAlwaysSelfNamed | crates/bench-corpus/src/store.rs:132-145 | When all bytes hash to what they are put under, every object is self-named in every state whatever crashes, and none ever goes away |
| StoreInterleaving.AloneIsTheCall | crates/bench-corpus/src/store.rs:224-270 | A process run alone comes to what the sequential call comes to |
| StoreInterleaving.CrashLeavesABadObject | crates/bench-corpus/src/store.rs:256-260 | The run that ends with a bad object that the next call accepts |
| StoreInterleaving.BadCallRemovesAGoodObject | crates/bench-corpus/src/store.rs:320-361 | The crash-free run in which an object another process was told is in is removed |
| Streams.Counting.Read | crates/bench-corpus/src/progress.rs:62-74 | Each read passes through what the inner reader gives, counts it, and reports when due or at the end; a failed read counts nothing |
| Streams.CountsWhatArrives | crates/bench-corpus/src/progress.rs:62-74 | The count is the number of bytes that arrived, also of a stream that breaks off |
| Streams.ReportsSpaced | crates/bench-corpus/src/progress.rs:62-74 | Reports come an interval apart and less than one buffer late, and a stream that ends is reported once more with its whole length |
| Corpus.TakeIn | crates/bench-corpus/src/fetch.rs:316-356 | The shared end of both `one`s: objects only added, a taken file of the declared size and digest, size errors before digest errors, the last report complete, and a bad object left behind reported as a refused removal exactly when its size was the declared one |
| Corpus.RefusalsExactly | crates/bench-corpus/src/fetch.rs:316-356 | Which refusal comes when, and what it says: a wrong size first, then a broken stream, then a wrong digest |
| Corpus.FailureIsTheFirst | crates/bench-corpus/src/fetch.rs:198-203 | A failure is that of the first file that fails, with those before it taken |
| Corpus.TakesExactly | crates/bench-corpus/src/fetch.rs:198-203 | For any per-file step that follows a rule, the whole loop succeeds exactly when the rule takes every file in turn, and then everything is there, accounted for in manifest order |
| Fetch.FetchedOneSays | crates/bench-corpus/src/fetch.rs:291-356 | What is there is not asked for, a request that failed says why, and what came says what taking it in said |
| Fetch.FetchesExactly | crates/bench-corpus/src/fetch.rs:182-204 | A fetch succeeds exactly when each file is there, or listed before, or served whole with its size and digest; only adds; keeps a self-named store so |
| Fetch.NothingAskedTwice | crates/bench-corpus/src/fetch.rs:291-311 | With every digest there, a fetch depends on no reply and changes nothing |
| Fetch.WrongSizeIsKept | crates/bench-corpus/src/fetch.rs:323-336 | For every entry and reply, a refused fetch changes the store exactly when the bytes are new, whole and of the right digest and the wrong size; then they are kept under a size error and accepted the next time |
| Fetch.One | crates/bench-corpus/src/fetch.rs:291-356 | The store is asked before the network; the outcome and the objects are those of the specification, and the last report of a success is complete |
| Fetch.FetchCorpus | crates/bench-corpus/src/fetch.rs:182-204 | A generated corpus is refused untouched; any other is fetched in order, and success leaves every digest present and every new file of its size and digest even on a filesystem that refuses steps |
| Generate.GeneratedOneSays | crates/bench-corpus/src/generate.rs:362-408 | A file that was not written is named, and another says what taking it in said |
| Generate.GeneratesExactly | crates/bench-corpus/src/generate.rs:257-261 | Taking in succeeds exactly when every file was written as pinned and no digest is there already or listed before, files declared empty excepted |
| Generate.PartlyThereNeverGenerates | crates/bench-corpus/src/generate.rs:362-391 | A non-empty file whose digest is there makes the whole generation fail, whatever was written |
| Generate.Directory.Prepare | crates/bench-corpus/src/generate.rs:303-317 | The scratch directory ends empty, or the step that was refused is named |
| Generate.GenerateCorpus | crates/bench-corpus/src/generate.rs:188-262 | A complete corpus runs nothing; refusals come in order and change nothing; otherwise what is taken in is what the program writes into an empty directory, whatever was there before |
| Session.PhaseSafety | crates/bench-driver/src/phase.rs:125-175 | Over any trace in order, no load reaches a driver before a successful prepare, no run before a successful load, and nothing is prepared twice |
| Session.TooEarlyWords | crates/bench-driver/src/driver.rs:155-206 | The words of a phase asked for before the one it depends on |
| Session.AgainWords | crates/bench-driver/src/driver.rs:155-206 | The words of a phase asked for again |
| Session.OtherWords | crates/bench-driver/src/driver.rs:155-206 | The words of the other errors hold what the driver said |
| Session.TallyKeeps | crates/bench-driver/src/phase.rs:125-156 | What was once prepared or loaded stays so |
| Session.TallySums | crates/bench-driver/src/phase.rs:58-80 | Totals and counts are the sums over the successful calls, discarded ones included |
| Session.Session.Prepare | crates/bench-driver/src/phase.rs:125-136 | A second prepare does not reach the driver and changes nothing; the first adds its time and marks the session prepared exactly when it succeeds |
| Session.Session.Load | crates/bench-driver/src/phase.rs:143-156 | A load before a successful prepare does not reach the driver and changes nothing; a successful one is counted and its time added |
| Session.Session.Ask | crates/bench-driver/src/phase.rs:163-175 | A query before a successful load does not reach the driver and changes nothing; its answer and time are the driver's, counted and added when it succeeds |
| Protocol.Measure | crates/bench-workload/src/protocol.rs:224-270 | Against any driver, one record per query in order, each explained by its own part of the trace and nothing else happening: the cache asked once, then the query put until it fails or has answered three times |
| Protocol.AnsweredExactly | crates/bench-workload/src/protocol.rs:224-270 | A query is recorded as answered exactly when all three calls succeeded, and otherwise with the first failure and no timing, its successful calls still counted |
| Protocol.RecordedFromReplies | crates/bench-workload/src/protocol.rs:224-270 | Read straight off the replies: each run's time, row count and digest, the cold time the first's and the hot time the least of the later two, and a failure's kind and words |
| Protocol.LeastIsLeast | crates/bench-workload/src/protocol.rs:148-154 | The hot time is one of the runs and no run after the first is faster |
| Protocol.StatelessShapes | crates/bench-workload/src/protocol.rs:224-270 | For a driver whose reply depends only on the query, each record apart from times is a function of the query |
| Schedule.Shuffle | crates/bench-run/src/schedule.rs:135-139 | Whatever is drawn, the shuffled order is a permutation |
| Schedule.EveryOrderIsReached | crates/bench-run/src/schedule.rs:135-139 | Every permutation is the shuffle of some draws |
| Schedule.ApplyPermutes | crates/bench-run/src/schedule.rs:182-191 | Applying a schedule drops and repeats nothing |
| Schedule.RunWorkload | crates/bench-run/src/schedule.rs:229-247 | A run visits each query once, in the schedule's order, and records it from its own part of the trace |
| Schedule.SchedulesAgree | crates/bench-run/src/schedule.rs:229-247 | Any two schedules of one workload give reports that are permutations of each other apart from times |
| Schedule.SchedulesKeepClasses | crates/bench-workload/src/agree.rs:89-130 | Whatever schedules the systems ran under, every query lands in the same class |
| Agree.Compare | crates/bench-workload/src/agree.rs:89-130 | The loop computes the four lists, with what each system read and which were unsteady |
| Agree.ListsExactly | crates/bench-workload/src/agree.rs:89-130 | Said of the reports: a mentioned query is unanswered when no report's first record of it is an answer, alone when one's is, agreed when several are and no two first runs have different digests, disagreed when two do |
| Agree.DisagreementsSay | crates/bench-workload/src/agree.rs:112-127 | A disagreement holds, for each report that answers and in their order, its driver and its first run's digest and row count |
| Agree.FirstMentionsExact | crates/bench-workload/src/agree.rs:133-143 | The ids are the mentioned ones, once each, in order of first mention |
| Agree.EveryIdOnce | crates/bench-workload/src/agree.rs:89-143 | The four lists partition the ids any report mentions |
| Agree.OfClassInOrder | crates/bench-workload/src/agree.rs:89-130 | Any two ids of a list stand in the order they were first mentioned in |
| Agree.UnstablesExactly | crates/bench-workload/src/agree.rs:89-130 | The unstable list names a driver and a query exactly when the query is among the ids and a report of that driver recorded it first with answers that differ between runs |
| Agree.OfClassExact | crates/bench-workload/src/agree.rs:89-130 | A list holds exactly the ids of its class |
| Agree.OrderOfReports | crates/bench-workload/src/agree.rs:89-130 | Reordering the reports moves no query to another class |
| Agree.OneMoreReport | crates/bench-workload/src/agree.rs:89-130 | One more report, at any place, never turns a disagreement into an agreement nor an agreement into a lone reading |
| SplitMix.OutputBijection | crates/bench-core/src/stats.rs:374-380 | The output is a bijection of the 64 bit state, with its inverse written out |
| Vectors.FirstDraw | crates/bench-core/src/stats.rs:374-380 | The first draw from a seed of zero is e220a8397b1dcdaf |
| SplitMix.Period | crates/bench-core/src/stats.rs:374-380 | The state is the seed again exactly at the multiples of 2^64 draws |
| SplitMix.BelowIsEven | crates/bench-core/src/stats.rs:384-392 | Each result below a bound is hit by the floor or the ceiling of its share of the outputs |
| SplitMix.StateHitsEven | crates/bench-core/src/stats.rs:374-392 | The same counts hold over the generator's states |
| SplitMix.SplitMix64.Draw | crates/bench-core/src/stats.rs:384-392 | A draw steps the state once and is below its bound |
| Statistics.SelectedIsSorted | crates/bench-core/src/stats.rs:299-310 | After any selection the chosen place and the part before it are what sorting would give |
| Statistics.MedianBySelection | crates/bench-core/src/stats.rs:299-320 | The selection median is the median of the sorted samples for every non-empty input, and permutes them |
| Coverage.RankedIsSorted | crates/bench-core/src/stats.rs:299-320 | The number that comes k-th, by counting those below and those up to it, is there exactly once and is what sorting puts at place k |
| Coverage.MedianIsMiddle | crates/bench-core/src/stats.rs:313-320 | The median is the number that comes in the middle, or half way between the two that do |
| Coverage.QuantileCovers | crates/bench-core/src/stats.rs:352-361 | Of the numbers there, the quantile is the one with no more than the fraction below it and more than the fraction, or all, up to it |
| Coverage.IntervalCovers | crates/bench-core/src/stats.rs:324-349 | No more than the tail of the resamples have a median below the lower end and more than the tail, or all, up to it; and so with the rest for the upper end |
| Coverage.SummaryExactly | crates/bench-core/src/stats.rs:219-248 | Every field of a summary by counting: count, median, extremes, the mean the deviations balance about, and the interval |
| Coverage.PairedCovers | crates/bench-core/src/stats.rs:137-196 | The interval of a paired comparison covers its confidence among the resamples that have a ratio |
| Coverage.RatioExactly | crates/bench-core/src/stats.rs:199-208 | A ratio is there exactly when the denominator's median is not within a rounding of zero, and multiplied by it gives the numerator's |
| Statistics.BootstrapInside | crates/bench-core/src/stats.rs:324-361 | The interval stays in the range of the samples, the right way round for a confidence in [0, 1] |
| Statistics.HoldsMedianExactly | crates/bench-core/src/stats.rs:324-361 | The interval holds the median whatever is drawn exactly when there are no resamples or all samples are one value |
| Statistics.IntervalInside | crates/bench-core/src/stats.rs:219-248 | A summary's minimum and maximum are samples and bound all of them, its interval and its median |
| Statistics.SummaryIgnoresOrder | crates/bench-core/src/stats.rs:219-248 | The summary depends only on the multiset of the samples |
| Statistics.SummariseSeries | crates/bench-core/src/stats.rs:219-248 | The resampling loops compute the summary |
| Statistics.MedianScales | crates/bench-core/src/stats.rs:299-320 | Scaling by any factor, negative ones included, scales the median |
| Statistics.PairingSurvives | crates/bench-core/src/stats.rs:137-208 | When one side is k times the other pair by pair, ratio and both ends are exactly k, for every length, seed, resample count and confidence |
| Statistics.PairedInside | crates/bench-core/src/stats.rs:137-196 | The ratio is that of the medians, both ends of its interval are ratios of resamples, and they are the right way round for a confidence in [0, 1] |
| Statistics.NoRatioExactly | crates/bench-core/src/stats.rs:137-196 | There is no ratio exactly when there are no pairs, or the observed denominator is zero, or it is in every resample of several pairs |
| Statistics.WithinExactly | crates/bench-core/src/stats.rs:111-113 | A comparison is within a fraction exactly when every value of its interval is that near to parity |
| Statistics.PairedRatioOf | crates/bench-core/src/stats.rs:137-196 | The pair resampling loops compute the paired ratio |
| Measure.RunTiming | crates/bench-core/src/measure.rs:172-187 | The loop ends at the first asked count at which the rule holds, keeps the samples in order, and calls the body that often after the warmup |
| Measure.StopsAtExactly | crates/bench-core/src/measure.rs:107-123 | Said of the samples: a run ends at the first asked count from the minimum on at which the maximum is reached or the interval, multiplied out, is no wider than the target of the median |
| Measure.NarrowTimes | crates/bench-core/src/measure.rs:107-123 | Of times, that is a median at least a rounding above zero and a width of at most the target times it |
| Measure.SmallerTargetIsLater | crates/bench-core/src/measure.rs:107-123 | A smaller target never ends a run of times sooner |
| Measure.ConstantStops | crates/bench-core/src/measure.rs:172-187 | A constant time ends at the first asked count from the minimum on |
| Measure.StopBounds | crates/bench-core/src/measure.rs:107-123 | That count is unique, at most the first asked count at or above the larger of minimum and maximum, and never below the minimum |
| Measure.MaximumHoldsExactly | crates/bench-core/src/measure.rs:107-123 | Every run of an interval rule ends by the maximum exactly when the minimum is no larger and the maximum is a positive multiple of the checking interval |
| Measure.BoundIsReached | crates/bench-core/src/measure.rs:172-187 | The bound on the count is reached by a stream whose interval never narrows |
| Measure.AfterIsExactly | crates/bench-core/src/measure.rs:107-123 | An exact count is met exactly when it is a positive multiple of the checking interval |
| Measure.MinimumOverridesMaximum | crates/bench-core/src/measure.rs:112-117 | With a minimum at or above the maximum the rule is the minimum alone |
| Repetition.NewPilot | crates/bench-core/src/repetition.rs:59-80 | A pilot is accepted exactly when it is balanced and two deep at every level; it is refused as too small exactly when the first of some level has fewer than two, with the three counts, and as unbalanced otherwise |
| Repetition.SquaresAddUp | crates/bench-core/src/repetition.rs:107-158 | The three scaled sums of squares add up exactly to the squares about the grand mean |
| Repetition.Decompose | crates/bench-core/src/repetition.rs:107-158 | The nested accumulation computes the components |
| Variance.ComponentsAreVariances | crates/bench-core/src/repetition.rs:107-158 | The nested variance law: within a process the variance is the iteration component, between process means the process component and a share of it, between build means the build component and a share of that, and a component is zero when the share alone is as much |
| Variance.SquaresAreVariance | crates/bench-core/src/repetition.rs:130-147 | The squares about the mean are the sample variance, as a sum over pairs, once for each sample but one |
| Repetition.ComponentsAffine | crates/bench-core/src/repetition.rs:107-158 | Shifting all samples changes no component and scaling multiplies each by the square |
| Repetition.DominantExact | crates/bench-core/src/repetition.rs:215-224 | The dominant level is the largest, ties to the cheaper, and only that one |
| Repetition.DominantAffine | crates/bench-core/src/repetition.rs:107-224 | Neither a shift nor a change of unit moves the dominant level |
| Repetition.PlanSpendsBudget | crates/bench-core/src/repetition.rs:259-279 | The plan is at least the pilot's eight; for a budget of eight or more it stays within the budget and leaves less than one unit of it; what is more than settled is at the dominant level |
| Claim.VerdictMeaning | crates/bench-store/src/claim.rs:239-255 | A pass says every value within resolution meets the bar, a failure that none does, and undecided that both kinds exist, each exactly |
| Claim.FinerNeverFlips | crates/bench-store/src/claim.rs:239-255 | A smaller resolution keeps every decided verdict |
| Claim.CaveatsOnlySpell | crates/bench-store/src/claim.rs:239-255 | Caveats separate the two spellings of a pass and decide nothing else |
| Claim.DayOrder | crates/bench-store/src/claim.rs:494-503 | On accepted days text order is year, month, day order |
| Claim.IsDayExactly | crates/bench-store/src/claim.rs:494-503 | A day is four digits, two and two, with dashes between |
| Claim.OutcomesExactly | crates/bench-store/src/claim.rs:146-197 | Each outcome with exactly when it comes: not registered, not a day, pending, a refusal with and without a citation, backdated, relative to nothing, and otherwise the bar's |
| Claim.SettledOnlyByLaterMeasurement | crates/bench-store/src/claim.rs:146-197 | A claim is settled exactly by a measurement on or after the registered day whose bar decides |
| Means.GeomeanIsRoot | crates/bench-workload/src/leaderboard.rs:391-402 | The mean taken in log space is the one positive number whose power is the product; there is none exactly for no values or one not above zero |
| Means.GeomeanOf | crates/bench-workload/src/leaderboard.rs:391-402 | The loop over logarithms computes the geometric mean |
| Means.GeomeanPermutes | crates/bench-workload/src/leaderboard.rs:391-402 | The geometric mean does not depend on order |
| Means.GeomeanScales | crates/bench-workload/src/leaderboard.rs:391-402 | Scaling every value scales the geometric mean |
| Leaderboard.IndexReadsBack | crates/bench-workload/src/leaderboard.rs:405-407 | An id names the position its digits spell |
| Leaderboard.IndexExactly | crates/bench-workload/src/leaderboard.rs:405-407 | An id names a position exactly when it is one q, perhaps a plus sign, and digits that spell a number of 64 bits |
| Leaderboard.PairExactly | crates/bench-workload/src/leaderboard.rs:255-280 | A query is put next to upstream's exactly when both have a time above zero in the column: the first run's, or the least of the later ones |
| Leaderboard.PairsAreOfQueries | crates/bench-workload/src/leaderboard.rs:255-280 | The pairs compared are those of the report's queries and no others |
| Leaderboard.StandingMeans | crates/bench-workload/src/leaderboard.rs:281-306 | The two means are roots of the products, and the ratio is one over the other |
| Leaderboard.StandingPoints | crates/bench-workload/src/leaderboard.rs:284-298 | A point for each comparable query, whose relative times the ratio times upstream's time is ours, the largest first |
| Leaderboard.DriftExactly | crates/bench-workload/src/leaderboard.rs:352-360 | One plus the drift times the machine factor is the ratio, and inside is within a quarter of the factor either way |
| Leaderboard.LeastPresentIsLeast | crates/bench-workload/src/leaderboard.rs:157-165 | The published hot time is a least one of those that are there |
| Leaderboard.MatchedOrSkipped | crates/bench-workload/src/leaderboard.rs:255-280 | Every query of a report is a point or skipped, once |
| Leaderboard.NewStanding | crates/bench-workload/src/leaderboard.rs:255-307 | The loop, the means and the sort compute the standing |
| Leaderboard.StandingBalances | crates/bench-workload/src/leaderboard.rs:255-307 | There is a standing exactly when some query is comparable; its points are those queries, worst first, and their relatives multiply to one |
| Leaderboard.StandingScales | crates/bench-workload/src/leaderboard.rs:255-307 | Reordering the queries and slowing every matched one by c multiplies the ratio by c and moves no query's relative |
| Leaderboard.SlowerAndShuffled | crates/bench-workload/src/leaderboard.rs:255-307 | Runs that took c times as long, reported in any order, are such a change in both columns |
| Leaderboard.NewCalibration | crates/bench-workload/src/leaderboard.rs:329-345 | The loop over reports computes the standings, the unmatched drivers and the machine factor |
| Leaderboard.ComparedOrUnmatched | crates/bench-workload/src/leaderboard.rs:329-345 | Every report has a standing or is unmatched, once |
| Leaderboard.DriftsBalance | crates/bench-workload/src/leaderboard.rs:329-354 | Over any set of compared drivers the product of one plus drift is one |
| Leaderboard.DriftsIgnoreTheMachine | crates/bench-workload/src/leaderboard.rs:255-379 | Multiplying every matched time by one positive factor, or reordering the queries of any report, moves no drift, no driver outside the band and no verdict |
| Leaderboard.OutsideExactly | crates/bench-workload/src/leaderboard.rs:364-379 | The outside list holds exactly the drivers outside the band, and clean says there is none |
| Leaderboard.OneDriverIsClean | crates/bench-workload/src/leaderboard.rs:329-379 | One compared driver alone is always clean |
| Leaderboard.TwoDrivers | crates/bench-workload/src/leaderboard.rs:352-360 | Of two drivers the fast one is outside exactly when the slow one drifts more than a third, the slow one from a quarter, so the fast one outside forces the slow one outside |
| Leaderboard.SlowOneAlone | crates/bench-workload/src/leaderboard.rs:329-360 | The converse fails: a calibration of two reports with only the slow driver outside |
| Projection.Order | drivers/driver-arrow-parquet/src/lib.rs:248-267 | Without a list every position in file order; otherwise names become positions of their first occurrence, or the error names one the schema lacks |
| Projection.WantedAscends | drivers/driver-arrow-parquet/src/lib.rs:273-295 | Sorted and deduplicated, the wanted list ascends strictly and holds exactly the requested columns |
| Projection.Project | drivers/driver-arrow-parquet/src/lib.rs:273-295 | Each requested column is found by binary search among the distinct ones, and it fails exactly when the batch is too narrow |
| Projection.ProjectRestoresOrder | drivers/driver-arrow-parquet/src/lib.rs:273-295 | Over a batch in file order, any requested list, with repeats and in any order, gets its columns back at their places |
| Projection.ProjectFile | drivers/driver-arrow-parquet/src/lib.rs:151-167 | The projection step of a run delivers the i-th requested file column as its i-th output |

## Left out

- Answer.RenderRead: has no float case, because float text depends on IEEE formatting.
- Answer.RenderInto: has no float case, for the same reason.
- Repetition.NewPilot: has no error for a sample that is not finite, because samples are real numbers.
- Selections.AmongValidated: paths are those of a Unix system, and the checks that do not concern names, paths and sizes are not modelled.
- Float rendering: `float`, `exponent` and `round_to_significant` depend on IEEE logarithms and formatting, so a value has no float case.
- IEEE rounding: times, medians, ratios and components are real numbers, and the check that a sample is finite has nothing to refuse.
- Statistics.HoldsMedianExactly: whether an interval holds the median is stated over all draws; for the draws of one seed it is not decided.
- BLAKE3 and the seeded shuffle generator: the hash is any function and the draws are any sequence.
- Counter widths: counts of bytes, rows, runs and samples do not wrap, except in SplitMix64, where arithmetic modulo 2^64 is written out.
- Store.Store.InsertStream: interruption by other processes is in `StoreInterleaving` and not in the class, and a directory at an object's path is not modelled.
- Store.Store.FinishWrite: the write that takes a closure is written as a start, a copy loop and a finish, since a method cannot be passed as a value.
- Store.Store.InsertFile: opening and reading the source are given as what they deliver; metadata of the file is not modelled.
- Generate.GenerateCorpus: the category check and the generator field are one optional generator, and asking the program its version is given by its outcome.
- Fetch.One: working out the URL and the client's fallback to another address family are part of the reply a file gets.
- Streams.Counting.Read: the watcher is a list of what it was told.
- Schedule.Shuffle: the generator behind the seed is any function from a count to a draw.
- Statistics.SelectNth: callers rely only on what the standard library promises of its selection.
- Leaderboard.NewStanding: the published files and their parsing are a parameter, and the driver table is the two names of the source.
- Manifest parsing and the other checks of `validate`: field by field scans with no law of their own.
- The `SELECT` scan of the Parquet driver, value conversion and batch reading: arm by arm conversions around a library.
- The other drivers, environment capture and gates, report wording and the command line: wrappers and finite tables.
