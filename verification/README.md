# AlphOne in Dafny

This project models the parts of AlphOne where several things happen at once or where one form of the data stands for another, and proves what each keeps. Every mutex section, every SQL statement and every stretch between two awaits is one atomic step; interleavings, clocks, cache eviction and crashes are nondeterministic. Where the source changes an object or a table in place there is a class or a method whose contract ties its new state to a function, and the theorems are about that function and about whole runs of it.

- **Field catalogue** (`CatalogProtocol`, `CatalogSafety`, `CatalogRuns`, `CatalogAges`, `Catalog`, `FieldTypes`): a read of a tenant's definitions shared by its callers, joined, abandoned and overtaken, behind a cache with stamps.
- **Graph cache** (`GraphsProtocol`, `GraphsLocks`, `GraphsSafety`, `GraphsRuns`, `Graphs`): per-tenant graphs held by stamp on top of any number of catalogues, built under counted locks that come and go.
- **Runtime fields in the schema** (`Widen`, `Rewriting`, `Execution`, `Preservation`): widening the schema, pointing operations at the carrier field, and an executor (GraphQL, October 2021, sections 5.3 and 6.3) over which the rewriting is meaning preserving.
- **Connection loader** (`Connection`, `Reread`, `LoaderProtocol`, `LoaderSafety`, `LoaderRuns`, `LoaderPages`, `LoaderLists`, `PageLoader`): rereading loaded pages of a list that changed, and the job machine around it.
- **Task listings** (`Clocks`, `Tasks`, `TaskListing`, `TaskWalk`): the listing order, its cursors, and walks over a store that changes meanwhile.
- **Field definitions and values** (`Definitions`, `Values`, `Entries`, `FieldRuns`, `FieldSafety`, `FieldStore`): the definitions table as an ordered list, value checks, repeater lists, and values checked against stale views.
- **WhatsApp** (`Ingest`, `Deliveries`, `Media`): redelivered webhooks, statuses, batches, and a fair claim of media downloads.
- **Webhook worker** (`Webhooks`): leases, backoff and a retry window.
- **Import commit** (`ImportProtocol`, `ImportSafety`, `ImportRuns`, `Importer`, `Commits`): overlapping, crashing and resumed commits of one import, and the commit's own methods as steps of that protocol.
- **Envelopes** (`Encryption`): unambiguous framing (unsigned LEB128, section 7.6 of DWARF version 5) and key rotation.

Six properties do not hold for every input, and the model says exactly when they do. Four of them fail on inputs the program can meet:

- A WhatsApp delivery taken again is taken in exactly once, by clocks that do not go back, exactly when the first item of each of its messages carries a timestamp that parses; otherwise two full passes can leave what neither alone would leave (`Ingest.ExactlyOnceExactly`, `Ingest.RedeliveryFailsExactly`).
- A listener is told of a WhatsApp message after it was stored, in a step of its own. However often its delivery is passed over it is told at most once (`Ingest.ToldAtMostOnce`), and of exactly what one undisturbed pass tells of exactly when no pass stored a new message without telling of it (`Ingest.ToldExactly`); such a message is told of by no later pass (`Ingest.UntoldStaysUntold`).
- A sent message is stored after the send, and an update received before that reaches nothing and is lost. Its status ends at the greatest rank received since it was stored, which is the greatest received at all exactly when no earlier one is greater (`Ingest.StatusEndsHighest`, `Ingest.HighestOfAllExactly`); read before the storing and sent after it end at sent (`Ingest.EarlyUpdateIsLost`).
- The counts of a committed import are those of its rows as long as no overlapping commit gives a settled row another outcome, for certain when none held rows it had listed (`ImportRuns.TalliedWhileRepeated`, `ImportRuns.TalliedWhenAlone`); two overlapping commits do reach counts that are wrong (`ImportRuns.CountsGoStale`).

The other two fail only on inputs the program rules out today, so their conditions say what must stay true. A task cursor reads back exactly in the years 0 to 9999 (`Cursors.CursorReadsBack`); the Date scalar reads years of four digits only (`graph/scalar/scalar.go:20-42`). The carrier can stand for a runtime field exactly when the object's type is served the field and compiles none of its name (`Preservation.CarrierStandsExactly`), which an interface compiling the carrier would break (`Preservation.CarrierOnInterfaceFails`); the compiled schema declares the carrier once, on an object type, and has no interface.

## Model

| member | source | states |
|---|---|---|
| FieldTypes.Read | plugins/fields/catalog.go:153-174 | one pass over the definitions builds the whole unstamped view of them |
| FieldTypes.ViewHoldsShape | plugins/fields/catalog.go:164-172 | a view answers each definition's own kind and sub fields under its name |
| FieldTypes.ViewHoldsOnly | plugins/fields/catalog.go:164-172 | a view holds no name but its definitions' |
| FieldTypes.ViewListsFields | plugins/fields/catalog.go:159-171 | a view lists one field of a contact for each definition, in their order, under its name and its kind's scalar |
| Catalog.Catalog.Share | plugins/fields/catalog.go:95-103 | one more caller waits on the tenant's read under way, a new one exactly when none is, and nothing else changes |
| Catalog.Catalog.Join | plugins/fields/catalog.go:89-104 | a fresh view answers and changes nothing; otherwise the caller holds the tenant's mapped flight |
| Catalog.Catalog.Leave | plugins/fields/catalog.go:107-115 | a leaving caller stops and detaches the read exactly when it was the last, keeping a newer read of the tenant mapped |
| Catalog.Catalog.Detach | plugins/fields/catalog.go:135-141 | only the tenant's current read is unmapped, and the answer says whether it was |
| Catalog.Catalog.StampFor | plugins/fields/catalog.go:144-150 | equal fields keep the held stamp, any others get the next one |
| Catalog.Catalog.Land | plugins/fields/catalog.go:118-132 | a finished read hands its stamped view to every caller and to the cache only while it was current |
| Catalog.Catalog.Forget | plugins/fields/catalog.go:177-191 | the view goes, and a read under way is overtaken, stopped and unmapped |
| CatalogSafety.StampIsOwn | plugins/fields/catalog.go:144-150 | a stamp about to be issued is new or was issued to this tenant for these very fields |
| CatalogSafety.JoinHolds | plugins/fields/catalog.go:89-104 | joining keeps: mapped flights live, held views begun after the last forget, answers no older than their calls |
| CatalogSafety.FetchHolds | plugins/fields/catalog.go:119-119 | reading the live definitions at any moment keeps the invariant, also when the read was stopped |
| CatalogSafety.LandHolds | plugins/fields/catalog.go:118-132 | a read landing late, detached or overtaken, keeps the invariant |
| CatalogSafety.WakeHolds | plugins/fields/catalog.go:77-80 | a waiting caller takes the outcome, or reads again when the read was overtaken, and keeps the invariant |
| CatalogSafety.LeaveHolds | plugins/fields/catalog.go:81-84 | a cancelled caller leaving keeps the invariant |
| CatalogSafety.ForgetHolds | plugins/fields/catalog.go:184-191 | forgetting keeps the invariant |
| CatalogSafety.StepHolds | plugins/fields/catalog.go:69-191 | every step of every interleaving, eviction and definition change included, keeps the whole invariant |
| CatalogRuns.RunHolds | plugins/fields/catalog.go:69-191 | the invariant holds in every reachable state |
| CatalogRuns.RunGrows | plugins/fields/catalog.go:118-132 | over any run outcomes, answers, issued stamps and what a read found are never taken back |
| CatalogRuns.ReadYourOwnWrite | plugins/fields/catalog.go:68-86 | a call begun after a forget returned is answered with the definitions of a version no older than that forget saw |
| CatalogRuns.NeverCancelled | plugins/fields/catalog.go:69-115 | no caller is answered a cancellation caused by another's leaving or by a forget |
| CatalogRuns.MappedFlightsLive | plugins/fields/catalog.go:89-140 | a mapped flight is unstopped, not overtaken and waited on; a stopped one is finished, overtaken or waited on by nobody |
| CatalogRuns.HeldBegunAfterForget | plugins/fields/catalog.go:118-132 | no read begun before a forget is ever held after it |
| CatalogRuns.StampsAgree | plugins/fields/catalog.go:144-150 | over any run, two views answered under one stamp are one tenant's and list the same fields |
| CatalogAges.AnsweredAtOnceExactly | plugins/fields/catalog.go:89-104 | in every run a call that joins is answered at once exactly when the held view was fetched less than the refresh time before, by the clocks of that fetch and of the call, then by that view and with no read started; any other call waits |
| CatalogAges.HeldAge | plugins/fields/catalog.go:153-161 | a held view carries the clock of the one fetch its flight made |
| CatalogAges.UnchangedKeepsStamp | plugins/fields/catalog.go:144-150 | in every run reading again the fields a view holds already keeps its stamp |
| Graphs.Graphs.UseLock | internal/dyngraph/dyngraph.go:122-131 | one more user is counted on the tenant's lock, a new lock exactly when the map held none |
| Graphs.Graphs.Unhold | internal/dyngraph/dyngraph.go:132-133 | releasing frees the lock and leaves its users counted |
| Graphs.Graphs.UnuseLock | internal/dyngraph/dyngraph.go:134-139 | one user fewer, the map entry going with the last |
| Graphs.Graphs.Collect | internal/dyngraph/dyngraph.go:144-156 | fails exactly when a source does; otherwise every stamp and all fields, source by source |
| Graphs.Graphs.Check | internal/dyngraph/dyngraph.go:106-119 | a failing source leaves the held graph or else the plain one; equal stamps serve the held graph; anything else asks for a build |
| Graphs.Graphs.Build | internal/dyngraph/dyngraph.go:100-102 | the graph of the fields is served and held under their stamps |
| GraphsLocks.UseKeepsLocks | internal/dyngraph/dyngraph.go:122-131 | taking a lock keeps every count equal to its users and every used lock mapped |
| GraphsLocks.HoldKeepsLocks | internal/dyngraph/dyngraph.go:131-131 | acquiring keeps one holder for each lock |
| GraphsLocks.UnholdKeepsLocks | internal/dyngraph/dyngraph.go:132-133 | releasing keeps counts and holders right |
| GraphsLocks.UnuseKeepsLocks | internal/dyngraph/dyngraph.go:134-139 | giving a lock back keeps the map holding exactly the used locks |
| GraphsSafety.GotGraph | internal/dyngraph/dyngraph.go:144-166 | the graph built from a check's answers is the graph their stamps denote |
| GraphsSafety.CachedGraph | internal/dyngraph/dyngraph.go:114-115 | a held graph served on equal stamps is the graph of what the sources answered that very check |
| GraphsSafety.TakeHolds | internal/dyngraph/dyngraph.go:144-156 | taking a source's answer, or its failure, keeps the invariant |
| GraphsSafety.StoreHolds | internal/dyngraph/dyngraph.go:100-102 | storing a built graph keeps every held graph the one its stamps denote |
| GraphsSafety.StepHolds | internal/dyngraph/dyngraph.go:86-141 | every step of the requests, the cache and all sources keeps the whole invariant |
| GraphsRuns.ServesOwnWrite | internal/dyngraph/dyngraph.go:86-119 | a request begun after a source's forget is served a graph of definitions no source had live earlier than that, unless a source refused it |
| GraphsRuns.HeldDenoteStamps | internal/dyngraph/dyngraph.go:86-103 | in every reachable state each held graph is the graph of the fields its stamps were issued for |
| GraphsRuns.LocksCountUsers | internal/dyngraph/dyngraph.go:122-141 | the map has a tenant's lock exactly while requests use it, and it counts each of them |
| GraphsRuns.BuildsExclude | internal/dyngraph/dyngraph.go:94-102 | no two second checks or builds of one tenant overlap although locks are deleted and made again |
| GraphsRuns.CheckedExactly | internal/dyngraph/dyngraph.go:106-119 | in every run a check all sources answered serves the graph it found exactly when they answered the stamps it is held under, and otherwise goes for the lock, or under it for a build of what they answered |
| GraphsRuns.RefusedServesHeld | internal/dyngraph/dyngraph.go:108-112 | in every run a request a source fails is served a graph held for its tenant before, or the plain one when its check found none |
| GraphsRuns.AllFieldsInOrder | internal/dyngraph/dyngraph.go:144-156 | the fields of several sources are theirs one source after another |
| Widen.GroupByEntity | internal/dyngraph/dyngraph.go:169-185 | the loop groups exactly what the grouping function says |
| Widen.GroupServesLast | internal/dyngraph/dyngraph.go:169-185 | an entity and name is served exactly when some field of them is servable, and then by the last such one |
| Rewriting.ServedExactly | internal/dyngraph/dyngraph.go:169-185 | for any runtime fields, a selected field is served exactly when it is one the rewriting points at the carrier and some runtime field has its entity and name, and then as the last such field |
| Widen.GroupIsGrouped | internal/dyngraph/dyngraph.go:172-178 | every grouped field compiles the carrier, no field of its own name, and is filed under its entity and name |
| Widen.ExtendsDeclares | internal/dyngraph/dyngraph.go:194-205 | an extended definition declares the compiled fields as they were and the served ones under their scalars, and no other name |
| Widen.Copied | internal/dyngraph/dyngraph.go:195-204 | a fresh copy holds the compiled fields and then each served one once, in some order |
| Widen.Widened | internal/dyngraph/dyngraph.go:188-211 | entities are fresh extended copies, every other type is shared, the roots point into the new types, and base is not written |
| Rewriting.RewriteField | internal/dyngraph/dyngraph.go:258-277 | a field is rewritten in place exactly when its compiled owner lacks it and compiles the carrier |
| Rewriting.Rewrite | internal/dyngraph/dyngraph.go:243-255 | the recursive in-place pass leaves what the rewriting function makes of the old selections |
| Rewriting.AddedIsRewritable | internal/dyngraph/dyngraph.go:258-269 | every field widening adds is rewritten, exactly when its name is not reserved, as no definition's name is (plugins/fields/field.go:65) |
| Rewriting.RewriteTwice | internal/dyngraph/dyngraph.go:243-277 | rewriting twice is rewriting once exactly when nothing under a rewritten field is still to be rewritten |
| Preservation.RewritingSettles | internal/dyngraph/dyngraph.go:243-277 | for a valid operation rewriting twice is rewriting once |
| Preservation.RewrittenIsValid | internal/dyngraph/dyngraph.go:233-255 | a valid operation rewritten selects only compiled fields, each as the compiled schema allows |
| Preservation.AnswersAlike | internal/dyngraph/dyngraph.go:258-277 | one field of one object is answered alike by the widened schema and, rewritten, by the compiled resolvers |
| Preservation.RewritingKeepsMeaning | internal/dyngraph/dyngraph.go:159-277 | a valid operation rewritten answers over the compiled resolvers alone, key for key and at every depth, what the original answers |
| Preservation.CarrierStandsExactly | internal/dyngraph/dyngraph.go:169-185 | the carrier stands for a runtime field on an object, over all resolvers, exactly when its type is served it and compiles none of its name |
| Preservation.CarrierOnInterfaceFails | internal/dyngraph/dyngraph.go:258-269 | an interface that compiled the carrier would break the rewriting |
| Connection.Rows | sdk/frontend/useConnection.ts:361-372 | the loop lists exactly the rows the row function names |
| Connection.RowsDistinct | sdk/frontend/useConnection.ts:361-372 | no id is listed twice |
| Connection.RowsFirst | sdk/frontend/useConnection.ts:364-369 | a row is listed exactly when it is the first of its id or has none |
| Reread.RereadPages | sdk/frontend/useConnection.ts:248-267 | ends on every server whose cursors advance, with pages read in turn up to the stop rule and all but a dropped last one kept, or with the failure of one read |
| Reread.OneAnswer | sdk/frontend/useConnection.ts:248-267 | a server leaves one answer only, whichever reads it is told by |
| Reread.KeepsLoadedCount | sdk/frontend/useConnection.ts:275-295 | no fewer pages are kept than were loaded unless the list ends, and each past them holds a loaded row |
| Reread.KeptIsPrefix | sdk/frontend/useConnection.ts:248-280 | whatever the list became, the first page and the kept ones are a contiguous prefix of it |
| Reread.RereadKeepsLoaded | sdk/frontend/useConnection.ts:248-305 | with rows gained in front only, whatever the cursors of the old list and of the new one name, every loaded row is kept exactly when fewer were gained than the loaded pages hold when full, and then no read page is dropped |
| Reread.RereadAnswersLoaded | sdk/frontend/useConnection.ts:248-305 | on a server of that list no read of a reread fails, and what it answers holds every loaded row exactly under that bound |
| Reread.RowsArePrefix | sdk/frontend/useConnection.ts:361-372 | the rows listed after a reread are a contiguous prefix of the list, each once |
| Reread.NamedRowsServe | internal/cursor/cursor.go:62-74 | cursors that each name the row they follow serve any list in pages as the rereading theorems ask, and advance |
| PageLoader.PageLoader.Rekey | sdk/frontend/useConnection.ts:133-138 | new variables drop pages, jobs and the run in flight and show that; the same ones change nothing |
| PageLoader.PageLoader.Drain | sdk/frontend/useConnection.ts:166-186 | a drain starts only when none is running and then goes to its first await |
| PageLoader.PageLoader.GoOn | sdk/frontend/useConnection.ts:176-191 | the screen is told and the loop goes to its next await or ends |
| PageLoader.PageLoader.LandReread | sdk/frontend/useConnection.ts:208-212 | what a reread brought back is taken only in its own generation, a failed one keeping the pages |
| PageLoader.PageLoader.LandMore | sdk/frontend/useConnection.ts:233-238 | a further page is appended only in its own generation |
| LoaderSafety.LoopedHolds | sdk/frontend/useConnection.ts:176-191 | going round the loop keeps one drain, no lost job, honest flags and pages of their own variables |
| LoaderSafety.RenderedHolds | sdk/frontend/useConnection.ts:94-156 | a render with any new variables, first page and pause keeps the invariant |
| LoaderSafety.StepHolds | sdk/frontend/useConnection.ts:97-239 | every event and every landing keeps the invariant |
| LoaderRuns.NoJobLost | sdk/frontend/useConnection.ts:124-192 | whenever a job waits with no drain running the connection is paused with a reread waiting |
| LoaderRuns.OneDrainAtATime | sdk/frontend/useConnection.ts:166-192 | at most one drain of the current generation is active, exactly while the loader says it runs |
| LoaderRuns.PagesOfTheirVariables | sdk/frontend/useConnection.ts:98-106 | pages listed under the connection's variables were read with them |
| LoaderRuns.ResetDropsReads | sdk/frontend/useConnection.ts:203-239 | a read in flight across a reset changes neither pages nor flags when it lands |
| LoaderRuns.DrainsSettle | sdk/frontend/useConnection.ts:176-188 | however many wakeups came in a burst, each step of a drain leaves less to do |
| LoaderRuns.ScreenShowsLoader | sdk/frontend/useConnection.ts:94-122 | in every run the screen shows the loader's own pages and flags, but between a job's end and its drain going on |
| LoaderPages.PagesAreBrought | sdk/frontend/useConnection.ts:198-239 | in every run the loaded pages are what the latest good reread since the reset brought and then each further page landed after it, in order |
| LoaderPages.FailedIsLast | sdk/frontend/useConnection.ts:198-239 | in every run the loader is failed exactly when the latest read that landed in it since the reset was, with no reread of no page after it |
| LoaderPages.JobsAreDone | sdk/frontend/useConnection.ts:166-192 | in every run a job is forgotten only as it is taken up: a reread of all that is loaded, never while paused, or a page after the last cursor, never before a waiting reread; and going round takes up a job that may be |
| LoaderLists.RunOnList | sdk/frontend/useConnection.ts:203-267 | in every run, while reads answer from one list and no reset comes, the loaded pages stay a contiguous stretch of it from its second page on |
| LoaderLists.ResetIsOnList | sdk/frontend/useConnection.ts:391-400 | a loader just reset is on every list whose first page it has |
| LoaderLists.OnListIsLoaded | sdk/frontend/useConnection.ts:248-305 | the first page and that stretch are loaded pages as the rereading theorems start from |
| LoaderLists.RereadLands | sdk/frontend/useConnection.ts:198-213 | in every run a reread of such pages answered from the list grown in front leaves a stretch of the grown list that holds every loaded row exactly under the bound |
| Clocks.ClockReadsBack | internal/task/clock.go:36-70 | a time of day printed reads back as itself |
| Clocks.ReadsOnlyPrinted | internal/task/clock.go:36-53 | only the printed text of a valid time of day is read |
| Clocks.DateReadsBack | internal/cursor/cursor.go:67-89 | a date printed reads back exactly in the years 0 to 9999 and is refused otherwise |
| Tasks.StoredTasksValid | internal/task/task.go:129-181 | creating and changing only ever store tasks the listing's order allows for |
| Tasks.NewExactly | internal/task/task.go:128-160 | a task is made of just what was given, open and its title trimmed, and refused exactly for a blank title, a priority out of range or an event without a source, in this order |
| Tasks.ChangedExactly | internal/task/changes.go:10-60 | a change takes over each given field and no other, and is refused exactly for its title, status or priority, in this order |
| Tasks.ChangedTwice | internal/task/changes.go:22-40 | making the same change again changes nothing more |
| Texts.TrimmedWithin | internal/task/task.go:163-170 | trimming takes off blanks at both ends and nothing else |
| Cursors.ClockWordReadsBack | internal/cursor/cursor.go:98-111 | the sort clock of a cursor reads back, no time as 24:00, which no time of day is written as |
| Cursors.CursorReadsBack | internal/cursor/cursor.go:62-95 | a task's cursor reads back as the page after it exactly in the years 0 to 9999, and is malformed otherwise |
| TaskListing.TaskReadsBack | internal/postgres/tasks.go:186-231 | a task stored and read again is the task |
| TaskListing.PositionsMeetKeys | internal/postgres/tasks.go:205-218 | the position after a task is its own sort key, and the position of no cursor lies before every task |
| TaskListing.ClockOrder | internal/postgres/queries.sql:141-147 | open tasks with a time come by it before timeless and done ones of their rank and day, which are level |
| TaskListing.ListingOrder | internal/postgres/queries.sql:141-147 | open tasks come by greater priority, before done ones of a lesser place, then by day and by time |
| TaskListing.EarlierIsWritten | internal/postgres/queries.sql:141-147 | days are ordered as their dates are when written out |
| TaskListing.FilterLaws | internal/postgres/queries.sql:135-177 | a day's listing is that day's tasks, the ones due before a day are those of every earlier day and grow with it, a contact's are that contact's |
| TaskListing.AllIsOpenAndDone | internal/postgres/queries.sql:135-177 | under every filter all is the open and the done together |
| TaskConnections.TaskConnection | internal/graphres/tasks.go:88-103 | shows no more than the limit, says whether one row more was listed, and ends with the last shown task's cursor |
| TaskWalk.CursorIsKey | internal/cursor/cursor.go:62-95 | the cursor of a stored task positions the next page at that row's own key |
| TaskWalk.PageFollows | internal/graphres/tasks.go:40-103 | each page of a walk lists after the row the page before it showed last |
| TaskWalk.WalkRises | internal/postgres/queries.sql:135-177 | a walk lists rows in strictly rising key order across its pages while the store changes |
| TaskWalk.WalkListsOnce | internal/graphres/tasks.go:40-103 | a walk to its last page lists a task whose filter match and sort key stay fixed exactly once |
| Definitions.NamesEachOnce | plugins/fields/store.go:147-159 | true exactly for permutations of distinct held ids |
| Definitions.ListIsUnique | plugins/fields/store.go:101-106 | a table has one list for each tenant |
| Definitions.DefineStores | plugins/fields/store.go:36-84 | a definition is stored exactly when its name is new or archived under the same shape, with its caption, kind and sub fields, under its own id or the revived row's; no other row changes |
| Definitions.SameShapeExactly | plugins/fields/store.go:41-48 | shapes are the same exactly when the kinds are, and the sub fields one by one of the same names and kinds |
| Definitions.DefineAppends | plugins/fields/store.go:36-70 | defining and reviving append to the tenant's list; refused, every row stays |
| Definitions.OthersKeep | plugins/fields/store.go:36-144 | statements on one tenant's definitions leave every other tenant's list alone |
| Definitions.ArchiveRemoves | plugins/fields/store.go:87-98 | archiving takes one definition off the list and keeps the rest in order |
| Definitions.ArchiveMissing | plugins/fields/store.go:94-96 | archiving no live id changes nothing and says so |
| Definitions.OrderInstalls | plugins/fields/store.go:122-144 | ordering puts the locked ids in the given order, before any defined since |
| Definitions.OrderIsPermutation | plugins/fields/store.go:127-144 | given each live id exactly once, ordering installs exactly that order |
| FieldStore.FieldStore.Define | plugins/fields/store.go:36-84 | the statement inserts, revives or refuses as the definition function says, and sweeps values under a name new to the table |
| FieldStore.FieldStore.Archive | plugins/fields/store.go:87-98 | only the tenant's live row of that id is archived |
| FieldStore.FieldStore.Order | plugins/fields/store.go:127-144 | positions change exactly when the ids name each live definition once |
| FieldStore.FieldStore.WriteValues | plugins/fields/store.go:162-171 | a name given a value reads that value, one given null is gone, every other name and every other contact reads as before |
| FieldStore.FieldStore.AddEntry | plugins/fields/store.go:177-230 | fresh entries go on top, the last given first, exactly when there is room |
| FieldStore.FieldStore.UpdateEntry | plugins/fields/store.go:193-262 | one entry's cells are replaced in place, or there is no such entry |
| FieldStore.FieldStore.DeleteEntry | plugins/fields/store.go:202-274 | one entry goes, and the name with its last one |
| FieldRuns.WritesCompose | plugins/fields/store.go:162-171 | writing merges: names left out stay, names written null go, and two writes are one of the second over the first |
| FieldRuns.EntriesReadBack | plugins/fields/store.go:176-230 | a list stored under a name is what is read there, and no other name's changes |
| Entries.StoreNewestFirst | plugins/fields/store.go:233-241 | the array filled from the back holds the entries newest first, each under its id |
| Entries.AddKeepsSound | plugins/fields/store.go:177-230 | adding keeps distinct ids, the limit and no blank entry, with the newest on top and the rest as they were |
| Entries.UpdateKeepsSound | plugins/fields/store.go:193-199 | updating keeps every id in its place and every other entry |
| Entries.DeleteKeepsSound | plugins/fields/store.go:202-209 | deleting keeps the order of the rest and leaves no empty list |
| Values.CoerceFits | plugins/fields/value.go:77-148 | a coerced value fits its kind, and a value that fits is coerced to itself |
| Values.CoerceExactly | plugins/fields/value.go:77-148 | null clears under every kind, a value is stored exactly as what it says, however a number of 32 bits was spelled, and any other is refused |
| Values.ScalarTellsCells | plugins/fields/value.go:77-148 | two kinds are served under one scalar exactly when they hold the same cells |
| Values.ValueStoresExactly | plugins/fields/value.go:168-197 | checked values hold under a name just what was given there, nothing for null |
| Values.EntryStoresExactly | plugins/fields/value.go:28-65 | a checked entry holds under a name just what was given there, when a column takes it and it is no blank text |
| Values.ColumnKindsHold | plugins/fields/value.go:28-46 | columns of distinct names hold each its own kind and no other name has one |
| Values.WithoutOwnIdExactly | plugins/fields/value.go:48-57 | of an entry's cells only one naming the entry's own id is left out |
| Values.CheckValues | plugins/fields/value.go:168-209 | lets values through exactly when none is a repeater, unknown or of another kind, with repeaters refused first, then the first wrong kind in name order, then unknown names |
| Values.CheckRow | plugins/fields/value.go:212-230 | keeps the filled cells of known columns, or names a cell of another kind |
| Values.CheckEntry | plugins/fields/value.go:28-46 | lets an entry through exactly when its cells are known, of their kinds and not all blank, its own id left out |
| Values.DropBlankText | plugins/fields/value.go:59-65 | every blank text cell goes and nothing else does |
| Values.CheckedEntryFits | plugins/fields/value.go:28-46 | a checked entry fits the columns it was checked against |
| Values.CheckSubFields | plugins/fields/field.go:141-186 | sub fields pass exactly when only a repeater has them, under distinct good names, none nested; otherwise the first wrong one is told by its first fault |
| FieldSafety.ViewStaysTrue | plugins/fields/catalog.go:153-174 | a name a view holds is a definition's for ever, of the kind and columns the view says |
| FieldSafety.DefineHolds | plugins/fields/store.go:36-70 | defining, reviving and sweeping keep every list, shape, pending order and stored value sound |
| FieldSafety.SetOrderHolds | plugins/fields/store.go:122-144 | an order set after others defined meanwhile keeps them |
| FieldSafety.WriteHolds | plugins/fields/value.go:168-197 | values checked against a view of any earlier version still fit |
| FieldSafety.StepHolds | plugins/fields/store.go:36-274 | every statement of every interleaving keeps the whole invariant |
| FieldSafety.StaleViewsHarmless | plugins/fields/value.go:28-230 | in every reachable state each stored value and repeater entry fits its definition |
| FieldSafety.ShapesWrittenOnce | plugins/fields/store.go:41-48 | the kind and ordered sub-field names and kinds of a tenant's name are written once for ever |
| FieldSafety.TableRefinesList | plugins/fields/store.go:36-159 | in every reachable state the table sorted by position and id is the list defining, archiving and ordering made |
| Ingest.RedeliveryExactlyOnce | plugins/whatsapp/store.go:184-377 | any partial or full passes over a delivery, ended anywhere and told of or not, and then a full one leave the messages, media, activity, statuses and details one full pass leaves: at any clocks when every timestamp parses, at clocks that do not go back when each message's first does |
| Ingest.ExactlyOnceExactly | plugins/whatsapp/events.go:360-366 | over all stores and all passes, a delivery is taken in exactly once at clocks that do not go back exactly when the first item of each message has a time that parses, and at any clocks exactly when every item has |
| Ingest.RedeliveryFailsExactly | plugins/whatsapp/events.go:360-366 | some store and clocks make two full passes leave what neither pass alone would leave exactly when a message's first item has no time that parses |
| Ingest.PersistStores | plugins/whatsapp/store.go:184-239 | a message whose id is new is stored as inbound in its sender's conversation with its content, time and media, and nothing else is |
| Ingest.PersistMovesOn | plugins/whatsapp/store.go:184-206 | only the message's conversation moves on, to its time and never back |
| Ingest.InboundStays | plugins/whatsapp/store.go:310-377 | a stored inbound message is never changed by a pass |
| Ingest.ToldExactly | plugins/whatsapp/events.go:441-474 | whatever the timestamps, all passes together tell a listener of what one full pass would, in its order, exactly when none stored a new message without telling of it |
| Ingest.ToldAtMostOnce | plugins/whatsapp/events.go:441-459 | however often a delivery is passed over no message is told of twice, and none that was stored before |
| Ingest.UntoldStaysUntold | plugins/whatsapp/store.go:208-239 | a message stored by a pass that ended, or failed to tell, before telling of it is told of by no later pass |
| Ingest.StatusEndsHighest | plugins/whatsapp/store.go:264-343 | in every sequence of items taken and messages sent and then stored, a message's status ends at the greatest rank received for it since it was stored, in any order |
| Ingest.HighestOfAllExactly | plugins/whatsapp/store.go:264-343 | that is the greatest rank received for it at all exactly when none received before it was stored is greater |
| Ingest.EarlyUpdateIsLost | plugins/whatsapp/send.go:161-171 | an update read before the message is stored is lost: read, stored, sent ends at sent |
| Ingest.StatusNeverFalls | plugins/whatsapp/store.go:310-343 | over any such sequence a stored message's rank never falls |
| Ingest.AppliedExactly | plugins/whatsapp/store.go:310-343 | an update takes hold exactly on an outbound message of its tenant and id, on its number or none, of a lower rank, with its detail; nothing else changes |
| Ingest.RanksInOrder | plugins/whatsapp/store.go:300-307 | accepted, sent, delivered, read, played, failed rank in this order and no other word does |
| Ingest.RecordStores | plugins/whatsapp/store.go:264-296 | a sent message is stored as outbound under a new id, moving a known conversation on, and nothing else changes |
| Ingest.HighestIsGreatest | plugins/whatsapp/store.go:300-307 | that rank is at least the first and every received one, and is one of them |
| Deliveries.WebhookBatch.Collect | plugins/whatsapp/events.go:256-276 | a change's storable messages and then statuses are taken in order until the batch is full |
| Deliveries.ParseWebhook | plugins/whatsapp/events.go:234-276 | a batch is the first limit storable items on open routes, in document order |
| Deliveries.MessageTakenExactly | plugins/whatsapp/events.go:287-366 | a message is taken exactly when it decodes, has an id and a phone number or a user id with a period, and holds what it and its route say |
| Deliveries.StatusTakenExactly | plugins/whatsapp/events.go:306-321 | a status is taken exactly when it decodes with an id and a status, as what it and its route say |
| Deliveries.DeliveryInOrder | plugins/whatsapp/events.go:234-276 | a delivery is its changes one after another, an open change its messages and then its statuses |
| Deliveries.MessagesInOrder | plugins/whatsapp/events.go:256-276 | the messages taken of a change are those that may be, as they stand |
| Deliveries.StatusesInOrder | plugins/whatsapp/events.go:256-276 | the statuses taken of a change are those that may be, as they stand |
| Deliveries.Inbox.PersistInbound | plugins/whatsapp/store.go:184-239 | activity only moves on, and a message is stored, with its media, exactly when it is new |
| Deliveries.Inbox.Ingest | plugins/whatsapp/events.go:441-459 | a new message is stored and then told of, unless the telling comes to nothing |
| Deliveries.Inbox.AppendOutbound | plugins/whatsapp/store.go:264-296 | a sent message is stored with no status unless its id is held, and its conversation moves on |
| Deliveries.Inbox.ApplyMessageStatus | plugins/whatsapp/store.go:310-343 | a ranked status advances an outbound message on its number or on none, and only upward |
| Deliveries.Inbox.IngestBatch | plugins/whatsapp/events.go:201-213 | a batch is one pass over its messages and then its statuses, broken off before any item or between storing a message and telling of it |
| Media.ClaimTakesOldest | plugins/whatsapp/media.go:108-133 | each tenant's claimed rows are the oldest of its queue |
| Media.ClaimIsFair | plugins/whatsapp/media.go:108-133 | while a tenant has due rows left no other tenant got more than one row beyond it |
| Media.BackoffBounds | plugins/whatsapp/fetcher.go:273-278 | delays start at thirty seconds and each is twice the one before, or the hour they never pass |
| Media.FetchSettlesOnce | plugins/whatsapp/fetcher.go:220-278 | one working statement leaves an ended row alone, and stores a pending one, fails it by age or size, or defers it by thirty seconds to an hour |
| Media.EndedStays | plugins/whatsapp/media.go:146-173 | in every run of any number of fetchers, failing statements and broken sweeps, stored and failed are for ever |
| Media.ResolutionStands | plugins/whatsapp/fetcher.go:220-278 | in every such run, until the next working fetch a row is stored exactly when all of the download arrived, fits and matches in the window, failed by age exactly past it, failed by size exactly when a size is past the limit, and otherwise due by the backoff with one attempt more |
| Media.UnresolvedStays | plugins/whatsapp/fetcher.go:257-269 | in every such run a row whose statements all fail stays pending and due as it was |
| Media.MediaFetcher.FetchOne | plugins/whatsapp/fetcher.go:220-269 | a claimed row is stored, failed for good or rescheduled by what its download came to, or left when that statement fails |
| Media.MediaFetcher.Sweep | plugins/whatsapp/fetcher.go:186-202 | every claimed row is resolved once, save those whose statement fails, as it does past the sweep's timeout; no other row changes |
| Media.ClosedTenants | plugins/whatsapp/fetcher.go:205-217 | closed are exactly the due tenants whose gate failed or said no |
| Webhooks.BackoffBounds | internal/webhook/webhook.go:124-130 | delays start at thirty seconds and each is twice the one before, or the hour they never pass; the shift never leaves an int64 |
| Webhooks.StepHolds | internal/webhook/worker.go:118-200 | claims, settles and crashes keep each delivery held back by its settled failures |
| Webhooks.AttemptsBounded | internal/webhook/worker.go:118-149 | in any run of one worker a delivery is attempted at most 31 times besides claims that were lost |
| Webhooks.ThirtyOneReached | internal/webhook/worker.go:118-149 | some run reaches 31 attempts, so the bound is met |
| Webhooks.SettleDefersOrEnds | internal/webhook/worker.go:131-149 | a refused delivery fails only at 24 hours of age, and otherwise is due again thirty seconds to an hour on |
| Webhooks.SettleStands | internal/webhook/worker.go:131-149 | in every run, until it is claimed again a settled delivery is delivered, failed, a refused one only at 24 hours of age, or due thirty seconds to an hour after that settle |
| Webhooks.EndedStays | internal/postgres/queries.sql:266-279 | in every run a delivery delivered or failed stays as it is |
| Webhooks.QueuedIsDue | internal/postgres/queries.sql:266-279 | in every run a delivery queued is due from then on until it is claimed |
| Webhooks.LostClaimFallsDue | internal/postgres/queries.sql:266-279 | a claim never settled leaves its delivery due again at its lease |
| Webhooks.Worker.ClaimDue | internal/postgres/queries.sql:266-279 | each claimed delivery counts an attempt and is held until the lease |
| Webhooks.Worker.Attempt | internal/webhook/worker.go:131-149 | delivered, dropped with its owner, given up on at its age, or deferred by its attempts, or left at its lease when the queue refuses the settle |
| Webhooks.Worker.Sweep | internal/webhook/worker.go:118-128 | every claimed delivery is settled once, save those whose settle is refused, and no other changes |
| ImportSafety.CreateHolds | plugins/importer/commit.go:112-126 | creating a contact, or finding an identity owned, keeps at most one contact for each row |
| ImportSafety.SettleHolds | plugins/importer/store.go:177-187 | settling a row whatever it held keeps the invariant |
| ImportSafety.StepHolds | plugins/importer/commit.go:39-140 | every step of overlapping, stopping and resumed commits keeps the whole invariant |
| ImportRuns.MappingFixed | plugins/importer/store.go:140-160 | from the moment an import is committing its mapping is fixed and names something |
| ImportRuns.MappingTakenExactly | plugins/importer/store.go:216-228 | in every run a mapping is taken exactly while the import is ready |
| ImportRuns.CommitBeginsExactly | plugins/importer/store.go:141-160 | in every run a commit gets under way exactly when the import is mapped and not committed, and works under that mapping |
| ImportRuns.SettledStays | plugins/importer/store.go:163-187 | no settled row returns to pending |
| ImportRuns.FinishConserves | plugins/importer/store.go:190-213 | whenever a commit finishes, imported plus skipped plus failed is the row count |
| ImportRuns.OneContactPerRow | plugins/importer/commit.go:77-140 | no row ever has two contacts made for it, and imported rows carry different contacts |
| ImportRuns.TalliedWhileRepeated | plugins/importer/store.go:177-213 | in every run, from a finish on the counts are those of the rows through every step that repeats a settled row's outcome, and not after the first one that gives another |
| ImportRuns.TalliedWhenAlone | plugins/importer/store.go:177-213 | an import that finishes while no other commit holds rows it listed keeps counts that are those of its rows for ever |
| ImportProtocol.CountOfIsSize | plugins/importer/store.go:190-213 | a count is the number of places where rows have that outcome |
| ImportProtocol.PendingInOrder | plugins/importer/store.go:163-174 | pending rows are read each once, in the order they stand |
| ImportRuns.CountsGoStale | plugins/importer/commit.go:39-126 | two overlapping commits reach a committed import that counts one contact imported and has its only row skipped |
| Importer.BuildMapping | plugins/importer/mapping.go:26-81 | builds a mapping exactly when each column and field is named once within bounds and the name is among them, each column feeding its field; otherwise tells the first wrong assignment by its first fault |
| Importer.FieldsExactly | plugins/importer/commit.go:153-184 | identities come exactly of filled email and phone cells, the name of a filled name cell, texts of any other filled one |
| Importer.IndexFindsCell | plugins/importer/commit.go:177-184 | a column's index finds that column's cell |
| Importer.CheckEntry | plugins/importer/mapping.go:43-59 | refuses exactly a ready import naming vanished fields, and names them |
| Importer.DraftOf | plugins/importer/commit.go:153-184 | the draft holds exactly the identities, texts and name the mapped cells give, in whatever order the columns come |
| Importer.Claimant | plugins/importer/commit.go:129-140 | the owner of the first owned identity, none exactly when none is owned |
| Importer.ImportStore.ClaimForCommit | plugins/importer/store.go:141-160 | a mapped import moves to committing, an unmapped one stays ready, a committed one is refused |
| Importer.ImportStore.SetMapping | plugins/importer/store.go:216-228 | the mapping changes exactly while the import is ready |
| Importer.ImportStore.FinishCommit | plugins/importer/store.go:190-213 | the loop counts each outcome and marks the import committed |
| Commits.CommitRow | plugins/importer/commit.go:57-126 | a row is settled by its draft, the host's answers and who owns its identities, or left when the commit breaks off, and every statement of it is a step of the protocol |
| Commits.OutcomeExactly | plugins/importer/commit.go:57-126 | a row is imported, skipped, failed, or left with its commit broken off, each exactly when the first thing in its way says so |
| Commits.CommitRows | plugins/importer/commit.go:39-54 | every pending row is settled or the commit stops at the one that broke, settled rows staying as they were, along a path of the protocol |
| Commits.CommitImport | plugins/importer/graphql.go:272-303 | a whole commit from its claim to its finish is a path of the protocol, and finishes only with every row settled and the counts those of the rows |
| Commits.CommitStaysReachable | plugins/importer/commit.go:39-126 | from a reachable state such a path keeps one contact a row, distinct contacts of imported rows, the mapping and every settled row |
| Encryption.UvarintReadsBack | internal/encryption/encryption.go:127-127 | a length written is read back whatever follows it |
| Encryption.UvarintSpelled | internal/encryption/encryption.go:127-127 | lengths are written as the standard's examples are |
| Encryption.UvarintPrefixFree | internal/encryption/encryption.go:127-127 | no length's bytes begin another's |
| Encryption.AssociatedInjective | internal/encryption/encryption.go:124-131 | associated data are equal exactly for equal headers and equal lists of parts |
| Encryption.FramedInOrder | internal/encryption/encryption.go:124-131 | associated data are the header and then each part behind its length, in order |
| Encryption.AssociatedData | internal/encryption/encryption.go:124-131 | the loop joins the header and every framed part |
| Encryption.New | internal/encryption/encryption.go:46-61 | keys are the current and previous ones in order exactly when each has the right length, and the first wrong one is named |
| Encryption.Open | internal/encryption/encryption.go:105-121 | the first key of the id that opens the bytes answers; an id no key has is told from one that does not open |
| Encryption.DecryptsExactly | internal/encryption/encryption.go:80-121 | an envelope decrypts to what was encrypted exactly under keys still holding the encrypting one and with the same parts, however many share its id byte |

## Left out

- Clocks, networks, randomness and the outcomes of downloads, posts and resolvers are parameters; new ids are taken as fresh.
- The catalogue's least recently used order is any eviction at any time, and `uint64` stamps are unbounded, so their wrap-around is not modelled.
- A catalogue call is steps (begin, join, wait, wake or leave) rather than one method, because its loop waits on other goroutines.
- A build lock's users count a request until it gives the lock back, which is a step after it released it, as in the source.
- The executor covers field collection, merging, type conditions, fragments and skipped selections; arguments are compared and passed on but not coerced, lists and nulls are values of resolvers, and errors are nulls.
- `Complexity` and introspection of the widened schema are not modelled; reserved fields answer the same way before and after rewriting.
- React effects of one render are one step, and urql's cache is the first page each render brings.
- A reread is one read with one outcome to the loader; its single reads are in `Reread.RereadPages`.
- Tokens are packed by a codec taken as given, faithful and never empty; titles and cells are trimmed of ASCII blanks only.
- Task listings are taken by the text of `internal/postgres/queries.sql`; other statements behind `db` are not part of this model.
- The status and page size a task listing is asked for are given as read.
- The create and update calls of the task store are modelled only as the row a task is written as.
- `errorFor` is answered together with the refused statement, so a definition archived between the two is not seen.
- The contact a value row belongs to is taken to exist; the foreign key and the contact check of `addEntry` are left out.
- Numbers arrive as the real a double holds; a not-a-number is a number that does not read.
- Labels, label lengths and reserved definition names are left out.
- A listener is told or not in one step; each has silent places of its own, as several subscriptions are queued one by one.
- The WhatsApp sender's contact, raw payloads, and the text a message is shown as are left out.
- A webhook delivery whose subscription is gone is claimed and never returned by the join; that case is a lost claim.
- Nudges, tickers and shutdown of the two workers, and the address guard, are left out.
- Identities are compared as stored; their normalisation is left out, and no identity is released during a commit.
- Field values written for an imported contact and their providers' checks are outcomes given from outside.
- AES-GCM and SHA-256 are an ideal cipher and any id byte; the random nonce is a parameter.
