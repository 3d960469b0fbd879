# Verified models of the TEEHR cloud services

Dafny models of the parts of two services in which state, concurrency or translation make mistakes easy, with
proofs about every run and every input. `dafny verify dfyconfig.toml` checks everything.

**xpublish-api, the dataset provider.** `ProviderThreads.dfy` models `IcechunkDatasetProvider` as an interleaving
machine: any number of threads, each a program counter over atomic steps, share the configs, the discovery stamp, the
opened repos, the cache and four kinds of lock, while the environment moves the clock and the branch tips and lets
listings, callbacks, opens, lookups and loads fail. `ProviderThreadsSafety.dfy` and `ProviderThreadsRuns.dfy` prove
what every interleaving keeps; `ProviderThreadsProgress.dfy` proves that no interleaving gets stuck,
`ProviderThreadsListing.dfy` that the repos are listed once per TTL, `ProviderThreadsRechecks.dfy` what each lock is
for, and `ProviderThreadsFreshness.dfy` why a thread may serve what it serves. The lock of a dataset is popped when its repo is
evicted, so exclusion, and what follows from it, holds between two evictions only; `ProviderThreadsEviction.dfy` has a
run in which it is lost across one, and `ProviderThreadsLeftovers.dfy` says exactly when a thread leaves something of an
evicted repo behind. `Provider.dfy` is the class as one thread uses it, method by method, proved equal
to two functions (`Refresh` and `Get`) about whose runs the lemmas speak; `ProviderThreadsAlone.dfy` proves that a
thread of the machine that no other thread interrupts does exactly one such call.

**xpublish-api, access rules.** One rules map (`AccessRules.dfy`) is enforced three times. `SessionPolicy.dfy` compiles
it to an IAM session policy and models IAM (an explicit deny wins; `*` and `?` match across slashes, `Wildcards.dfy`);
`PolicyJson.dfy` gives the exact length of the compact JSON, and `PolicyScope.dfy` the exact condition on the listed
names under which a policy that is not too long allows what the rules permit; `PolicyReader.dfy` reads the JSON back
and restates the results for what is read. `RequestPaths.dfy` models the path
middleware and relates the ids it checks to the ids the routes look up (`DatasetIds.dfy`).

**api, queries.** `Filtering.dfy` has the conditions the endpoints build and what they mean on rows with NULLs;
`WhereText.dfy` writes them as SQL text and reads the text back with a lexer and a precedence parser.
`Queryables.dfy` compares the precomputed combinations table with the live query while its snapshot is checked, and
`UncheckedCombinations.dfy` when it is not. `Paging.dfy` follows `next` and `prev` links over a database that may
arrange tied rows differently for every request (the paging of section 7.15 of OGC API - Features - Part 1, OGC
17-069r3). `Locations.dfy` joins, de-duplicates, pivots and pages.

**api, state machines.** `RateLimiter.dfy` (with `Decimals.dfy` and `ApiIdentities.dfy`), `ApiKeys.dfy` and
`Broker.dfy` model the rate limiter, the API keys with the repeated legacy copy, and the delegated sessions with
refresh-token rotation (section 6 of RFC 6749), each as a class over its table and as runs of interleaved events.
`BrokerCalls.dfy` composes the session store's methods into the two calls of the broker and relates them to the events;
`RefreshRotation.dfy` says exactly when a refresh sends the latest token, and `RefreshOutOfOrder.dfy` has a run in which
it does not.

**Durations and written steps.** `IsoDuration.dfy` parses ISO 8601 durations of days to seconds; `WrittenSteps.dfy`
compares the server's and the notebook client's selection of written time steps. `Common.dfy` and `Text.dfy` hold
shared datatypes and string functions.

Names stand for what the source calls them: a `Tree` stands for a loaded DataTree and is determined by dataset id, repo,
kind and snapshot; a `Row` maps a column to a string or NULL; a key hash is an opaque string.

Where the code and its documentation differ, the models follow the code:

- `docs/icechunk-access-control.md` says one notebook policy holds "about a dozen" restricted repos. For a 36-character
  bucket, a 16-character prefix and 18-character names the limit is exactly eight in deny mode and ten in allow mode
  (`RulesThatFitDeployed`).
- `sanitize_string` says that only letters, digits, `_`, `-` and `.` pass; its pattern also lets one newline through at
  the end. `Sanitary` accepts it.
- A prefix filter is documented as matching ids that start with `<prefix>-`. `LIKE` does that exactly when the prefix
  has no `_` (`LikeIsPrefixExactly`).
- A sanitized column may contain `-` and `.` or be a word that Trino reserves; the text built from it reads back as
  intended exactly when it is a plain identifier (`TextReadsBack`).
- Page links drop blank values, and those of the generic collections repeat the first value of a parameter while the
  query uses the last (`LinkKeepsFilters` gives the exact condition).
- The custom dataset routes look up `<id>_data` while the middleware checks `<id>`; the two mean the same repo exactly
  unless a repo named `<id>_data` is listed before any named `<id>` (`CustomLookupCoveredExactly`).
- The combinations table is meant to give what the live query gives. With the snapshot check off, which is the default,
  it does so exactly when it is empty or its combinations and those of the current rows cover each other: each value of
  the one occurs in the other beside the same values of all that a request can ask for
  (`UncheckedIsTransparentExactly`). Values that do not pass `sanitize_string`, such as the unit `m^3/s`, cannot be asked
  for; when all values can, the two are the same combinations (`UncheckedIsTransparentForAskable`).
- An eviction is meant to drop everything of a repo that is gone. A thread that resolved the repo before can open it and
  cache its data after the eviction (`LeftOverExactly`, `LateLoadIsLeftOver`).
- The rate limit is meant per caller and route. Subjects that contain an authentication type between colons share a
  counter with others (`OwnersAgreeExactly`, `ColonsShareCounters`).
- Refresh-token rotation keeps up with sequential exchanges only: overlapping ones can leave an outdated token in the
  table (`SendsLatestExactly`, `StaleTokensAreSent`).

## Model

| member | source | states |
|---|---|---|
| `DatasetIds.ResolveIsOwner` | xpublish-api/src/provider.py:343-349 | when no repo name ends in `_data`, the first match in any list order is the one repo an id can mean, with its kind |
| `DatasetIds.ResolveFindsServed` | xpublish-api/src/provider.py:343-349 | whatever the names, a resolved id is served by the repo it resolves to, and an id no repo serves is unknown |
| `DatasetIds.IdsOfOwners` | xpublish-api/src/provider.py:264-268 | evicting a set of repos drops an id exactly when its owner is among them |
| `ProviderThreadsSafety.LocksHeldStep` | xpublish-api/src/provider.py:258-266 | every step keeps each of the four kinds of lock held by exactly the one thread whose program counter is in its region |
| `ProviderThreadsRuns.EveryRunIsSafe` | xpublish-api/src/provider.py:255-416 | over every interleaving of any number of threads and any environment whose listings have no name ending in `_data` the joint invariant of locks, references, evictions, loads and opens holds, and entries and tips only grow |
| `ProviderThreadsRuns.MutualExclusion` | xpublish-api/src/provider.py:379-416 | in every reachable state two threads in the critical section of a dataset whose repo was never evicted are the same thread |
| `ProviderThreadsRuns.MutualExclusionBetweenEvictions` | xpublish-api/src/provider.py:264-268 | with evictions, exclusion still holds among the threads whose lock object is of the same generation |
| `ProviderThreadsRuns.NextAskerWaitsExactly` | xpublish-api/src/provider.py:379-395 | in every reachable state the next thread to ask for a dataset's lock waits for the thread inside exactly when the lock has not been popped since that thread got it |
| `ProviderThreadsRuns.EvictionLetsASecondThreadIn` | xpublish-api/src/provider.py:264-268 | once an eviction has popped the lock a thread is inside under, the next thread to ask for it gets in beside it in two steps |
| `ProviderThreadsEviction.EvictionBreaksExclusion` | xpublish-api/src/provider.py:255-268 | for every repo and every discovery TTL above zero a run from the initial state reaches that point, and on to two threads inside the critical section of one dataset |
| `ProviderThreadsRuns.TreesAreTheirSnapshots` | xpublish-api/src/provider.py:362-377 | every cached and every returned tree is the load of its own snapshot for its own id, and that snapshot was a tip of its repo, evictions included |
| `ProviderThreadsRuns.SnapshotsMoveForward` | xpublish-api/src/provider.py:410-416 | along every run in which its repo is not evicted a cached dataset stays cached and never goes back in the branch-tip history |
| `ProviderThreadsRuns.LoadedAtMostOnce` | xpublish-api/src/provider.py:396-416 | if the tips of a repo that is not evicted never repeat, no two loads of a dataset are of the same snapshot |
| `ProviderThreadsRuns.ReposAreOpenedOnce` | xpublish-api/src/provider.py:351-360 | a repo is opened at most once more than evictions dropped it, so at most once if it is never evicted |
| `ProviderThreadsListing.ListingsAreApart` | xpublish-api/src/provider.py:279-303 | over every interleaving any two listings, by whatever threads, successful or not, are at least one discovery TTL apart |
| `ProviderThreadsListing.FreshRecheckReturns` | xpublish-api/src/provider.py:286-290 | a thread that finds the configs fresh under the lock returns them and writes nothing |
| `ProviderThreadsRechecks.LocksExclude` | xpublish-api/src/provider.py:255-360 | in every reachable state at most one thread lists or evicts, at most one pops or opens repos, and at most one pops or makes dataset locks |
| `ProviderThreadsRechecks.LooksUpOnlyStale` | xpublish-api/src/provider.py:394-402 | in every reachable state a thread looks a tip up, for a repo that was never evicted, only with nothing cached or an entry stamped at least the TTL ago, also while lookups fail |
| `ProviderThreadsLeftovers.LeftOverExactly` | xpublish-api/src/provider.py:255-416 | over every interleaving, an opened repo or cached dataset that is not being evicted is unconfigured exactly when a thread opened or cached it while its repo was not configured, and since then nothing has popped it and no listing found the repo |
| `ProviderThreadsLeftovers.NoEvictionUnlocked` | xpublish-api/src/provider.py:287-327 | no item is being evicted while the discovery lock is free |
| `ProviderThreadsLeftovers.LateLoadIsLeftOver` | xpublish-api/src/provider.py:255-416 | for every repo a run from the initial state leaves it opened and its dataset cached with nothing configured and no eviction under way |
| `ProviderThreadsFreshness.ServedIsVouchedFor` | xpublish-api/src/provider.py:388-416 | over every interleaving a thread that serves a tree took a step that found it cached and stamped within the TTL, or looked up the tip it is of, or failed to look it up with the tree cached |
| `ProviderThreadsAlone.RunAloneIsCall` | xpublish-api/src/provider.py:275-416 | from every safe state, a thread that starts and ends without a step of another thread has the outcome, and leaves the fields and callbacks, of one call of the sequential provider, while clock and tips move and calls out and the callback fail |
| `ProviderThreadsProgress.OnlyLocksBlock` | xpublish-api/src/provider.py:275-416 | in a state with proper references a thread that is not done and waits for no held lock has a step, whether calls out succeed or fail |
| `ProviderThreadsProgress.NoDeadlock` | xpublish-api/src/provider.py:255-401 | in every safe state with an unfinished thread some unfinished thread can step: the locks are taken in rank order |
| `ProviderThreadsProgress.EveryStepIsProgress` | xpublish-api/src/provider.py:255-416 | every step of a thread lowers a lexicographic measure of all threads, so no schedule of finitely many threads runs forever |
| `ProviderThreadsProgress.CanFinish` | xpublish-api/src/provider.py:255-416 | from every safe state the threads alone can run until all are done, even if every call out fails |
| `Provider.IcechunkDatasetProvider.constructor` | xpublish-api/src/provider.py:217-244 | a new provider has no configs, repos, cache, locks or callbacks and has never listed |
| `Provider.IcechunkDatasetProvider.Evict` | xpublish-api/src/provider.py:255-268 | exactly the removed repos, both ids of each in the cache, and their locks are dropped |
| `Provider.IcechunkDatasetProvider.RefreshRepoConfigs` | xpublish-api/src/provider.py:275-329 | the method does what `Refresh` says: nothing while fresh, only the stamp on failure, else the new list, evictions and at most one callback; it raises exactly when that callback does |
| `Provider.IcechunkDatasetProvider.CfgForDatasetId` | xpublish-api/src/provider.py:343-349 | the loop returns what resolving the id in the refreshed list gives, unless refreshing raises |
| `Provider.IcechunkDatasetProvider.GetDatatreeForDataset` | xpublish-api/src/provider.py:383-416 | new state and outcome are those of `Get`, in every combination of failures |
| `Provider.EverythingIsRegistered` | xpublish-api/src/provider.py:255-329 | after any run of calls, every opened repo, cached dataset and dataset lock belongs to a configured repo |
| `Provider.CallbacksAreTheChanges` | xpublish-api/src/provider.py:291-327 | after any run, callbacks, names and first-discovery flag are determined by the listings attempted: a callback per change of the set, and one for the very first listing if it succeeds |
| `Provider.ChangesNeverRepeat` | xpublish-api/src/provider.py:305-327 | no callback repeats the one before it, and the last one is the current set |
| `Provider.ListLookUpLoad` | xpublish-api/src/provider.py:275-416 | with both TTLs 0, after any run, a call without failures returns the load of the current tip of a listed repo, and None for any other id |
| `Provider.CacheIsLastLoad` | xpublish-api/src/provider.py:402-416 | after any run a cached tree is the last one successfully loaded for its id, and its stamp is that of the last call that looked the tip up |
| `Provider.ServedIsFresh` | xpublish-api/src/provider.py:393-416 | every tree returned is the last one loaded, vouched for by a lookup in this call or one stamped less than the TTL before it, also while lookups fail |
| `AccessRules.PolicyForIsIsPermitted` | xpublish-api/src/credentials.py:96-100 | in deny mode a user may read exactly the repos not named, in allow mode exactly the ones named |
| `AccessRules.PermittedExactly` | xpublish-api/src/authz.py:65-82 | a logged-in user may read a listed item exactly if some role is in both lists, an unlisted one exactly if there is no default or some default role is held, and nobody else may read |
| `AccessRules.RolesOnlyAdd` | xpublish-api/src/authz.py:65-82 | another role never takes a permission away |
| `Wildcards.PrefixPatternIsExact` | xpublish-api/src/credentials.py:48-51 | a literal followed by the any-run wildcard means "starts with the literal" exactly when the literal has no wildcard |
| `SessionPolicy.BuildSessionPolicy` | xpublish-api/src/credentials.py:54-93 | the loop and branches build the statements of `Policy` in both modes |
| `SessionPolicy.PolicyMeansRulesForObjects` | xpublish-api/src/credentials.py:54-100 | IAM allows getting any key exactly when the rules permit the repo the key lies in (or the default, outside every repo) |
| `SessionPolicy.PolicyMeansRulesForListings` | xpublish-api/src/credentials.py:63-92 | IAM allows a listing exactly when it names a prefix under which the rules permit reading |
| `SessionPolicy.PolicyMeansRules` | xpublish-api/src/credentials.py:48-100 | for every user, repo and suffix, and every rules map of which each listed name begins with a wildcard-free segment that is listed too, getting and listing inside the repo is allowed if and only if `is_permitted` |
| `PolicyScope.PolicyMeansRulesExactly` | xpublish-api/src/credentials.py:48-121 | a policy that passes the size check means the rules in every repo exactly when each name it lists begins with a wildcard-free segment that it lists as well |
| `PolicyReader.PolicyReadsBack` | xpublish-api/src/credentials.py:54-116 | the JSON of every policy of either mode, read with its own key words and escapes, is the statements that were built |
| `PolicyReader.SentPolicyMeansRules` | xpublish-api/src/credentials.py:48-121 | the text that passes the size check, as it reads, lets a user get and list inside a repo if and only if `is_permitted`, and do nothing else |
| `SessionPolicy.PolicyIsReadOnly` | xpublish-api/src/credentials.py:54-93 | no policy allows any action but getting objects and listing |
| `SessionPolicy.PolicyStaysInItsBucket` | xpublish-api/src/credentials.py:54-93 | no policy allows anything in another bucket, whatever prefix and names are in it |
| `SessionPolicy.NamePatternIsExact` | xpublish-api/src/credentials.py:48-51 | a listed name's object pattern means the repo of that name exactly when the name has no wildcard |
| `PolicyJson.PolicyLength` | xpublish-api/src/credentials.py:54-93 | the compact JSON is as long as a constant of the mode plus, per listed repo, three times the name, three times the prefix, the bucket and 31 |
| `PolicyJson.AcceptedExactly` | xpublish-api/src/credentials.py:114-121 | the size check passes exactly the policies whose linear size is at most 2048 |
| `PolicyJson.CharWidths` | xpublish-api/src/credentials.py:116 | printable ASCII stands for itself in the JSON, but for quote and backslash, and other characters take 2, 6 or 12 |
| `PolicyJson.RulesThatFit` | xpublish-api/src/credentials.py:114-121 | up to a computed number of rules with names up to a given width always fits; one more of that width never does |
| `PolicyJson.RulesThatFitDeployed` | xpublish-api/src/credentials.py:114-121 | for a 36-character bucket, 16-character prefix and 18-character names that number is 8 in deny mode and 10 in allow mode |
| `RequestPaths.OnlyListedRoutes` | xpublish-api/src/authz.py:117-151 | a permitted path under `/api/datasets/` is a listed route of a non-empty slash-free id |
| `RequestPaths.DatasetPathsExactly` | xpublish-api/src/authz.py:109-151 | a path under a slash-free id is permitted exactly if the id is not empty, the rest begins with a listed route, and the user may read every repo the id can refer to; the bare list of datasets never is |
| `RequestPaths.VariablesPathsExactly` | xpublish-api/src/authz.py:131-135 | the same for the variables of a dataset |
| `RequestPaths.ArchivePathsExactly` | xpublish-api/src/authz.py:136-140 | a vector-tile path is permitted exactly if it is the archive of a layer the user may read |
| `RequestPaths.OtherPathsArePermitted` | xpublish-api/src/authz.py:117-151 | every other path is permitted |
| `RequestPaths.PluginLookupCovered` | xpublish-api/src/authz.py:109-151 | tiles and EDR: for every repo list in any order a permitted request reads a repo the user may read, ambiguous names included |
| `RequestPaths.CustomLookupCoveredExactly` | xpublish-api/src/main.py:229-260 | for the custom routes this holds, whatever the rules and the user, exactly when no repo named `<id>_data` is listed before any named `<id>` |
| `RequestPaths.MiddlewareCoversLookup` | xpublish-api/src/authz.py:109-151 | when no repo name ends in `_data` every permitted dataset path reads a repo the user may read |
| `RequestPaths.VariablesLookupCoveredExactly` | xpublish-api/src/main.py:219-222 | for the dataset-variables route it holds in exactly the same case |
| `RequestPaths.EnforcementsAgree` | xpublish-api/src/main.py:158-217 | for a configured repo the middleware, the filtered listings and the session policy give the same answer |
| `Filtering.BuildEqualityFilterConditions` | api/src/routes/filtering.py:43-54 | it fails exactly on an unsanitary column or value; otherwise a row passes all conditions exactly when it passes the filters, "null" as NULL |
| `Filtering.EqualityMeans` | api/src/routes/filtering.py:43-54 | a filter's condition holds on a row exactly when the column has its value, or NULL for the text "null" |
| `Filtering.SanitaryExactly` | api/src/database.py:30-44 | exactly the texts of one or more letters, digits, `_`, `-` and `.` pass, also with one newline after them |
| `Filtering.LikeIsPrefixExactly` | api/src/routes/crosswalks.py:27-34 | `LIKE '<prefix>-%'` means "starts with `<prefix>-`" exactly when the prefix has no `_` |
| `Filtering.InMeans` | api/src/routes/crosswalks.py:19-24 | the IN condition of a parameter asks for one of its values, and nothing when none is given |
| `Filtering.PrefixMeans` | api/src/routes/crosswalks.py:27-34 | the prefix condition asks for one of the prefixes, and nothing when none is given |
| `Filtering.MappingConditionsMean` | api/src/routes/crosswalks.py:137-142 | the four parameters of a mapping endpoint all apply, each with its values as alternatives |
| `Filtering.MappingFailsExactly` | api/src/routes/crosswalks.py:19-34 | a mapping endpoint fails exactly on a given value that is not sanitary, and names such a value |
| `Filtering.MappingConditionsBuildable` | api/src/routes/crosswalks.py:19-34 | its conditions hold only sanitized values and no empty list |
| `Filtering.StringInMeans` | api/src/routes/timeseries.py:22-33 | dropping empty values and writing a single one as an equality leaves the meaning "one of the non-empty values" |
| `Filtering.ItemConditions` | api/src/routes/metrics.py:136-165 | it fails exactly on an unsupported or unsanitary filter; otherwise rows pass exactly with the filters and the asked-for location, or an id starting `usgs-`, on the id column |
| `Filtering.IdColumnExactly` | api/src/routes/metrics.py:136-165 | the id column is `location_id` if that is a group-by column, else `primary_location_id` if that is one |
| `WhereText.PlainColumnExactly` | api/src/routes/crosswalks.py:19-47 | a plain identifier has letters, digits and underscores, no digit first, and is no word that Trino reserves, in any case |
| `WhereText.TextReadsBack` | api/src/routes/crosswalks.py:19-47 | the built WHERE text reads back as the conjunction of the conditions exactly when every column is a plain identifier: a word that does not begin with a digit and that Trino does not reserve |
| `WhereText.TextMeansConditions` | api/src/routes/filtering.py:43-54 | a row is selected by the text, read by SQL's rules, exactly when every condition holds on it |
| `Queryables.OrderedDistinct` | api/src/routes/queryables.py:529-546 | each value once, ascending, NULL last |
| `Queryables.BuildCacheConditions` | api/src/routes/queryables.py:509-527 | the loops build the conditions of the lookup in the source's order |
| `Queryables.ConditionsMean` | api/src/routes/queryables.py:509-527 | a combination satisfies all conditions exactly when it is the table's, at the current snapshot, has every key, and has the filters' values, NULL included |
| `Queryables.CachedAreLive` | api/src/routes/queryables.py:529-546 | whenever the lookup finds anything, its values are those of the live query |
| `Queryables.CacheIsTransparent` | api/src/routes/queryables.py:550-606 | with the snapshot check on, every request gets the same ordered list or error as without a combinations table, for every filter, stale snapshot, missing key and failure |
| `Queryables.FailsExactly` | api/src/routes/queryables.py:568-586 | a request fails exactly on an unsanitary name, an unknown property, a filter outside the filterable columns or an unsanitary filter, with these errors in this order, whatever the tables hold |
| `Queryables.AnswersAreTheRows` | api/src/routes/queryables.py:581-606 | outside the group-by columns, and for all with the check on, the answer is exactly the values some row has along with what the filters ask for, each once, ascending, NULL last |
| `UncheckedCombinations.UncheckedIsTransparentExactly` | api/src/routes/queryables.py:509-606 | without the check (the default), every request gets the same list or error as without a combinations table exactly when the collection has no combinations or they, at whatever snapshots, and those of its rows cover each other, whatever the values |
| `UncheckedCombinations.UncheckedIsTransparentForAskable` | api/src/routes/queryables.py:509-606 | when all values are sanitary and none is the text "null", that is exactly when there are no combinations or they are those of the rows |
| `UncheckedCombinations.AnswersAgreeExactly` | api/src/routes/queryables.py:529-546 | whatever texts requests may contain, two sets of combinations over the same keys give equal answers to every request the first answers at all exactly when the first is empty or they cover each other |
| `UncheckedCombinations.AnswersAgreeForAnyText` | api/src/routes/queryables.py:529-546 | if requests could contain any text and no value is the text "null", that is exactly when the first is empty or they are the same |
| `UncheckedCombinations.PartnersMaySwap` | api/src/routes/queryables.py:509-546 | values that no request can ask for may change partners: the two sets differ and no answer does |
| `UncheckedCombinations.StaleIsServed` | api/src/routes/queryables.py:520-527 | a combination that no row covers makes the endpoint serve, for some filters, a value that the live query does not find |
| `UncheckedCombinations.NewIsHidden` | api/src/routes/queryables.py:520-527 | a row that no combination covers, in a table that has some, is hidden from the answer to some request |
| `UncheckedCombinations.LeftOversAreServedUnchecked` | api/src/routes/queryables.py:520-527 | whatever the filters, without the check a value that only an outdated combination still has is served; with it, never |
| `ApiIdentities.EffectiveLimitIsStable` | api/src/auth.py:211-229 | the effective limit is a fixed point of clamping, exceeds neither request nor cap, and is absent only for an administrator who gives none |
| `ApiIdentities.CapByCaller` | api/src/auth.py:211-220 | the administrator role lifts the cap, the basic role has its own, and otherwise it depends on how the caller logged in |
| `ApiIdentities.EffectiveLimitIsLargest` | api/src/auth.py:223-229 | the effective limit is the largest number of rows that neither request nor cap forbids |
| `Paging.CreateRecordsResponse` | api/src/routes/utils.py:300-355 | the links are self, collection, `next` exactly on a full page, and `prev` exactly past the first |
| `Paging.QueryRecordsLinks` | api/src/routes/crosswalks.py:68-101 | an empty page has no link but self; others have `next` exactly when full, with every value of every parameter |
| `Paging.LinkKeepsFilters` | api/src/routes/utils.py:325-333 | a link has the parameters the request was answered for exactly when no value is blank, in the mapping collections, or each parameter's first value that is not blank is its last value, in the others |
| `Paging.OrderIsTotal` | api/src/routes/crosswalks.py:55-61 | all arrangements a database may return for an ORDER BY are equal exactly when the order columns are a key of the rows |
| `Paging.OrderColumnsAreKey` | api/src/routes/metrics.py:55-68 | when the group-by columns are a key, ordering by them without the geometry is total exactly when rows that agree on the rest agree on the geometry |
| `Paging.OrderColumnsExactly` | api/src/routes/metrics.py:55-68 | the order columns are all group-by columns but the geometry, in their order |
| `Paging.RowLeIsAscending` | api/src/routes/crosswalks.py:55-61 | ordered rows ascend in the first column on which they differ, NULL last |
| `Paging.WalkVisitsEverything` | api/src/routes/crosswalks.py:46-101 | following `next` serves every matching row from the offset on exactly once, in order, in exactly floor(N/L) + 1 requests |
| `Paging.UnlimitedIsOnePage` | api/src/routes/crosswalks.py:46-101 | without limit and cap one request serves everything and has no `next` |
| `Paging.ServedFromOffset` | api/src/routes/crosswalks.py:46-62 | a request is served the first rows, or those after its offset, at most as many as the effective limit |
| `Paging.PrevOfNext` | api/src/routes/utils.py:335-355 | `prev` of `next` is there, serves the same page and leads to the same `next` |
| `Paging.PrevLeadsBack` | api/src/routes/utils.py:343-355 | `prev` is there past the first row and leads back by one page, or to the start from within the first page |
| `Locations.PivotAndPage` | api/src/routes/locations.py:145-172 | the steps on the frame, with their failures, give `PivotedPage`, whose failures `FailsExactly` and whose rows `PivotThenPage` state |
| `Locations.DropDuplicatesIsLocations` | api/src/routes/locations.py:147-149 | de-duplicating the join leaves exactly the selected locations in id order, whatever order each one's attributes came in |
| `Locations.PivotThenPage` | api/src/routes/locations.py:129-172 | pivoting then slicing gives the same locations in the same order as OFFSET and LIMIT in SQL, for every offset and limit |
| `Locations.FeaturesCarryOwnAttributes` | api/src/routes/locations.py:146-172 | without repeated or clashing names the request succeeds, and a feature has its location's columns unchanged and a value for an attribute exactly when the attributes table gives that location that value |
| `Locations.CellsAreOwn` | api/src/routes/locations.py:152-163 | a pivoted cell holds a value exactly when the attributes table gives it to that location under that name |
| `Locations.DuplicatesFailExactly` | api/src/routes/locations.py:157-161 | the request fails on duplicates exactly when a selected location has two attribute rows of the same name |
| `Locations.FailsExactly` | api/src/routes/locations.py:145-163 | a request with attributes fails exactly on two attributes of one name for a selected location, else on an attribute named "id", else when two columns of the merged frame get the same name, and otherwise succeeds |
| `Locations.CleanNamesSucceed` | api/src/routes/locations.py:145-172 | without a repeated name and without an attribute named like a column it succeeds |
| `Locations.MergeKeepsLocationExactly` | api/src/routes/locations.py:163 | the merged row keeps every location column under its own name exactly when no attribute is named like one |
| `Locations.MergeSplitsClashes` | api/src/routes/locations.py:163 | a name both sides have is split: the location's value under `_x`, the attribute's under `_y` |
| `RateLimiter.InMemoryRateLimiter.Enforce` | api/src/rate_limit.py:38-56 | the new table, the verdict by the count before clean-up, and the bound on the table |
| `RateLimiter.InMemoryRateLimiter.Check` | api/src/rate_limit.py:24-31 | exempt callers change nothing and are accepted; others are counted under their own key and limit |
| `RateLimiter.InMemoryRateLimiter.CheckByKey` | api/src/rate_limit.py:33-36 | the call is counted under the prefix and the minute |
| `RateLimiter.TableIsSeen` | api/src/rate_limit.py:38-47 | over any run in time order the table agrees with never-cleaned counters for the current and later minutes |
| `RateLimiter.AcceptedExactly` | api/src/rate_limit.py:38-56 | a counted call is accepted exactly when it is at most the limit-th with its key, as with counters that are never cleaned |
| `RateLimiter.TableStaysSmall` | api/src/rate_limit.py:41-47 | after a counted call there are at most 50000 keys or only keys of the current minute |
| `RateLimiter.CleansOnlyLargeTables` | api/src/rate_limit.py:41-47 | a call only drops keys when there would be more than 50000, and none of the current minute |
| `RateLimiter.KeyTellsBucket` | api/src/rate_limit.py:14-15 | keys of different minutes or owners differ, so the prefix test of the clean-up means "this minute" |
| `RateLimiter.OwnersAgreeExactly` | api/src/rate_limit.py:14-15 | two callers share a counter exactly when route, authentication type and subject agree or the subject of one ends in the other's type and subject and the routes make up the difference, for all subjects and routes |
| `RateLimiter.ColonsShareCounters` | api/src/rate_limit.py:14-15 | a subject shares a counter with a shorter one, on some routes, exactly when it begins with an authentication type and a colon or has one between colons |
| `RateLimiter.PlainSubjectsAreApart` | api/src/rate_limit.py:14-15 | callers whose subjects embed no authentication type never hide one another, so each has its limit to itself |
| `RateLimiter.EveryCallerHasItsLimit` | api/src/rate_limit.py:14-56 | over any run in time order without callers that share a counter with this one, a call is accepted exactly when the caller is exempt or it is at most their limit-th on the route in the minute; other callers and clean-ups never matter |
| `RateLimiter.LimitsByCaller` | api/src/rate_limit.py:17-31 | administrators are always accepted, logged-in users and API keys up to the one limit, everybody else up to the other |
| `RateLimiter.PrefixHasItsLimit` | api/src/rate_limit.py:33-36 | a call under a key prefix of its own is accepted up to the limit it states |
| `ApiKeys.ApiKeyStore.CopyLegacyKeys` | api/src/api_key_store.py:65-80 | the loop of upserts commits all rows or, on a hash conflict, none |
| `ApiKeys.ApiKeyStore.CreateKey` | api/src/api_key_store.py:98-125 | it succeeds exactly when started with an unused id and hash, and then adds exactly the row with this owner, name, hash, scopes and time, which is accepted |
| `ApiKeys.ApiKeyStore.ValidateKey` | api/src/api_key_store.py:127-150 | a hash is accepted exactly when its row is there and not revoked, as the owner |
| `ApiKeys.ApiKeyStore.RevokeKey` | api/src/api_key_store.py:178-195 | it stamps, and reports, exactly the owner's key that was not yet revoked, after which its hash is refused; no other row changes |
| `ApiKeys.AcceptedAfterRevoking` | api/src/api_key_store.py:178-195 | revoking refuses exactly the owner's own unrevoked key and leaves every other hash as accepted as it was |
| `ApiKeys.AcceptedAfterCreating` | api/src/api_key_store.py:98-125 | creating accepts exactly the new hash besides, if id and hash are unused, under the owner and with the name and scopes given |
| `ApiKeys.CopyIsUnion` | api/src/api_key_store.py:65-80 | a copy gives the union of ids; a key of both sides is unchanged but revoked if and only if on either side, with the first recorded time |
| `ApiKeys.CopyIsIdempotent` | api/src/api_key_store.py:42-46 | copying the same rows again changes nothing, however much happened in between |
| `ApiKeys.CopyFailsExactly` | api/src/api_key_store.py:65-80 | a copy fails exactly when some row is new but its hash belongs to another key |
| `ApiKeys.RunKeeps` | api/src/api_key_store.py:107-195 | over every run of creations, revocations and copies by any workers with stale reads, hashes stay unique and no row is lost, rebound, unrevoked or re-dated |
| `ApiKeys.RevokedForGood` | api/src/api_key_store.py:142-195 | a key revoked at any point of a run is refused at every later point, with its first time kept |
| `ApiKeys.RevokingRefusesForGood` | api/src/api_key_store.py:178-195 | over every run, a key whose owner revokes it is refused at every later point, with the time of that event |
| `ApiKeys.CreatedIsOwned` | api/src/api_key_store.py:107-125 | a key created with an unused id and hash is accepted, and keeps its owner, name and scopes at every later point |
| `ApiKeys.CopiesSucceed` | api/src/api_key_store.py:65-80 | when new ids and hashes are fresh, no copy of a run is ever blocked |
| `ApiKeys.LegacyRevocationArrives` | api/src/api_key_store.py:47-80 | a key revoked in the old database is refused for good once one worker has fetched after that and copied that fetch, whatever other workers copy from however old reads |
| `ApiKeys.LegacyRevokingArrives` | api/src/api_key_store.py:47-80 | the same from the moment at which its owner revokes it through an old pod |
| `ApiKeys.LegacyCreationArrives` | api/src/api_key_store.py:47-80 | a key created through an old pod is there for good, under its owner, once one worker has fetched after that and copied that fetch, and is then accepted unless it was revoked |
| `Broker.DelegatedSessionStore.PutSession` | api/src/delegated_session_store.py:61-116 | an upsert of the whole row |
| `Broker.DelegatedSessionStore.GetSession` | api/src/delegated_session_store.py:118-160 | the row, or nothing |
| `Broker.DelegatedSessionStore.UpdateRefreshToken` | api/src/delegated_session_store.py:162-176 | only the refresh token of an existing row changes; a deleted session is not revived |
| `Broker.DelegatedSessionStore.DeleteSession` | api/src/delegated_session_store.py:178-189 | exactly that row is removed |
| `BrokerCalls.CreateDelegatedBrokerSession` | api/src/broker.py:172-221 | it succeeds exactly with a refresh token and a started store, and then stores the session until the clamped lifetime is over and signs the same expiry |
| `BrokerCalls.ExchangeTokenForPolaris` | api/src/broker.py:224-292 | table and outcome are those of an uninterrupted exchange, in every combination of failures |
| `BrokerCalls.ExchangedExactly` | api/src/broker.py:224-292 | exactly when such an exchange succeeds, with which access token, which of five failures it has otherwise, and what it leaves in the table |
| `BrokerCalls.CallIsRun` | api/src/broker.py:224-292 | the events of an exchange, taken without interruption, leave the table and the outcome of that call |
| `BrokerCalls.SuccessHasItsAccess` | api/src/broker.py:262-292 | over every interleaving a successful exchange hands out the access token granted to its own refresh |
| `Broker.ClampIsNearest` | api/src/broker.py:33-35 | the granted lifetime is the permitted one nearest to the request, and the maximum without one |
| `Broker.LifetimeIsLongEnough` | api/src/broker.py:186 | a session lives as long as configured, or five minutes if that is longer |
| `Broker.SuccessTracesToCreation` | api/src/broker.py:224-264 | over every interleaving a successful exchange was asked for by the user, session and realm of the one creation with its id, and passed its expiry check between that creation and max(TTL, 300) later |
| `Broker.LiveSessionIsServed` | api/src/broker.py:244-264 | until then the session is in the table and its owner's exchange passes every check, whatever other exchanges do |
| `Broker.SequentialSendsLatest` | api/src/broker.py:262-267 | when each session's exchanges follow one another every refresh sends the latest refresh token issued for it |
| `RefreshRotation.SendsLatestExactly` | api/src/broker.py:262-267 | over every interleaving in which no token is issued twice, a refresh sends the latest token of its session exactly when no exchange of it was granted one since this one read, and what it read had been stored by the last one granted one |
| `RefreshRotation.OverlappingSendsStale` | api/src/broker.py:262-267 | so an exchange during which another is granted a new token sends an outdated one |
| `RefreshOutOfOrder.StaleTokensAreSent` | api/src/broker.py:262-267 | for every session and three tokens there is a run from the empty table in which two exchanges overlap, one sends an outdated token, and, their tokens being stored out of order, so does a later exchange that overlaps with none |
| `IsoDuration.ParsesExactlyTheGrammar` | api/src/routes/timeseries.py:44-51 | the parser reads a text as some fields exactly when the text is those fields written down |
| `IsoDuration.AcceptedExactly` | api/src/routes/timeseries.py:36-60 | a duration is accepted with a total exactly when it follows the grammar and the total is not zero; a zero total is refused |
| `IsoDuration.PrintThenParse` | api/src/routes/timeseries.py:52-60 | printing days, hours, minutes and whole seconds and parsing gives their total back unless it is zero |
| `IsoDuration.PartsThenParse` | api/src/routes/timeseries.py:36-60 | any part may be left out and counts as zero, and a fraction of a second is cut off |
| `IsoDuration.DaysThenParse` | api/src/routes/timeseries.py:36-60 | days alone are accepted, and nothing at all is refused as a zero length |
| `IsoDuration.CoarserIsSubset` | api/src/routes/timeseries.py:63-70 | the rows aligned to one duration are among those aligned to another exactly when the first is a multiple of the second |
| `WrittenSteps.AnyInKeeps` | xpublish-api/src/provider.py:62-65 | reducing all axes but one, in any order, leaves true exactly the slots along which some cell is true |
| `WrittenSteps.ServerKeepsWrittenSlots` | xpublish-api/src/provider.py:56-66 | the server lists, in grid order, exactly the slots along which some step has status 0 or above, for a status of any rank and any order of reducing it |
| `WrittenSteps.NotebookKeepsWrittenSlots` | jupyterhub-docker/icechunk_access/icechunk_access.py:174-180 | the notebook keeps, of values and status alike, exactly the positions of those slots, in any order of reducing |
| `WrittenSteps.FullGridIsKept` | jupyterhub-docker/icechunk_access/icechunk_access.py:162-181 | with `written_only` off the notebook gives the full grid |
| `WrittenSteps.ServerAndNotebookAgree` | jupyterhub-docker/icechunk_access/icechunk_access.py:174-180 | so both keep the same values of the append axis, whatever order each reduces the other axes in |
| `WrittenSteps.NothingLeftToDrop` | jupyterhub-docker/icechunk_access/icechunk_access.py:174-180 | in the notebook's dataset every slot has a written step, so selecting again changes nothing |

## Left out

Assumptions the statements make:

- ProviderThreadsRuns.EveryRunIsSafe: no listing finds a repo name that ends in `_data`, because then an id can mean two repos and change its meaning with the order of a listing; the same holds for the other results about the interleaving machine and for `ListLookUpLoad`. Ambiguous names are covered by `ResolveFindsServed` and `CustomLookupCoveredExactly`.
- Bucket and prefix are free of wildcards for the policy results, and discovered names are single path segments.
- PolicyScope.PolicyMeansRulesExactly: a listed name with an IAM policy variable, `${...}`, is read as plain text, while IAM would replace it; the same holds for the other policy results.
- Configured row limits are positive, minutes do not go back, new session ids are fresh; fresh ids and hashes of API keys only where a lemma says so.
- The callback on a changed repo set takes no provider lock.
- For the results on unchecked combinations, the collection's combinations are keyed by the group-by columns, whose names are sanitary.
- For the exact results on rate-limit counters, authentication types are free of colons, as all three of them are.
- For the exact results on refresh tokens, the identity provider never issues a token twice.

What the models do not have:

- Names of log lines, the warning for an empty deployment and the sorting of the callback's list; callbacks are sets.
- In `Provider.dfy` the repeated checks under the locks, which find the same with one thread, and the list that `repo_names` returns.
- In the interleaving machine, the separate moments of opening a repo and storing it: both happen under the one lock that guards the field.
- Network, storage, STS, Trino, JWT signatures, HMAC and Fernet: environment steps, opaque strings, or nothing.
- The role's own policy, with which AWS intersects a session policy, and the length limit's packed-size companion.
- URL and JSON codecs: parameters are maps from names to lists of values, and JSON escapes are counted character by character.
- Columns of other types than string, and table-qualified columns in the WHERE text of the locations and timeseries endpoints.
- The 60-second schema cache, `unmatched`, `session_name`, parsing of the rules map, and GeoJSON links.
- The locations endpoint's id, prefix and bounding-box filters: its model starts from the selected locations.
- Digits outside ASCII, and rounding of a fractional or very long seconds numeral through a float: a fraction is cut off.
- `expires_in` and the JWT `exp` override in an exchange's response, and the direct token exchange.
- WrittenSteps.ServerAndNotebookAgree: a status coordinate without the append axis, which the server ignores and the notebook passes to `isel` as a scalar.
