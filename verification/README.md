# JobStream intake: verified model

JobStream's intake service promises that a job application is recorded once per (user, company,
title), however many clients submit it at the same time. Three stores take part in that promise: a
Redis key that a submit claims with a 30-second sentinel, a Postgres transaction that writes the
application and its outbox event, and the dedup key itself, computed from normalised text. This
project models those parts in Dafny, with the rate limiter in front of the service and the
load-testing scraper behind it, and proves what they guarantee together.

## How it is built

| layer | modules |
|---|---|
| text and keys | `Text`, `Collapse`, `BoardSuffix`, `Tracking`, `Canonical`, `DedupKey`, `JobIdentity`, `Uuid` |
| stores | `Repo` (two tables, one transaction), `Dedup` (the Redis keys) |
| the submit protocol | `Protocol` (transition system), `Provenance`, `Lock`, `Holder`, `AtMostOnce`, `Agreement`, `Refinement`, `Recovery`, `Limits` |
| the service | `Intake` (reads, users, jobs), `Server` (submit and batch RPC), `Counting` |
| around it | `RateLimit`, `Stats`, `Generator`, `Runner`, `EndToEnd` |

`Protocol` is the core. Any number of `submitOne` calls are in flight over one store, one pair of
tables and one clock. Each Redis command and each transaction is one step; between two steps of one
call the others may move, time may pass, entries may expire, and calls may die. A Redis command may
fail with or without having taken effect, and so may a commit. A step that is impossible in a state
changes nothing, so every sequence of steps is a run, and the theorems quantify over all of them.
The awkward behaviours are in the machine as well: a call whose claim errored goes on to insert
without one, and its `Set` or `Release` hits whatever is under the key.

What holds with no assumption (`Provenance`, `Recovery`, and the read-back in `Intake`) is kept apart
from what needs hypotheses on the run. Each theorem asks for what its proof needs:

* mutual exclusion (`Lock`): claims are answered, and no holder outlives its sentinel;
* the sentinel marks a holder (`Holder`): that, Sets and Releases take effect, and no holder crashes;
* at most once per TTL (`AtMostOnce`): mutual exclusion's two, Sets take effect, a transaction that
  reports failure has left no row, and no call dies between its insert and its `Set`;
* later submits agree for a full TTL (`Agreement`): at-most-once's, and answered re-checks;
* refinement of an atomic map (`Refinement`): claims are answered, a transaction that reports failure has
  left no row, and nothing expires; wherever calls crash, and whatever becomes of checks, Sets and
  Releases. That later submits agree with an id once returned asks for Sets and re-checks besides.

The five of at-most-once together are what the modules call a punctual run (`Limits.PunctualIsAllFive`).
`Limits` shows that none of them can be dropped: for every request that
validates, and each of the five, there is a run that keeps the other four and ends in a state that
contradicts the theorem.

Code that updates state in place is imperative here too: `Dedup.RedisDeduper`, `Repo.PostgresRepo`,
`Server.IntakeServer`, `RateLimit.UserRateLimiter`, `Stats.Stats`, `Generator.Generator`, and the loops of
`CollapseWhitespace`, `StripBoardSuffix`, `StripTrackingParams`, `BatchSubmitApplication`, `CountResults`,
`BuildBatch` and `Run`. Each such method is proved equal to a function, and the lemmas are about that
function. `Server.SubmitIsARun` ties the two views together: a submit as one method call is a run of
the transition system.

Limits found on the way, with the conditions under which they bite:

* At most once rests on the five hypotheses above, each of them necessary
  (`Limits.EachHypothesisNeeded`). The code itself says that it prefers availability when Redis is
  unreachable; a lost Set, a lost commit acknowledgement, a crash and a slow insert have the same effect.
* A `|` inside a company or title can make two jobs share a key: `DedupKey.BarConfusesJobs`. Among the
  submissions the service accepts, exactly when is in `JobIdentity.KeyIdentifiesJob`. A bar at the very
  end of a title counts too, since validation lets a scraped field of nothing but an em space pass
  (`JobIdentity.BlankTitleSharesKey`).
* Stripping a board suffix can empty a title, when all that precedes the suffix is white space that
  collapsing does not fold, such as an em space: `BoardSuffix.StripCanEmptyATitle`, and exactly when in
  `BoardSuffix.StripEmpties`.
* The suffix is cut by its own length in bytes, while it is found in the lower-cased title. A Kelvin
  sign in the title's ending takes more bytes than the letter it stands for, so part of the suffix
  stays, and two titles equal up to case can get different keys:
  `BoardSuffix.KelvinSignLeavesBar`, and exactly when in `BoardSuffix.StripUpToCase` and
  `DedupKey.SameWordsSameKey`.

Platform functions are values of `Canonical.Platform`: lower-casing (one map per code point), SHA-256
(64 hex characters, and no collision between the payloads at hand where a lemma says so), and net/url's
four functions. `JobIdentity.HypothesesAreMet` shows that for every submission there are a digest and a
lower-casing that meet the hypotheses. Times are integers in nanoseconds for the stores and reals for the rate limiter.

`dafny verify dfyconfig.toml` checks the project.

## Model

| member | source | states |
|---|---|---|
| Provenance.CacheProvenance | services/intake/internal/server/server.go:143-180 | In every reachable state, whatever failed, expired or crashed, a cached value is the sentinel or else the printed id of a committed row whose own fields give that very key, and never both. |
| Provenance.OutboxConservation | services/intake/internal/repo/postgres.go:69-117 | In every reachable state applications and outbox rows correspond one to one by aggregate id, and each event carries, on the topic jobs.submitted, exactly the record that its application's owner reads back. |
| Provenance.PayloadEncodes | services/intake/internal/server/server.go:182-200 | The event payload holds the record field for field. |
| Provenance.RowHasInsert | services/intake/internal/repo/postgres.go:85-94 | In every reachable state each row was written by an insert step of the run, from that call's event, with that step's creation time, and has not changed since. |
| Provenance.TablesOnlyGrow | services/intake/internal/repo/postgres.go:74-117 | Along any run the outbox only gains entries at its end and stored applications stay as they are. |
| Provenance.NextSound | services/intake/internal/server/server.go:130-180 | Every step of every call keeps the unconditional invariant: pairing of the tables, where cached values and returned ids come from, what each row was written from. |
| Protocol.OperationsRunOut | services/intake/internal/server/server.go:130-180 | Each store operation brings its own call nearer its end (at most four in all) and moves no other call. |
| AtMostOnce.AtMostOncePerTTL | services/intake/internal/server/server.go:143-179 | Timed at-most-once over every punctual run, failed checks and Releases included: of two rows with one key, the claim behind one was won at least the full TTL after the other was cached. |
| AtMostOnce.ShortRunRecordsOnce | services/intake/internal/dedup/dedup.go:13-20 | A punctual run shorter than the TTL has no two rows with one key. |
| AtMostOnce.NextExclusive | services/intake/internal/server/server.go:152-177 | One dependable step from a timely state keeps the lock and the cover of rows: every row has its writer at Set or a cache entry for the full TTL, and a holder's claim comes after every earlier row of its key. |
| AtMostOnce.FreeKey | services/intake/internal/dedup/dedup.go:90-93 | A key that SET NX finds free has no holder, and every row of it was cached at least a TTL ago. |
| Lock.HoldersExclude | services/intake/internal/server/server.go:149-158 | Mutual exclusion in every run whose claims are answered and whose holders are on time, whatever else fails: a holder's key carries its own live sentinel, and no other call holds the key. |
| Lock.NextLocked | services/intake/internal/server/server.go:149-177 | Every step with an answered claim keeps the lock: holders own their keys, one holder per key, nobody inserts without a claim. |
| Holder.SentinelMeansOneHolder | services/intake/internal/server/server.go:152-177 | If moreover Sets and Releases take effect and no holder crashes, a key carries the sentinel if and only if some call holds its claim; the holder is unique and the live sentinel is its own. Inserts may fail in any way. |
| Holder.QuietStoreHasNoSentinel | services/intake/internal/server/server.go:170-177 | With no call in flight no key is left pending. |
| Holder.LosersNeverWrite | services/intake/internal/server/server.go:152-158 | With answered claims and holders on time, a step that changes what is under a key is a claim won on a free key, which makes its call the holder, or the Set or Release of the call whose own sentinel is there; losers never write or delete. |
| Refinement.StepIsAtomic | services/intake/internal/server/server.go:130-180 | While nothing expires, claims are answered and a failed insert leaves no row, every step, crashes included, is one atomic step of a key-to-id map: a new key recorded by its own successful insert, or no change at all. |
| Refinement.ReturnsAreTheRegistrys | services/intake/internal/server/server.go:130-180 | In every such run the map lists exactly the rows, one per key, and whatever id a call returned, inserted or found, is the map's id for its key. |
| Refinement.LaterSubmitsAgree | services/intake/internal/server/server.go:143-158 | In such a run, when Sets take effect and re-checks are answered: once a submit of a key has returned an id, every submit of that key that starts later or is still asking returns that id if it returns; it neither inserts nor reports a pending duplicate. |
| Agreement.SubmitsAgreeForTTL | services/intake/internal/server/server.go:143-179 | In a punctual run, whatever else expires: from the moment an id is cached until the TTL has passed, every submit of its key that starts later or is still asking returns that id if it returns. |
| Refinement.NextRefines | services/intake/internal/server/server.go:130-180 | The refinement relation between the concurrent state and the map is kept by every step. |
| Recovery.EntryHasWriter | services/intake/internal/dedup/dedup.go:90-97 | In any run every Redis entry was written by a claim or a Set of the run, with the value and expiry of that step. |
| Recovery.ForgottenKeyIsFree | services/intake/internal/dedup/dedup.go:22-29 | Whoever crashed and whatever Release failed: a key with no claim written for 30 s and no id written for the TTL is absent, and the next acknowledged claim wins it. |
| Recovery.ExpiryBounds | services/intake/internal/dedup/dedup.go:25-29 | No entry with the sentinel text lasts more than 30 s from now, and no cached id more than the TTL. |
| Limits.EachHypothesisNeeded | services/intake/internal/server/server.go:143-180 | None of the five hypotheses of timed at-most-once can be dropped: for each there is, for every valid request, a run that keeps the other four, stores two rows of one key within 30 s, and for a longer TTL ends in the negation of the theorem's conclusion. |
| Limits.TwiceIsNotApart | services/intake/internal/server/server.go:143-180 | Two rows of one key in a run shorter than the TTL contradict timed at-most-once. |
| Limits.ClaimErrorDuplicates | services/intake/internal/server/server.go:149-152 | For every valid request: one failed claim alone lets two callers record the job at the same moment. |
| Limits.SlowInsertDuplicates | services/intake/internal/dedup/dedup.go:22-25 | An insert that outlives the sentinel, with nothing else wrong, lets a second caller record the job again. |
| Limits.StrangerReleaseDuplicates | services/intake/internal/server/server.go:170-174 | With one failed claim and nothing else wrong, a call without a claim whose insert fails deletes the holder's sentinel, and a third call records the job again. |
| Limits.LostCommitDuplicates | services/intake/internal/server/server.go:170-174 | A commit that is applied but reported failed, with nothing else wrong, frees the key over a stored row, and the next call records the job again. |
| Limits.CrashBeforeSetDuplicates | services/intake/internal/server/server.go:176-179 | A crash between insert and Set, with nothing else wrong, leaves a row behind a sentinel that runs out, and a later call records the job again. |
| Limits.LostSetDuplicates | services/intake/internal/server/server.go:176-179 | A Set that does not reach Redis, with nothing else wrong, does the same: its error is ignored and the id returned. |
| AtMostOnce.QuickRunIsTimely | services/intake/internal/dedup/dedup.go:22-25 | In a run over in less than 30 s no claim holder can outlive its sentinel. |
| Intake.ReturnedIdReadsBack | services/intake/internal/server/server.go:92-122 | After any run, an id returned by a submit, inserted or deduplicated, is found for the caller's trimmed user id, gives the record of a submission with the caller's own key and the creation time of its row, and is not found for any other user; the digest need only have fixed width. |
| Intake.EachJobOncePerTTL | services/intake/internal/server/server.go:124-180 | In terms of rows: in a punctual run a job (user, company and title up to case and outer white space) has two rows only if the run is as long as the TTL and one claim came a TTL after the other row was cached. |
| Intake.StatusOfRow | services/intake/internal/server/server.go:92-106 | The owner of a stored row gets its record by the printed id; any other non-empty user id gets not-found. |
| Intake.StatusExactly | services/intake/internal/server/server.go:92-106 | When each answer is given: a missing id, a missing user, text that is no UUID, not-found for every other miss, and the record exactly for the owner of a stored row. |
| Server.IntakeServer.SubmitOne | services/intake/internal/server/server.go:130-180 | The method's result and its effect on store, tables and clock are those of `Submit`, the function that the counting and run lemmas are about, for every fate of every operation. |
| Server.IntakeServer.InsertAndCache | services/intake/internal/server/server.go:160-179 | The insert and the Set or Release that ends the call have the effect and result of `SubmitInsert`, the last part of that function. |
| Server.HitTouchesNothing | services/intake/internal/server/server.go:143-147 | A committed id found at the first look is the answer, and neither store is touched, whatever else would befall the call. |
| Server.MissAnswers | services/intake/internal/server/server.go:149-179 | After a miss: if the claim is answered and lost, the id there by the second look or a pending duplicate, and no store touched; otherwise the printed new id, or the insert's own error. |
| Server.InvalidAnswers | services/intake/internal/server/server.go:131-141 | A submit that does not validate is told the rule it broke and touches nothing. |
| Server.SubmitIsARun | services/intake/internal/server/server.go:130-180 | From any state, a submit is a run of the protocol that adds one call, leaves it returned with the submit's result, changes the world as the submit does and touches no other call. |
| Server.IntakeServer.BatchSubmitApplication | services/intake/internal/server/server.go:61-89 | The loop over the result array equals the left fold of submits, with the two size errors; one result per index. |
| Server.BatchSizes | services/intake/internal/server/server.go:62-69 | A batch is served if and only if it has 1 to 500 items, with one result per item; otherwise nothing happens, and the error names an empty batch or the batch's own size. |
| Server.ItemsReport | services/intake/internal/server/server.go:79-86 | Each item before cancellation reports its own submit: the id it returned, or its error. |
| Server.CancelledSuffix | services/intake/internal/server/server.go:72-78 | From cancellation on, all results are context errors, earlier results stay, and the world no longer changes. |
| Counting.QuietFoldCounts | services/intake/internal/server/server.go:61-89 | A sequence of submits whose own keys nobody else works on, none pending or expiring before its end, adds exactly one row per distinct new key of its valid items, gives each valid item the id under its key and each invalid item an error, and touches no other key; other keys may be pending or expire. |
| Counting.QuietBatch | services/intake/internal/server/server.go:61-89 | One batch under the same conditions: success, equal ids for equal keys, errors exactly for invalid items, rows added equal to the distinct keys not already cached. |
| Counting.SubmitOneCounts | services/intake/internal/server/server.go:143-179 | One clean submit adds a row if and only if its key is not live, then caches the new id under it and returns what is cached; no other key is touched, whatever the store holds under them. |
| Counting.FoldFramed | services/intake/internal/server/server.go:61-89 | A sequence of submits does in a store restricted to its own keys what it does in the whole store, and leaves every other key alone. |
| Counting.BatchIsARun | services/intake/internal/server/server.go:61-89 | A batch, whatever befalls its items, is a run of the protocol, and each id it hands out is the return of a call in that run. |
| Counting.BatchIdsReadBack | services/intake/internal/server/server.go:61-122 | From any reachable state and under any faults, every id in a batch reply is found for that item's trimmed user id. |
| Counting.IntakeIsTimeless | services/intake/internal/transform/transform.go:98-105 | Whether a request validates, and its key, do not depend on the clock that fills in a missing applied_at. |
| Repo.PostgresRepo.InsertWithOutbox | services/intake/internal/repo/postgres.go:74-117 | The statements of the transaction, with an error possible at each, have the effect and result of one atomic step on both tables. |
| Repo.InsertTxKeepsPaired | services/intake/internal/repo/repo.go:48-53 | Both rows or neither, whatever the error: the one-to-one correspondence survives, success adds exactly the new row, and an error other than a lost commit acknowledgement changes nothing. |
| Repo.InsertOutcome | services/intake/internal/repo/postgres.go:74-117 | Success if and only if no statement fails and the id is new; otherwise the error of the first statement that fails, and a row only after a lost commit acknowledgement. |
| Repo.InsertReadsBack | services/intake/internal/repo/postgres.go:119-151 | A successful insert returns what was asked for field by field, created_at included, and its id reads back that record for its owner and not-found for anyone else. |
| Repo.RecordIsRow | services/intake/internal/repo/postgres.go:137-151 | What the owner reads is the stored row field by field. |
| Repo.ReadFindsExactly | services/intake/internal/repo/postgres.go:119-135 | The read finds exactly the owner's stored rows; text that is no UUID is its own error, every other miss is not-found. |
| Repo.Int16Lossless | services/intake/internal/repo/postgres.go:90-91 | An int32 survives the int16 column if and only if it fits in 16 bits; otherwise it wraps modulo 2^16. |
| Uuid.ParsePrint | services/intake/internal/repo/postgres.go:153-157 | Parsing the printed form of a UUID gives it back, and the printed form is the canonical text of section 4 of RFC 9562. |
| Uuid.PrintParse | services/intake/internal/repo/postgres.go:119-123 | Every canonical text parses, and printing the result gives the text back. |
| Uuid.UuidToStringInjective | services/intake/internal/repo/postgres.go:153-157 | Two UUIDs never print alike. |
| Uuid.DecodeEncode | services/intake/internal/repo/postgres.go:155-155 | Hex decoding inverts hex encoding on all byte strings. |
| Uuid.HexText | services/intake/internal/repo/postgres.go:155-155 | Each byte is printed as two lower-case digits, the high half first. |
| Uuid.DecodeIgnoresCase | services/intake/internal/repo/postgres.go:119-123 | Upper-case digits decode as lower-case ones do. |
| Uuid.ParseForms | services/intake/internal/repo/postgres.go:119-123 | The 32 digits alone parse too, whatever stands for the hyphens is not looked at, and no other length parses. |
| Uuid.EncodeDecode | services/intake/internal/repo/postgres.go:119-123 | Every even-length string of lower-case hex digits decodes, and encodes back to itself. |
| Dedup.RedisDeduper.Check | services/intake/internal/dedup/dedup.go:75-88 | A live id is a hit; an absent, expired or pending key is a miss; a Redis error is an error. |
| Dedup.RedisDeduper.Claim | services/intake/internal/dedup/dedup.go:90-93 | SET NX of the sentinel with its 30 s expiry: won if and only if the key was free, and a lost claim leaves the store alone. |
| Dedup.RedisDeduper.SetId | services/intake/internal/dedup/dedup.go:95-97 | Overwrites the key, whatever it held, with the id and the full TTL. |
| Dedup.RedisDeduper.Release | services/intake/internal/dedup/dedup.go:99-101 | Deletes the key, whoever holds it. |
| Dedup.IdIsNotSentinel | services/intake/internal/dedup/dedup.go:27-29 | No printed id can be mistaken for the pending sentinel. |
| DedupKey.KeyDeterminesUser | services/intake/internal/dedup/dedup.go:103-115 | Equal keys if and only if equal users and equal digests, for any user ids, colons included. |
| DedupKey.KeyText | services/intake/internal/dedup/dedup.go:106-115 | The key is the prefix dedup:v1:, the user, a colon, and the digest in its last 64 characters. |
| DedupKey.KeyMeaning | services/intake/internal/dedup/dedup.go:103-119 | For companies free of the bar and payloads that do not collide, keys are equal if and only if user, normalised company and normalised title are. |
| JobIdentity.KeyIdentifiesJob | services/intake/internal/dedup/dedup.go:103-119 | For every submission whose payload no other payload collides with: its key identifies its job among all accepted submissions of the user if and only if its payload cannot be split at another bar into normal forms that an accepted submission can have. |
| JobIdentity.AcceptedIsExpressible | services/intake/internal/canonical/event.go:48-60 | The normal forms of an accepted submission: company and title both non-empty, or one empty and the other collapsed. |
| JobIdentity.ExpressibleIsAccepted | services/intake/internal/transform/transform.go:47-94 | Conversely every such pair of normal forms is that of an accepted submission. |
| JobIdentity.BlankTitleSharesKey | services/intake/internal/canonical/event.go:48-60 | A submission whose title ends in a bar and a scraped one with that bar in its company and an em space for a title are both accepted and share a key. |
| DedupKey.KeyIdentifiesFields | services/intake/internal/dedup/dedup.go:103-119 | The key as a function of any fields: it determines their normal forms if and only if the payload has no second bar with trimmed text on both sides. |
| DedupKey.BarConfusesJobs | services/intake/internal/dedup/dedup.go:111-112 | Company "a bar b" with title c, and company a with title "b bar c", where bar is the separator character, are different jobs with one key. |
| DedupKey.SameWordsSameKey | services/intake/internal/transform/transform.go:67-94 | Two Chrome or scraper requests of one user with the same words up to case in company and title get one key if their titles are stripped alike (two scraped ones always; two from Chrome when their cuts leave equally much; one of each when there is no suffix), and, unless their payloads collide, only if. |
| DedupKey.DashboardKey | services/intake/internal/transform/transform.go:47-60 | The dashboard's trimming never changes the key: it is that of the fields as sent. |
| Canonical.PreparedEvent | services/intake/internal/canonical/event.go:44-83 | What an event that passes dispatch, transformation and validation guarantees: trimmed non-empty user, non-empty title and company, an absolute http(s) URL (the request's own, trimmed, unless it came from Chrome), the request's applied_at or the current time, and the request's own source, one of the three known. |
| Canonical.AcceptedExactly | services/intake/internal/canonical/event.go:48-83 | A request is accepted if and only if its source is 1, 2 or 3 and, after transformation, user, title, company and URL are not empty and the URL parses, has scheme http or https in any case, and has a host. |
| Canonical.ChromeUrl | services/intake/internal/transform/transform.go:67-77 | A prepared Chrome event's URL parses, its query is that of the trimmed request URL without the tracking keys, and a URL that has none is only trimmed. |
| Canonical.RuleOrder | services/intake/internal/canonical/event.go:48-63 | User, title, company, URL, URL form: each is reported exactly when it is broken and the ones before it hold. |
| Canonical.ValidateNamesFirst | services/intake/internal/canonical/event.go:44-83 | An event passes if and only if it breaks no rule, and otherwise the error names the first broken rule in the documented order. |
| Canonical.RejectionsSeen | services/intake/internal/transform/transform.go:31-45 | Unsupported source is reported if and only if the source is none of the three; the validator's source and schema rules are never what a caller sees. |
| Canonical.CollapseUpToCase | services/intake/internal/transform/transform.go:122-139 | Strings with the same words up to case collapse to strings equal up to case. |
| Text.TrimsExactly | services/intake/internal/transform/transform.go:52-55 | The characters that trimming removes, named one by one: Go's white space. |
| Collapse.CollapseWhitespace | services/intake/internal/transform/transform.go:107-139 | Replacer, loop with the previous-space flag and final trim equal the specification: the words joined by single spaces. |
| Collapse.WordsSplit | services/intake/internal/transform/transform.go:119-139 | A space, tab, newline, carriage return or NBSP separates: the words of the whole are those of the left and then those of the right. |
| Collapse.SeparatorsNamed | services/intake/internal/transform/transform.go:107-134 | Each of space, U+0009, U+000A, U+000D and U+00A0 separates words. |
| Collapse.VanishingNamed | services/intake/internal/transform/transform.go:107-117 | Each of U+200B, U+200C, U+200D and U+FEFF makes no difference anywhere. |
| Collapse.OthersKept | services/intake/internal/transform/transform.go:119-139 | Every character but those nine is kept as part of a word. |
| Collapse.NothingFoldableLeft | services/intake/internal/transform/transform.go:107-139 | The result holds none of those nine but the plain space. |
| Collapse.WordsOfWord | services/intake/internal/transform/transform.go:119-139 | A string without breaks and zero-width code points is one word. |
| Collapse.ScanDropsZeroWidth | services/intake/internal/transform/transform.go:107-117 | A zero-width code point or byte-order mark anywhere makes no difference. |
| Collapse.CollapseSpecNormal | services/intake/internal/transform/transform.go:119-139 | The result has no leading, trailing or doubled space and nothing invisible, keeps the words, and collapsing again changes nothing. |
| Collapse.CollapseSpecFixes | services/intake/internal/transform/transform.go:119-139 | A string is left alone if and only if it is already in that normal form. |
| Collapse.WordsOfJoin | services/intake/internal/transform/transform.go:119-139 | Splitting a joined list of words gives the list back. |
| BoardSuffix.StripBoardSuffix | services/intake/internal/transform/transform.go:157-166 | The loop over the table equals the first-match specification. |
| BoardSuffix.OneSuffixMatches | services/intake/internal/transform/transform.go:141-151 | No title ends in two of the table's suffixes, whatever its case. |
| BoardSuffix.CutLeavesExcess | services/intake/internal/transform/transform.go:157-163 | The byte-length cut of a matching suffix always falls between code points and leaves one character of the suffix for each byte that the title's ending takes beyond one per letter, at most four. |
| BoardSuffix.StripMeaning | services/intake/internal/transform/transform.go:153-166 | If a suffix matches, that one and no other is cut, up to those leftover characters, and the rest trimmed. |
| BoardSuffix.StripOfSuffixFree | services/intake/internal/transform/transform.go:153-166 | A title that ends in no table suffix is returned as it is. |
| BoardSuffix.NamedSuffixesGo | services/intake/internal/transform/transform.go:141-166 | Each of the eight suffixes, by name, is removed from the title it is appended to. |
| BoardSuffix.OthersStay | services/intake/internal/transform/transform.go:141-166 | A title that ends in none of the eight named suffixes is returned as it is. |
| BoardSuffix.StripIgnoresOrder | services/intake/internal/transform/transform.go:141-166 | Any reordering of the table gives the same result on every title. |
| BoardSuffix.StripUpToCase | services/intake/internal/transform/transform.go:153-166 | Titles equal up to case stay equal up to case if and only if their cuts leave equally much of the suffix to see. |
| BoardSuffix.StripChangesText | services/intake/internal/transform/transform.go:153-166 | Stripping leaves a title's text as it was, outer white space aside, if and only if no suffix matches. |
| BoardSuffix.KelvinSignLeavesBar | services/intake/internal/transform/transform.go:157-163 | A concrete pair of titles, equal up to case, whose stripped forms differ: the one spelled with a Kelvin sign keeps the separator. |
| BoardSuffix.StripKeepsCollapsed | services/intake/internal/transform/transform.go:67-71 | Stripping after collapsing keeps the collapsed normal form. |
| BoardSuffix.StripIsPrefix | services/intake/internal/transform/transform.go:67-71 | When only plain spaces are left as white space, the result is a prefix of the collapsed title and a title never becomes empty. |
| BoardSuffix.StripEmpties | services/intake/internal/transform/transform.go:157-166 | A matching title is stripped to nothing if and only if all before the suffix is white space and the cut leaves nothing to see of the suffix. |
| BoardSuffix.StripCanEmptyATitle | services/intake/internal/transform/transform.go:157-166 | An em space before the Indeed suffix survives collapsing, and the whole title goes. |
| Tracking.StripTrackingParams | services/intake/internal/transform/transform.go:184-205 | The loop over the query map, in every iteration order, equals the specification. |
| Tracking.CleanedUrl | services/intake/internal/transform/transform.go:184-205 | The cleaned URL parses, and its query lacks exactly the tracking keys, every other key keeping its value list in order; nothing else changes if printing keeps the rest of that URL. |
| Tracking.TrackingKeysNamed | services/intake/internal/transform/transform.go:168-204 | Each of the eleven keys, by name, is gone from the query, and every other key is as it was. |
| Tracking.UntouchedExactly | services/intake/internal/transform/transform.go:187-202 | The input comes back unchanged if and only if it does not parse or carries no tracking key. |
| Tracking.StripTrackingIdempotent | services/intake/internal/transform/transform.go:184-205 | Cleaning twice changes nothing more. |
| RateLimit.UserRateLimiter.Allow | services/intake/internal/ratelimit/ratelimit.go:54-57 | One token is taken from the caller's bucket if there is one; every other bucket is untouched. |
| RateLimit.UserRateLimiter.LimiterFor | services/intake/internal/ratelimit/ratelimit.go:59-69 | A user's bucket is created full on first use and never replaced. |
| RateLimit.UsersAreIndependent | services/intake/internal/ratelimit/ratelimit.go:32-41 | In any interleaving a user is allowed exactly what a bucket fed only that user's calls allows. |
| RateLimit.RateBound | services/intake/internal/ratelimit/ratelimit.go:43-69 | With non-decreasing clock readings the calls allowed to one user in any window of length T number at most burst + rps * T. |
| RateLimit.AllowedExactlyWithinWindows | services/intake/internal/ratelimit/ratelimit.go:54-57 | A request is allowed if and only if, counting it, no window from an allowed request to now exceeds burst + rps times its length. |
| RateLimit.LevelIsTightestWindow | services/intake/internal/ratelimit/ratelimit.go:43-57 | The bucket's content is the tightest such window bound. |
| RateLimit.ClockBackwards | services/intake/internal/ratelimit/ratelimit.go:54-57 | A clock reading before the bucket's last one neither refills nor drains it. |
| Stats.Stats.RecordRPCError | sources/scraper/internal/stats/stats.go:27-35 | A failed RPC counts all its applications as attempted and failed. |
| Stats.Stats.RecordRPCSuccess | sources/scraper/internal/stats/stats.go:37-45 | An answered RPC counts its results as attempted, ok and failed. |
| Stats.TallyConserves | sources/scraper/internal/stats/stats.go:27-45 | Whatever is recorded, attempted = ok + failed for RPCs and applications, and the attempts are the recorded sizes. |
| Stats.FailuresCounted | sources/scraper/internal/stats/stats.go:27-45 | A failed RPC counts as one failed RPC with all its applications failed; successes come from answered RPCs only, and their failed results are the other failures. |
| Generator.Generator.Next | sources/scraper/internal/generator/generator.go:47-65 | Either a pooled pair with a fresh URL or a new application, which joins the pool. |
| Generator.NextRepeats | sources/scraper/internal/generator/generator.go:50-57 | Once there is something to repeat, a roll below the fraction repeats a pooled pair with a fresh URL and leaves the pool alone. |
| Generator.NextIsFresh | sources/scraper/internal/generator/generator.go:58-64 | Any other roll, and always the first, makes a new application of what is drawn and adds it to the pool. |
| Generator.ClampNearest | sources/scraper/internal/generator/generator.go:32-40 | The fraction is the nearest one between 0 and 1. |
| Generator.EmittedFromPool | sources/scraper/internal/generator/generator.go:47-65 | Every emitted (company, title) is in the pool, the pool is no larger than the output, and without duplicates it is the output. |
| Runner.Run | sources/scraper/internal/runner/runner.go:41-91 | The four configuration errors in order; otherwise the sent batches are the generator's first applications in order, all full but the last, fed one after another to the submitter; the statistics count exactly the replies; the run drains its total unless the limiter's wait fails, and then returns the context's own error, which may be nil. |
| Runner.ConfigRules | sources/scraper/internal/runner/runner.go:42-53 | Which configurations run, and which complaint comes first. |
| Runner.RequestFields | sources/scraper/internal/runner/runner.go:93-107 | Request number i is the generator's application number i field by field, for the run's user, from the scraper, at that moment. |
| Runner.BuildBatch | sources/scraper/internal/runner/runner.go:93-107 | A batch is the next n generated applications, in order, with their request fields. |
| Runner.CountResults | sources/scraper/internal/runner/runner.go:109-118 | Successes are the results with a non-empty id; the two counts add up to the results. |
| Runner.SuccessesCounted | sources/scraper/internal/runner/runner.go:109-118 | The successes number exactly the indices with a non-empty application id. |
| Runner.FailedRepliesCounted | sources/scraper/internal/runner/runner.go:79-85 | The failed RPCs of a run's statistics number exactly the replies that failed, and none of their applications counts as ok. |
| Runner.AllSucceed | sources/scraper/internal/runner/runner.go:109-118 | The count reaches the number of results if and only if every result succeeded. |
| Runner.RunConserves | sources/scraper/internal/runner/runner.go:67-88 | At every loop head, attempted + remaining = total and attempted = ok + failed when replies have one result per item; a drained run has made ceil(total / batch size) RPCs. |
| EndToEnd.ServingIsOneFold | services/intake/internal/server/server.go:61-89 | RPC after RPC of at most 500 items, the server does what one long sequence of submits would. |
| EndToEnd.FoldAppend | services/intake/internal/server/server.go:61-89 | Submitting one batch and then another is submitting their concatenation. |
| EndToEnd.KeysWithinPool | sources/scraper/internal/generator/generator.go:20-26 | A run has at most as many distinct dedup keys as the generator has pooled pairs. |
| EndToEnd.ScraperRunCounts | sources/scraper/internal/runner/runner.go:67-90 | A drained scraper run shorter than the TTL, with none of its own keys live beforehand and nobody else working on them, creates exactly as many rows as it sends distinct keys, at most the pool's length, and counts every application as a success; other users' entries may be there and may expire. |

## Left out

- gRPC, HTTP gateway, CORS, logging, panic recovery, configuration, authentication, the Chrome extension and the dashboard: wiring or single-branch mappings. This includes the mapping of submit errors to gRPC codes and messages.
- The status workflow after `applied` and the Kafka relay: named in comments only, with no code.
- The no-op deduper, and a TTL of zero: the TTL is taken as a positive duration, since Redis reads zero as no expiry.
- Redis and Postgres internals: each command and each transaction is one atomic step. A command that takes effect after its caller has given up on it, and the client library's own retry of a SET NX (which may report its own claim as lost), are not modelled.
- Mutexes and goroutines of one process: calls interleave at store operations, the limiter's map is updated under its lock.
- Postgres storage limits: microsecond rounding of timestamps, NUL characters and invalid UTF-8, which the database rejects; such a rejection is an insert error in the model.
- Primary keys: the database's generated id is a step parameter; an id already present is an insert error.
- Invalid UTF-8: strings are sequences of code points, with their widths in bytes where the code counts bytes; on valid UTF-8 the byte-wise suffix test is the code-point one. Input that is not valid UTF-8, which Go's `range` turns into U+FFFD, is not represented.
- Context-dependent lower-casing: lower-casing is one map per code point, as `unicode.ToLower` is.
- net/url, SHA-256, protobuf, gofakeit and Unicode tables: function values, with the laws used stated as hypotheses (`Tracking.QuerySurvives`, `DedupKey.FixedWidth`, `DedupKey.Distinguishes`, `DedupKey.CollisionFree`, `Text.LowerCasing`, `Text.Idempotent`, `JobIdentity.MakesNoneInvisible`). Protobuf encoding is represented by what it encodes.
- Error texts: a rejection or an insert error is a constructor, not its message; whether a message is empty or repeats is not stated.
- x/time/rate: reals instead of floating point and whole nanoseconds, and no infinite limit. The runner's own limiter is reduced to the RPC at which its wait fails.
- Stats throughput and printing, and the start time: derived output only.
- EndToEnd.ScraperRunCounts: asks that every item validates and that no other client submits during the run, because rows and successes of the run are counted against nothing else.
