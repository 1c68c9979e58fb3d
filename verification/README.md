# Torium: verified models of the faucet, the SDK codecs and the recovery tools

This project models the parts of Torium whose correctness does not show in any single function, and proves what they promise over all inputs and all runs. Every `.dfy` file is one component, with `Basics` for what they share; `dafny verify dfyconfig.toml` checks them together.

**Public faucet, persistent state.** `FaucetEvents` is the journal as data: what one event does (`Apply`), what a restart rebuilds (`Replay`), what the accept decision reads (`Decide`). `FaucetBooks`, `FaucetPending`, `FaucetHistory` and `ScopedKeys` prove the laws of that fold. `FaucetJournal` and `FaucetStore` are the classes that change state, proved against it.

**Public faucet, submission protocol.** `WorkerProtocol` is a state machine: HTTP and admin handlers, the worker goroutine at each of its program points, crashes and restarts, and the chain, in any interleaving. `WorkerInvariants` holds in every run without any hypothesis. `WorkerSafety`, `WorkerBudget` and `WorkerHistory` prove at-most-once funding, the end-to-end budget and signer fencing under hypotheses that are explicit predicates on a run. `WorkerNecessity` gives, for each hypothesis, a run from a fresh deployment that keeps all the others and breaks the conclusion, and for the steps the hypotheses exclude the exact condition under which they do harm.

**Limiters.** `RateLimiter` is the two-level token bucket of the public faucet, over reals. `AddressWindow` is the local faucet's sliding window, compacted in place in a backing array.

**SDK.** `Bech32Bits`, `Bech32Checksum` and `Bech32Account` are the account text codec. `RewardTree` is the Merkle-sum claim check. `RetryEngine` is the action runner.

**Recovery.** `RecoveryPaths` and `RecoveryArchive` are archive acceptance; `RecoveryStaging` is what the file system makes of the entries, with conflicts and permissions; `RecoveryActivation` is the swap of node homes with rollback.

Conventions: times are nanoseconds since Go's zero time; a UTC day is a day number; a transaction stands for its own hash; hash functions, clocks, random draws, abort signals, the JSON codec and failures of file operations are parameters. Amounts are unbounded, as `big.Int` is.

## What the proofs found

Each of these has a lemma with a concrete input or an exact condition.

- The comment that a retry can never double-fund needs three conditions: both chain reads of one settlement see the same, possibly outdated, chain, no transaction whose stored hash was replaced ever lands, and the key does not rotate between a replacement's check and its signature.
- The released budget can be spent twice if restart recovery drops a request that already has a transaction, or if an error text received after broadcasting contains `terminal:`.
- Two overlapping rotations can leave the active key fenced; a swap is safe exactly when the two checks still hold at it, and they do if no other rotation comes between.
- A failed sync leaves a line in the journal that memory does not know of; the next write makes the file unreadable. A write that loses only its newline survives the next start, and the first successful append after it destroys the file. A journal line of 1 MiB or more is written but cannot be read back. A transition for an unknown request is journaled before it is refused, and every later start fails.
- An acceptance at Go's zero instant starts no cooldown. A saturated retry hint can be too short, exactly when the cooldown ends more than the longest expressible wait after the reading.
- The rate bound holds for consecutive calls; if the clock steps back, calls read in one interval need not be consecutive and can exceed it.
- The local faucet reads the clock before taking its lock; readings served out of order can exceed the window quota.
- A reward leaf beside a zero-sum subtree cannot be claimed.
- A directory whose name ends in two dots or contains a backslash is archived but refused on reading.
- Inspection accepts an archive in which a file stands at or above the place of another entry; such an archive can never be staged.
- A folder that holds something but has no owner write or search permission is archived and accepted, and an unprivileged process cannot restore it.
- File modes survive a restore exactly if the process mask takes none of their bits; directory modes always do.
- A restore whose undo step fails deletes the preserved original with the backup.

## Model

| member | source | states |
|---|---|---|
| WorkerInvariants.RunKeepsBase | chain/app/publicfaucet/worker.go:311-590 | In every state of every run, whatever the network, operator and crashes do: memory is the replay of the journal, the books balance, every pending request has exactly one owner, every broadcast transaction was journaled for its request, and each account nonce has one receipt. |
| WorkerInvariants.StepKeepsBase | chain/app/publicfaucet/worker.go:311-590 | Every step of every actor keeps all of those invariants. |
| WorkerInvariants.PastChainsAreViews | chain/app/publicfaucet/worker.go:422-450 | The views a lagging read may be answered from include every state the chain was in before. |
| WorkerSafety.AtMostOnceFunding | chain/app/publicfaucet/worker.go:311-590 | In every fair run no two different transactions of one request both move value. |
| WorkerSafety.SeenGoneIsGone | chain/app/publicfaucet/worker.go:422-450 | A transaction that an earlier view shows unpaid with its nonce passed is unpaid and passed on the current chain. |
| WorkerSafety.RunKeepsSingle | chain/app/publicfaucet/worker.go:422-505 | In every fair run only the remembered transaction of a request can have paid or still pay, and a worker about to sign anew is right that the earlier one is gone. |
| WorkerSafety.RunKeepsReleased | chain/app/publicfaucet/worker.go:340-404 | In every fair and careful run no transaction of a failed request has paid or can pay. |
| WorkerBudget.EndToEndBudget | chain/app/publicfaucet/worker.go:230-240 | In every fair and careful run the value landed for the requests of a UTC day is at most that day's counter, which is at most the daily budget. |
| WorkerHistory.BroadcastAfterJournal | chain/app/publicfaucet/worker.go:519-590 | Whatever is on the network after a step was in the journal before it, for the request it pays, to its recipient and in its amount. |
| WorkerHistory.SignerFencing | chain/app/publicfaucet/server.go:355-385 | If no other rotation comes between a handler's check and its swap, then across restarts the active key is never fenced and no signature comes after the entry that rotated its key out. |
| WorkerHistory.SerialisedSwapIsGuarded | chain/app/publicfaucet/server.go:372-385 | What a rotation handler checked still holds at its swap if no other swap and no restart came between. |
| WorkerHistory.ReplayFences | chain/app/publicfaucet/store.go:165-169 | A replayed store fences a key exactly if some journal entry rotated it out. |
| WorkerHistory.SwapIsSafeExactlyWhenChecked | chain/app/publicfaucet/server.go:372-385 | A swap leaves the active key unfenced if and only if the new key was not fenced and is not the active one. |
| WorkerHistory.RunJournalIsLifecycle | chain/app/publicfaucet/worker.go:311-590 | The journal of every run of the protocol is a request lifecycle, without any hypothesis. |
| WorkerHistory.RunLeavesFinalRequestsAlone | chain/app/publicfaucet/worker.go:311-590 | In every run a request that is failed, denied or confirmed in one state is the same in every later state. |
| WorkerNecessity.ResigningPaysTwiceExactlyIfPaid | chain/app/publicfaucet/worker.go:519-590 | From any reachable state cleared to sign, the six steps fence check, nonce read at the account's next nonce, signature, journal entry, broadcast and landing pay the request twice if and only if it was paid before. |
| WorkerNecessity.OneChainStateIsNeeded | chain/app/publicfaucet/worker.go:422-450 | A run that double-funds because a landing falls between the two reads of a settlement, all other hypotheses kept. |
| WorkerNecessity.OverwrittenUnpaidIsNeeded | chain/app/publicfaucet/worker.go:452-505 | A run that double-funds because a replaced transaction lands. |
| WorkerNecessity.SameKeyIsNeeded | chain/app/publicfaucet/worker.go:452-505 | A run that double-funds because the key rotates between a replacement's check and its signature. |
| WorkerNecessity.NoMarkedErrorIsNeeded | chain/app/publicfaucet/worker.go:685-687 | A run that pays more than the day's counter because an error text after broadcasting carries the terminal marker. |
| WorkerNecessity.NoSubmittedDroppedIsNeeded | chain/app/publicfaucet/worker.go:230-240 | A run that pays more than the day's counter because restart recovery drops a submitted request. |
| WorkerNecessity.ChainCanPayExactlyIfPayable | chain/app/publicfaucet/worker.go:422-450 | From any state some continuation of the chain alone pays for a request if and only if one of its transactions is paid already or waits on the network with its nonce still to come. |
| WorkerNecessity.DropIsHarmlessExactlyIfUnpayable | chain/app/publicfaucet/worker.go:230-240 | A request that restart recovery drops can still be paid for if and only if it could before the drop; never if it was only queued. |
| WorkerNecessity.MarkedFailureIsHarmlessExactly | chain/app/publicfaucet/worker.go:685-687 | A request failed by a marked error text can still be paid for if and only if it could before, or the attempt got through with its nonce still to come. |
| WorkerNecessity.SerialisedRotationIsNeeded | chain/app/publicfaucet/server.go:372-385 | A run of two overlapping rotations that ends with a fenced active key. |
| FaucetBooks.BudgetConservation | chain/app/publicfaucet/store.go:84-107 | Under the request lifecycle each day's counter equals the sum of the amounts still reserved for requests created that day. |
| FaucetBooks.ClampNeverFires | chain/app/publicfaucet/store.go:187-197 | Under the request lifecycle a failure never takes more out of a day's counter than is in it. |
| FaucetBooks.TerminalStatesAreFinal | chain/app/publicfaucet/store.go:145-158 | No later event of a lifecycle run changes a failed, denied or confirmed request in any field. |
| FaucetPending.PendingRequestsOrder | chain/app/publicfaucet/store.go:411-425 | Restart recovery lists every pending request exactly once, oldest first, ties in acceptance order. |
| FaucetHistory.OneEntryPerKey | chain/app/publicfaucet/store.go:236-247 | No journal the store produces has two accepted entries with one address, UTC day and client key. |
| FaucetHistory.LaterCallsReplay | chain/app/publicfaucet/store.go:216-247 | Every later call with an accepted key is answered with the request that entry created. |
| FaucetHistory.RequestKeepsItsIdentity | chain/app/publicfaucet/store.go:84-158 | A request keeps address, amount and creation time through every later event that does not reuse its identifier. |
| FaucetHistory.AcceptancesAreSpaced | chain/app/publicfaucet/store.go:251-260 | Any two acceptances of one address are at least the cooldown apart in journal order, for readings in any order, unless the earlier one or one between them carries the zero instant. |
| FaucetHistory.CooldownRefusesExactly | chain/app/publicfaucet/store.go:236-262 | A call is refused for the cooldown if and only if its key is fresh, the service is not paused, the last acceptance is not at the zero instant and the reading is before the cooldown's end. |
| FaucetHistory.CooldownHoldsExactlyOffZero | chain/app/publicfaucet/store.go:254-262 | Every reading before the end of the cooldown is refused if and only if the last acceptance is not at the zero instant. |
| FaucetHistory.EarlyReadingAcceptedExactlyAtZero | chain/app/publicfaucet/store.go:251-272 | For a journal and a reading before the cooldown's end that passes every other check, the call is accepted if and only if the journal's last acceptance of the address carries the zero instant or there is none. |
| FaucetHistory.DailyCapHolds | chain/app/publicfaucet/store.go:263-265 | Acceptances of one address on one UTC day never exceed the cap. |
| FaucetHistory.ZeroInstantHasNoCooldown | chain/app/publicfaucet/store.go:254-262 | A produced journal with two acceptances closer than the cooldown, the first at the zero instant. |
| FaucetHistory.WaitingClearsCooldown | chain/app/publicfaucet/store.go:254-262 | After waiting the returned seconds the next call is refused for the cooldown again if and only if its end was further away than the longest expressible wait and the key is fresh then; never, if the last acceptance is not in the future. |
| FaucetHistory.HintCanBeTooShort | chain/app/publicfaucet/store.go:257-260 | A produced journal and a reading at which waiting as told is refused for the cooldown again. |
| FaucetHistory.FailureIsForever | chain/app/publicfaucet/store.go:73-77 | A journal that fails to replay fails after any further entries. |
| ScopedKeys.RenderedKeysNeverCollide | chain/app/publicfaucet/store.go:209-211 | Two scoped keys have one text if and only if address, day and client key agree, whatever the client key contains. |
| FaucetJournal.ReadJournal | chain/app/publicfaucet/journal.go:77-117 | Accepts exactly the chained files whose lines all fit the scanner, returns exactly their entries, and otherwise stops at the first bad line. |
| FaucetJournal.Journal.Append | chain/app/publicfaucet/journal.go:121-149 | From a journal in step a durable write extends chain and memory by the event; a failed one leaves memory alone, and its effect on the file is stated for any number of bytes that got through, also onto a last line that lacks its newline. |
| FaucetJournal.OpenJournal | chain/app/publicfaucet/journal.go:53-73 | Opens exactly the readable files, with memory in step with the end of the chain. |
| FaucetJournal.WrittenReadsBack | chain/app/publicfaucet/journal.go:77-149 | Any list of appended events is chained and reads back as itself; it is readable if and only if every line fits. |
| FaucetJournal.LastHashFixesJournal | chain/app/publicfaucet/journal.go:92-112 | With an injective hash, a journal whose last hash occurs somewhere in another equals that other up to there. |
| FaucetJournal.SameLastHashSameJournal | chain/app/publicfaucet/journal.go:92-112 | With an injective hash, two chained journals with one last hash have identical entries. |
| FaucetJournal.ReopensExactlyUnlessRuined | chain/app/publicfaucet/journal.go:77-149 | After any run of appends, failed at any byte, and reopenings the file opens again if and only if every line fits and no write left a part of a line, or any byte after a whole line that memory does not know of or that lacks its newline. |
| FaucetJournal.MissingNewlineIsFatalLater | chain/app/publicfaucet/journal.go:91-149 | A write that loses only its newline is read as an entry by the next opening, and the first successful append after that makes the file unreadable. |
| FaucetStore.Store.ApplyEntry | chain/app/publicfaucet/store.go:81-176 | The in-place update is the event's effect on the abstract state, or nothing changes. |
| FaucetStore.Store.AddToSpent | chain/app/publicfaucet/store.go:187-197 | The day's counter becomes the clamped sum and no other day changes. |
| FaucetStore.Store.Accept | chain/app/publicfaucet/store.go:236-288 | The answer is the decision on the state before; exactly a granted call writes one entry; a refusal leaves a state that answers alike; journal and memory stay in step exactly if the identifier is not empty. |
| FaucetStore.Store.Transition | chain/app/publicfaucet/store.go:334-342 | Succeeds exactly on a durable write about a known request; after a durable write journal and memory are in step if and only if the request was known. |
| FaucetStore.Store.RecordRotation | chain/app/publicfaucet/store.go:355-361 | Fences the old key unless it is the zero address, and makes the new one active. |
| FaucetStore.Store.FindReplay | chain/app/publicfaucet/store.go:216-229 | Returns a request exactly when the accept decision would replay it. |
| FaucetStore.Store.PendingRequests | chain/app/publicfaucet/store.go:411-425 | The loop and the stable sort return the requests in the proved recovery order. |
| FaucetStore.ListedIsKnown | chain/app/publicfaucet/store.go:415-416 | Every identifier in the acceptance order of a replayed store has a request. |
| FaucetStore.NewStore | chain/app/publicfaucet/store.go:63-79 | Succeeds exactly when the journal replays, with exactly the replayed state. |
| FaucetStore.Restart | chain/app/publicfaucet/store.go:63-79 | From a store in step, a restart succeeds exactly if every line fits, and the rebuilt store answers alike. |
| FaucetStore.MemoryAnswersLikeReplay | chain/app/publicfaucet/store.go:63-342 | After every run of accepts, transitions and restarts on known or fresh identifiers, memory equals a replay of the journal up to empty address records. |
| FaucetStore.SameAnswers | chain/app/publicfaucet/store.go:216-424 | States equal up to empty address records give the same decision, pending list and spent amount. |
| FaucetStore.SameApply | chain/app/publicfaucet/store.go:81-176 | The same event keeps two such states alike or fails on both. |
| FaucetStore.UnexplainedEventIsFatal | chain/app/publicfaucet/store.go:334-342 | An entry about an unknown request makes every later replay fail. |
| TokenBucket.VisitsWithin | chain/app/publicfaucet/ratelimit.go:95-105 | Visits to one bucket with readings in an interval spend at most the burst plus the inflow of the interval. |
| TokenBucket.VisitsBoundedByRise | chain/app/publicfaucet/ratelimit.go:95-105 | For any clock, visits to one bucket spend at most the burst plus the inflow of the rise of its latest reading. |
| RateLimiter.Limiter.Admit | chain/app/publicfaucet/ratelimit.go:56-93 | Buckets and answer after the call are the specified function of those before. |
| RateLimiter.RateBound | chain/app/publicfaucet/ratelimit.go:56-105 | In every run, for every address and every network, a stretch of consecutive calls read within an interval admits at most burst plus interval over refill time. |
| RateLimiter.MonotoneRateBound | chain/app/publicfaucet/ratelimit.go:56-105 | With a clock that never steps back, in every run and for every address and network, the admissions read between two instants number at most burst plus elapsed over refill time. |
| RateLimiter.RateBoundByRise | chain/app/publicfaucet/ratelimit.go:56-105 | For any clock, a stretch of consecutive calls admits at most burst plus, over refill time, the rise of the latest reading its bucket has seen. |
| RateLimiter.IntervalIsAStretch | chain/app/publicfaucet/ratelimit.go:56-105 | With a clock that never steps back, the calls read in an interval are consecutive. |
| RateLimiter.DeniedSpendsNothing | chain/app/publicfaucet/ratelimit.go:84-89 | A call that is not admitted lowers no bucket of either level. |
| RateLimiter.AdmittedSpendsOne | chain/app/publicfaucet/ratelimit.go:90-92 | An admitted metered call takes one token from its address and one from its network. |
| RateLimiter.SteppedBackClockExceeds | chain/app/publicfaucet/ratelimit.go:95-105 | Three admissions read at one instant with a burst of two, after the clock stepped back. |
| AddressWindow.Compact | chain/app/faucet/server.go:223-234 | Compaction inside the array it reads from keeps exactly the recent records in order, and the total is their sum. |
| AddressWindow.AddressLimiter.CheckLocked | chain/app/faucet/server.go:223-246 | Prunes the recipient's records in place, leaves every other address alone, answers by the remaining records, and asks for a positive wait with every refusal. |
| AddressWindow.AddressLimiter.RecordLocked | chain/app/faucet/server.go:248-253 | Appends one record, into spare capacity or a new array, without disturbing any other address. |
| AddressWindow.AddressLimiter.Handle | chain/app/faucet/server.go:151-176 | Check, funding and record as one locked step of the specified transition. |
| AddressWindow.WindowNeverExceeded | chain/app/faucet/server.go:223-246 | With the readings of an address in order, what it was confirmed in any window is at most the maximum, although old records are pruned. |
| AddressWindow.CooldownNeverBroken | chain/app/faucet/server.go:235-241 | With the readings of an address in order, its confirmed fundings are at least the cooldown apart. |
| AddressWindow.PruningLosesNothing | chain/app/faucet/server.go:223-234 | The stored records answer every current window question as the complete log would. |
| AddressWindow.PanicsExactly | chain/app/faucet/server.go:242-244 | Indexing the first kept record fails if and only if nothing is kept and the amount alone exceeds the window maximum; never for a valid policy and a parsed amount. |
| AddressWindow.OutOfOrderReadingsExceed | chain/app/faucet/server.go:151-153 | Calls served out of order that put twice the maximum into one window. |
| AddressWindow.ParseAmount | chain/app/faucet/server.go:198-221 | Accepts exactly the empty text and the decimal texts in range, with their value. |
| Bech32Bits.ConvertBits | packages/torium-sdk/src/utils.ts:418-452 | With padding, the result denotes the same number shifted to fill its last digit; without, it accepts exactly inputs with clean padding and denotes their number; the masked accumulator loses nothing. |
| Bech32Bits.NumberInjective | packages/torium-sdk/src/utils.ts:418-452 | Digits are determined by their count and the number they denote. |
| Bech32Account.PadThenStrip | packages/torium-sdk/src/utils.ts:418-452 | The strict regrouping relates a padded result back to the input if and only if the padding is shorter than one input digit. |
| Bech32Account.ThereAndBack | packages/torium-sdk/src/utils.ts:418-452 | The padding call followed by the strict call returns the input if and only if its digits are in range and the filling is shorter than one input digit; always from 8 to 5 bits. |
| Bech32Account.StripThenPad | packages/torium-sdk/src/utils.ts:418-452 | Stripping then padding returns the input. |
| Bech32Account.BackAndThere | packages/torium-sdk/src/utils.ts:418-452 | The strict call followed by the padding call returns the input if and only if the strict call accepts it. |
| Bech32Checksum.ComputePolymod | packages/torium-sdk/src/utils.ts:393-403 | The two nested loops compute the fold of the update step. |
| Bech32Checksum.PolymodLinear | packages/torium-sdk/src/utils.ts:393-403 | The checksum of a sum over GF(2) is the sum of the checksums, for any length. |
| Bech32Checksum.CreatedChecksumVerifies | packages/torium-sdk/src/utils.ts:405-416 | For every human-readable part and every payload the created checksum verifies. |
| Bech32Checksum.BurstErrorDetected | packages/torium-sdk/src/utils.ts:405-416 | Any change within six consecutive words of a valid sequence of any length is detected. |
| Bech32Account.EncodeAccount | packages/torium-sdk/src/utils.ts:343-351 | Encodes exactly 20-byte addresses, to the 45-character text of the encoding relation. |
| Bech32Account.DecodeAccount | packages/torium-sdk/src/utils.ts:353-383 | Returns an address if and only if the text encodes that address. |
| Bech32Account.ChecksummedTextAlwaysDecodes | packages/torium-sdk/src/utils.ts:377-382 | Every 32 words regroup to 20 bytes, so the padding and length checks after the checksum never fail. |
| Bech32Account.EncodingIsOneToOne | packages/torium-sdk/src/utils.ts:343-383 | Two addresses are equal if and only if their texts are. |
| Bech32Account.MistypedTextIsRejected | packages/torium-sdk/src/utils.ts:353-383 | No text that differs from an account text only within six consecutive characters is an account text. |
| RewardTree.ProcessProof | packages/torium-sdk/src/contracts.ts:588-608 | The loop computes the climbed node or the first error, malformed siblings included. |
| RewardTree.ClaimsStayWithinTheSum | packages/torium-sdk/src/contracts.ts:535-608 | Claims with distinct leaves accepted against one root and sum total at most the sum, even if no honest tree was built. |
| RewardTree.ProofIsAPath | packages/torium-sdk/src/contracts.ts:535-608 | A proof that reproduces a tree's root hash is the sibling path of a leaf of that tree, and reproduces its sum. |
| RewardTree.PathIsAccepted | packages/torium-sdk/src/contracts.ts:588-608 | The path of a leaf is accepted if and only if no sibling on it has a zero sum. |
| RewardTree.ProvableExactly | packages/torium-sdk/src/contracts.ts:535-608 | A leaf has a proof accepted against a tree's root if and only if some path in the tree leads to it past no sibling of zero sum. |
| RewardTree.LeafBesideEmptyHasNoProof | packages/torium-sdk/src/contracts.ts:535-608 | In the tree of a leaf beside a zero-sum subtree no proof at all is accepted for that leaf. |
| RewardTree.Preflight | packages/torium-sdk/src/contracts.ts:771-861 | Each blocker is reported exactly on its condition, and a claim is possible exactly when all conditions hold. |
| RewardTree.PreflightedClaimsFit | packages/torium-sdk/src/contracts.ts:835-841 | Claims of one epoch with distinct indices that all pass the preflight total at most its funding. |
| RetryEngine.RunAction | packages/torium-sdk/src/internal/execution.ts:39-117 | The trace is start, retries, one end; a write is invoked at most once and a read at most as configured; nothing is invoked after a seen abort; only safe failures are retried; backoff is bounded; no write error invites a retry. |
| RetryEngine.ValidateRetry | packages/torium-sdk/src/internal/execution.ts:291-336 | Every accepted setting allows one to three attempts, ordered delays within the bound and a ratio within one; no setting means one attempt. |
| RetryEngine.DelayIsBounded | packages/torium-sdk/src/internal/execution.ts:338-352 | A delay is between zero and thirty seconds, follows a server hint in range, and otherwise stays within twice the configured maximum. |
| RecoveryPaths.ValidPathIsProper | chain/app/localnet/recovery_types.go:286-292 | The cleaned-path test accepts exactly the paths below the runtime directory whose parts are all proper, without the two banned texts. |
| RecoveryPaths.ValidPathStaysInside | chain/app/localnet/recovery_types.go:286-292 | From any destination an accepted path leads into its runtime directory, and different accepted paths to different places. |
| RecoveryArchive.ValidateManifest | chain/app/localnet/recovery_types.go:97-189 | Accepts exactly the manifests with valid, strictly ascending files in scope, the topology, and a file for every node. |
| RecoveryArchive.AscendingPaths | chain/app/localnet/recovery_types.go:162-179 | Strictly ascending neighbours make all paths of a manifest different. |
| RecoveryArchive.ReadArchive | chain/app/localnet/recovery_archive.go:453-557 | Succeeds if and only if the stream ends cleanly, the archive is a valid manifest followed by exactly its files and some directories, and the destination, if any, takes every entry; writes exactly those files, under the mask, and directories with their modes. |
| RecoveryArchive.ReadItems | chain/app/localnet/recovery_archive.go:498-556 | The running counts and sets of the loop decide the same as the declarative match, and the tree written is that of the entries. |
| RecoveryArchive.AcceptedEntriesAreTheManifest | chain/app/localnet/recovery_archive.go:498-588 | Regular entries and manifest files correspond one to one in path, size, mode and digest; every entry, directories included, leads inside the runtime tree. |
| RecoveryArchive.ValidDirectoryExactly | chain/app/localnet/recovery_archive.go:668-676 | Among directories in scope with proper parts the reader takes exactly those without a backslash and without a part that ends in two dots. |
| RecoveryArchive.ValidDirectoryStaysInside | chain/app/localnet/recovery_archive.go:668-676 | From any destination an accepted directory leads into its runtime directory. |
| RecoveryArchive.WriteArchive | chain/app/localnet/recovery_archive.go:307-396 | Writes the manifest and every source in order; succeeds exactly if no operation fails and no file changed since it was collected. |
| RecoveryArchive.WrittenArchiveIsAccepted | chain/app/localnet/recovery_archive.go:307-365 | A written archive is accepted if and only if every directory name is valid to the reader. |
| RecoveryArchive.EntriesBuildTheTree | chain/app/localnet/recovery_archive.go:518-588 | Writing the entries of a payload one by one builds exactly the tree of its documents and folders. |
| RecoveryArchive.WriteThenRead | chain/app/localnet/recovery_archive.go:307-588 | Writing and then reading returns the manifest and the collected tree if and only if the writing succeeds, every folder name is valid to the reader and the destination takes every entry; otherwise the result is a rejection. |
| RecoveryArchive.ModesAreRebuiltExactly | chain/app/localnet/recovery_archive.go:562-571 | The file modes of the tree are rebuilt if and only if the mask takes no bit of any of them. |
| RecoveryArchive.DottedFolderIsRefused | chain/app/localnet/recovery_archive.go:668-676 | A directory name ending in two dots is never valid to the reader. |
| RecoveryStaging.PrivilegedStagingExactly | chain/app/localnet/recovery_archive.go:518-571 | Entries without repetition can be staged by a privileged process if and only if no file is at or above the place of another entry, in whatever order they come. |
| RecoveryStaging.IncompatibleIsNeverStaged | chain/app/localnet/recovery_archive.go:518-571 | With such a conflict no process can stage them. |
| RecoveryStaging.VerifiedArchiveStagesExactly | chain/app/localnet/recovery_archive.go:453-588 | The same for every archive that inspection accepts, as the destination of a read. |
| RecoveryStaging.ConflictPassesInspection | chain/app/localnet/recovery_archive.go:512-530 | A directory named like a file of the manifest is one more acceptable entry, and then nothing can be staged. |
| RecoveryStaging.StagesTheEntries | chain/app/localnet/recovery_archive.go:518-588 | What is staged is what reading lists: exactly its files, and its folders with their modes. |
| RecoveryStaging.WalkedIsGrown | chain/app/localnet/recovery_archive.go:243-305 | Sorting the collected entries by name puts every folder before what lies in it. |
| RecoveryStaging.StagingExactly | chain/app/localnet/recovery_archive.go:518-571 | A collected payload can be staged if and only if the process is privileged or has the owner's write and search permission in every folder that holds something, and then its tree is staged below the root. |
| RecoveryStaging.BackUpAndStage | chain/app/localnet/recovery_archive.go:243-588 | Backup and staged restore return the manifest and the collected tree if and only if the writing succeeds, every folder name is valid to the reader and the process may work in every folder that holds something. |
| RecoveryActivation.FileSystem.Activate | chain/app/localnet/recovery_archive.go:616-655 | The renames, the rollback and the removal of the backup leave the specified disk and verdict, for any faults, removals that stop halfway included. |
| RecoveryActivation.AllOrNothing | chain/app/localnet/recovery_archive.go:616-655 | Success installs every staged home and changes nothing else; failure leaves every original exactly if the undo operations it ran worked; of the originals put aside, only what a failed removal of the backup leaves remains. |
| RecoveryActivation.NoOtherPathIsTouched | chain/app/localnet/recovery_archive.go:616-655 | Whatever fails, no path outside the named homes and their staged copies changes. |

## Left out

- Payload text: journal payloads are typed values; parsing amounts, nonces and addresses out of strings in `applyEntry` is not modelled.
- Pointers in the store: requests, address records, counters and buckets are map values that methods reassign, so aliasing of the Go pointers is not captured.
- Worker timing: polling intervals, backoff and fee computation are free choices of the protocol; circuit breakers and metrics are not modelled, because they only disable steps.
- Chain reorganisations: the chain of the protocol is final; reads may lag behind it, but not see a block that is later dropped.
- Liveness: that a request is eventually settled is not stated.
- FaucetStore.Store.PendingRequests: requires that listed identifiers are known, where the code would fault; `ListedIsKnown` shows every replayed store meets it.
- FaucetJournal.LastHashFixesJournal: assumes an injective entry hash that never yields the genesis value, an idealisation of SHA-256.
- RewardTree.ClaimsStayWithinTheSum: assumes an injective hash without an upper bound whose values are never address-sized, an idealisation of Keccak-256; the ABI byte encoding is not modelled.
- RateLimiter.Limiter.Admit: tokens are reals, so floating-point rounding is not modelled.
- RecoveryStaging.BackUpAndStage: a process without privilege owns the staging directory; group and other permissions, symbolic links, full disks and file systems that fold case are not modelled. The tree it returns holds the entries; `StagingExactly` gives the root directory above them.
- Bech32Bits.ConvertBits: integers are unbounded, where the code shifts 32-bit numbers; both agree on input numbers below 2^32 while twice the input width plus the output width is at most 32, which covers the bytes and alphabet indices the codec regroups between the widths 8 and 5.
- Bech32Account.DecodeAccount: texts are sequences of characters, and lower-casing is any function that fixes ASCII lower-case letters and digits.
- RecoveryArchive.ReadArchive: the checks of chain, binary and node state of a manifest are one parameter. Which entries a destination refuses is a parameter too; `RecoveryStaging` derives it. The tar and gzip framing is not modelled.
- RecoveryActivation.AllOrNothing: the converse, that a failed undo loses a home, is stated where what a failed removal leaves is not by chance the original.
- RetryEngine.RunAction: identifiers of the execution context, diagnostics callbacks that throw, and event durations are not modelled.
- FaucetJournal.Journal.Append: that a strict prefix of an entry's JSON text, and two texts on one line, do not decode is built into the model of a line.
- Request parsing, headers, challenge verification, logging and metrics: they act before or beside the modelled state and keep none of it.
- Application wiring, ante decorators, genesis and upgrade handlers: single-branch checks over libraries whose code is not part of the repository.
- Solidity contracts: only their mirror in the SDK is modelled.
- SDK clients, wallet and error classification: they forward calls and match strings, and hold no state between calls.
