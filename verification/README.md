# Account protocols and migrations, modelled and proved

A Dafny model of the parts of the application template whose correctness hangs on order: what one
write leaves for the next, what another call may do between two awaits, and what the system may do
between two calls. `dafny verify dfyconfig.toml` checks all of it.

- **Address ledger backfill** (`Addresses`, `LedgerTables`, `LedgerProperties`, `LedgerTheorems`,
  `LedgerBackfill`, `LedgerMeaning`). `LedgerTables` says what settling a set of addresses means. `LedgerBackfill` is
  the migration itself, in place over three tables with two unique indexes, every write recorded in
  a trace; it is proved to settle every pending address in whatever order the groups come.
  `LedgerMeaning` says by the rows' own fields who keeps an address and what becomes of each row.
- **Device key** (`DeviceKeySpec`, `DeviceKeys`). A state machine over the native key, the marker and
  the cached flag; each native call may reject before or after it took effect, or answer something
  unreadable. `DeviceKeys` is the package's closures as a class over the native module.
- **Sign-in** (`SignInSpec`, `SignInInvariants`, `SignInSteps`, `SignInTheorems`, `SignInAlone`,
  `SignInCap`, `SignInOverrun`, `SignInServer`). Requests for links, visits to links and provider sign-ins, as processes
  that stop at every await and share one database; accounts are made by a unit of work that reserves,
  inserts and commits in three steps. Every interleaving is a run. `SignInAlone` says what each
  call answers when nothing runs beside it; `SignInServer` does the steps in place.
- **Counters and codes** (`MailCounters`, `MailCalls`, `Windows`, `MailCap`, `MailOverrun`, `MailTries`,
  `MailCleanup`, `MailOneAtATime`, `EmailCodes`, `CodeGuesses`). Classes for the store contracts and
  theorems over runs with cleanup at any moment. `MailCalls` makes each call to the mail counter a
  process that keeps the moment it read and makes one statement at a time; guesses at the codes write
  the same rows.
- **Transformations** (`LinkedAccounts`, `ObjectIdReferences`, `MessageTrees`, `RoleRules`,
  `PasswordBytes`).

Where the code keeps a promise only under a condition, the condition is proved exact:

- Rolling linked accounts back is described as failing closed. It writes nothing only when the
  refused user is among the first 500 of the cursor (`RefusalChangesNothingInFirstBatch`), which is
  certain beforehand exactly when fewer than 500 linked users could be rolled back
  (`RefusalsChangeNothingExactly`).
- "At most `limit` wrong codes between two locks" needs the wrong codes to be remembered. With a
  day between guesses any number is counted and nothing locks (`LapsesAllowAnyNumber`); a run locks
  exactly when one streak reaches the limit (`LocksExactlyByStreak`).
- The mail cap is not kept by every run: a call that reads the clock inside a window, and starts one
  after cleanup removed the counter, stamps it with the moment it began. It may insert the row, or
  count on one that a guess at a code has inserted (`StraddledWindowBreaksTheCap`). Windows overlap
  exactly when one is started, where no row has a window, before the end of the one before
  (`WindowsOverlapExactlyWhenBackdated`); without that the cap holds, with it the overlap bounds it.
  The hourly cap of sign-in mails fails and holds in the same way (`StraddledHourBreaksTheCap`,
  `HoursOverlapExactlyWhenBackdated`).
- "A counter that cleanup has not removed yet and one that it has removed count the same" holds for
  calls of an address that come one at a time, unless a guess inserts the row under one of them
  (`CleanupChangesNoAnswerOneAtATime`, `GuessAfterCleanupRefusesACall`). Calls that overlap can tell
  every removal (`RemovalShowsExactly`). One call's answer survives a cleanup, or a guess, it runs
  into exactly when it could still count (`CleanupUnderACallExactly`, `GuessUnderACallExactly`).
- A counter that a call finds is not always "full inside its window": a guess may have inserted it,
  and then the call is refused although nobody was mailed (`TryRecord`).
- A mail counter stored without the start of its window never starts a new one, so cleanup does
  change its decision (`StartlessCounterWaitsForCleanup`); the expiry migration covers exactly the
  counters whose start was stored (`MigratedCounterIsKept`).
- A device key that was answered is kept until a loss is announced exactly when its marker is on
  the device (`AnsweredKeyIsKeptExactly`); a refused marker write makes the next loss silent.
- The conversion of string ids fails exactly when two string rows of a client differ only in letter
  case and no ObjectId row has taken their key (`ConvertReference`).
- Merging three catalogues is associative exactly when they group freely
  (`MergeIsAssociativeExactly`), which a leaf between two subtrees does not (`GroupingCanMatter`).

## Model

| member | source | states |
|---|---|---|
| Addresses.NormalFormIs | backend/migrations/20261009000002-address-ledger.js:1 | the normal form of an address has no capital letter and no blank at either end, and is the address without its outer blanks up to the case of its letters |
| Addresses.OneFormExactlyWhenAlike | backend/migrations/20261009000002-address-ledger.js:1 | two addresses have one normal form if and only if only letter case and outer blanks tell them apart |
| Addresses.NormaliseIdempotent | backend/migrations/20261009000002-address-ledger.js:1 | normalising what was normalised changes nothing, so what the migration writes is canonical |
| LedgerTables.KeeperIsUnique | backend/migrations/20261009000002-address-ledger.js:46-57 | an address has at most one keeper: the code that decides is the latest live code of the only member that has one |
| LedgerTables.KeptCodeLapsesLast | backend/migrations/20261009000002-address-ledger.js:44-55 | the kept code lapses after every other live code of its account at the address, and of two that lapse together it is the later row |
| LedgerBackfill.ChoiceIsKeeper | backend/migrations/20261009000002-address-ledger.js:35-57 | filtering the sorted codes per member and taking the first picks exactly the account and code the order-free definition of a keeper names, or nobody |
| LedgerBackfill.FindAddressCodes | backend/migrations/20261009000002-address-ledger.js:36-45 | the codes of the purpose whose normalised address is the group's, each once, latest lapse and then greatest id first |
| LedgerBackfill.GroupByPending | backend/migrations/20261009000002-address-ledger.js:16-32 | every account with a pending address is in exactly one group, the one of its canonical address |
| LedgerBackfill.RewriteKeepsIndex | backend/migrations/20261009000002-address-ledger.js:79-94 | once the losing codes are deleted, giving the canonical address to the keeper's code cannot break (email, purpose) uniqueness |
| LedgerBackfill.KeepCode | backend/migrations/20261009000002-address-ledger.js:79-94 | deletes exactly the losing codes and rewrites the keeper's; the unique index holds in every recorded state on the way, and the number deleted is returned |
| LedgerBackfill.KeepClaim | backend/migrations/20261009000002-address-ledger.js:59-78 | throws exactly on a claim at the address that differs in kind, owner or lapse time, writing nothing; otherwise the keeper's claim is there and counted only when it is new |
| LedgerBackfill.ClearRest | backend/migrations/20261009000002-address-ledger.js:101-121 | clears the members that are not kept, deletes the codes of an address nobody keeps, and counts each under its one reason |
| LedgerBackfill.BackfillGroup | backend/migrations/20261009000002-address-ledger.js:33-122 | one turn of the loop settles exactly its own address, or throws exactly on a conflicting claim; all unique indexes hold after each write |
| LedgerBackfill.Backfill | backend/migrations/20261009000002-address-ledger.js:5-124 | whatever order the groups come in, it succeeds exactly when no pending address has a conflicting claim, and then leaves the one result and the one set of counts the starting tables determine |
| LedgerBackfill.PartlyNormalisedStayDistinct | backend/migrations/20261009000002-address-ledger.js:134-165 | once the collision check passes, every partly normalised user table has distinct emails |
| LedgerBackfill.NormaliseEmails | backend/migrations/20261009000002-address-ledger.js:158-165 | rewriting the rows one at a time in any order normalises all of them and never meets the unique index |
| LedgerBackfill.HalfNormalised | backend/migrations/20261009000002-address-ledger.js:158-165 | half-way, the emails written are normalised and every other field and row is as it was |
| LedgerBackfill.CollidingShareAnEmail | backend/migrations/20261009000002-address-ledger.js:134-157 | the collision check finds exactly the accounts whose email is another's but for letter case and outer blanks |
| LedgerBackfill.Up | backend/migrations/20261009000002-address-ledger.js:127-179 | emails that only case and outer blanks tell apart are refused before any write, naming exactly those accounts; a claim conflict leaves what was there before; otherwise the tables are the backfill of the normalised tables, and every email and every pending address left has no capital letter and no outer blank and is the old one but for these; uniqueness holds after every single write |
| LedgerProperties.OthersUntouched | backend/migrations/20261009000002-address-ledger.js:33-122 | settling other addresses changes neither an address's group, nor whether it is taken, nor its codes |
| LedgerProperties.SameKeeper | backend/migrations/20261009000002-address-ledger.js:46-57 | settling other addresses first does not change who keeps an address |
| LedgerProperties.SameConflict | backend/migrations/20261009000002-address-ledger.js:64-72 | settling other addresses first neither makes nor hides a conflicting claim |
| LedgerProperties.SettledComposes | backend/migrations/20261009000002-address-ledger.js:33-122 | settling some addresses and then one more is settling them all at once, so the visiting order does not matter |
| LedgerProperties.ClearedComposes | backend/migrations/20261009000002-address-ledger.js:101-113 | who is cleared, and why, adds up address by address |
| LedgerTheorems.BackfillBindsEveryPendingAddress | backend/migrations/20261009000002-address-ledger.js:33-122 | after a backfill every pending address is canonical, its holder owns the claim there, and it has exactly one code: live, of that holder and generation, with the claim's lapse time |
| LedgerTheorems.BoundTablesAreFixed | backend/migrations/20261009000002-address-ledger.js:33-122 | where every pending address is bound, another backfill at the same moment conflicts with nothing, changes no row and clears nobody |
| LedgerTheorems.PendingIsKeptOrCleared | backend/migrations/20261009000002-address-ledger.js:101-121 | every account that had a pending address either keeps it or is cleared for exactly one of the three reasons |
| LedgerTheorems.ClaimsWrittenAreAccountsKept | backend/migrations/20261009000002-address-ledger.js:58-78 | from a ledger without claims, there are as many claims as accounts that keep a pending address |
| LedgerMeaning.UsersAfter | backend/migrations/20261009000002-address-ledger.js:35-113 | an account keeps its pending address, normalised, if and only if no account has it, it has a live code bound to it at its generation, and no other account waiting for it has one; otherwise it is cleared, and no other field changes |
| LedgerMeaning.CodesAfter | backend/migrations/20261009000002-address-ledger.js:36-94 | of the codes for pending addresses exactly the last one of each account that keeps its address is left, under the normalised address; every other code stays as it was |
| LedgerMeaning.ClaimsAfter | backend/migrations/20261009000002-address-ledger.js:58-78 | every claim stays, and an address that is kept and had none gets one in its account's name until its code lapses |
| LedgerMeaning.ConflictIs | backend/migrations/20261009000002-address-ledger.js:64-72 | a claim conflicts if and only if the address is kept and the claim's kind, owner or lapse is another |
| LedgerMeaning.ClearedMeans | backend/migrations/20261009000002-address-ledger.js:101-113 | an account is cleared as taken when somebody has the address, as ambiguous when somebody else waits for it, and as codeless otherwise |
| LedgerMeaning.CountsMean | backend/migrations/20261009000002-address-ledger.js:6-12 | the counts are the numbers of claims added, codes deleted and accounts cleared for each of those reasons |
| LedgerBackfill.MigratedPendingAddressesAreBoundAndFree | backend/migrations/20261009000002-address-ledger.js:127-166 | after the migration every pending address is bound, every email is canonical, and no pending address is, in any spelling, another account's email or pending address |
| LedgerBackfill.MigrationIsIdempotent | backend/migrations/20261009000002-address-ledger.js:127-166 | running the finished migration again at the same moment meets no collision that was not there before it, no conflict, changes no row and returns zero counts |
| LedgerBackfill.CountsConserveAccounts | backend/migrations/20261009000002-address-ledger.js:6-123 | from a ledger without claims, kept plus the three cleared counts is the number of accounts that had a pending address, and codes_killed is the drop in stored codes |
| DeviceKeySpec.StepStaysSound | mobile/device-key/src/device-key.ts:32-123 | one call or system event, whatever its native calls do, keeps "cached implies marker", never reuses a key, and answers a key or a level only of the stored key and only when the settings accept it |
| DeviceKeySpec.RunStaysSound | mobile/device-key/src/device-key.ts:30-123 | in every reachable state the cached flag implies that the marker is on the device |
| DeviceKeySpec.MarkerFollowsTheKey | mobile/device-key/src/device-key.ts:32-40 | after a successful public key the marker is written and cached unless a native call was rejected |
| DeviceKeySpec.AnsweredKeyIsKeptExactly | mobile/device-key/src/device-key.ts:64-93 | after a successful public key, every later success before an announced loss, a requested deletion or a fresh install is the same key if and only if the marker is on the device (or the platform makes no key these settings take) |
| DeviceKeySpec.DifferentAnswersHaveALossBetween | mobile/device-key/src/device-key.ts:64-123 | in any run, two different public keys have `keyInvalidated`, a requested deletion or a fresh install between them, when the marker was on the device right after the first |
| DeviceKeySpec.UnmarkedLossIsSilent | mobile/device-key/src/device-key.ts:35-39 | without a marker, a dropped key is answered with a new one and no word of the loss |
| DeviceKeySpec.SigningOnlyRemoves | mobile/device-key/src/device-key.ts:95-106 | signing never makes a key; unless it announces a loss it changes nothing; it signs only with a key the system still accepts |
| DeviceKeySpec.SigningAnswersExactly | mobile/device-key/src/device-key.ts:95-106 | for every script: a signature if and only if the call goes well and a key is stored that the system accepts; a loss if and only if it refuses or has dropped it or says so; a refusal for a garbled answer or any other rejection |
| DeviceKeySpec.PublicKeyAnswersExactly | mobile/device-key/src/device-key.ts:64-93 | without faults, `publicKey` answers a stored acceptable key, else removes an unacceptable one, else announces a marked loss, else makes a key when the platform can, with the state each leaves |
| DeviceKeySpec.FailedReadAnswersExactly | mobile/device-key/src/device-key.ts:54-87 | when the first native call is not answered well, `publicKey` and `prepare` announce a loss, answer `noSecureHardware` or refuse by its condition alone, and change nothing unless it is a loss |
| DeviceKeySpec.DeletionAnswersExactly | mobile/device-key/src/device-key.ts:113-123 | `deleted` is answered if and only if both native calls went well, and the key is not touched when the first did not |
| DeviceKeySpec.CachedMarkerIsNotWrittenAgain | mobile/device-key/src/device-key.ts:32-33 | with the marker cached, reading a stored key makes one native call and changes nothing |
| DeviceKeySpec.LossIsCleanUnlessRefused | mobile/device-key/src/device-key.ts:48-62 | an announced loss leaves no key, no marker and no cached flag unless a clean-up call was rejected |
| DeviceKeySpec.PreparingIsReading | mobile/device-key/src/device-key.ts:89-111 | `prepare` and `publicKey` have the same effects and succeed, announce a loss and refuse alike; the level told is the stored key's |
| DeviceKeySpec.SoftwareKeyIsTurnedAway | mobile/device-key/src/device-key.ts:77-81 | where software keys are not allowed, a stored one answers `noSecureHardware` and goes with its marker |
| DeviceKeySpec.RefusedKeyIsReplaced | mobile/device-key/src/device-key.ts:47-52 | a key the system refuses is announced lost once, and the next public key is a new one |
| DeviceKeySpec.HalfDeletedKeyIsPickedUpAgain | mobile/device-key/src/device-key.ts:113-123 | `deleted` means no key and no marker; when only the marker went, the next public key is the old key and no loss |
| DeviceKeys.DeviceKey.GivePublicKey | mobile/device-key/src/device-key.ts:89-93 | the transition of `publicKey`; soundness is kept and the key answered is the one stored |
| SignInTheorems.OneSignInPerLink | backend/src/auth/magic-link/magic-link.service.ts:106-218 | over every interleaving, one link completes at most one sign-in, and a link that was stored spent, in the run or before it, completes none |
| SignInTheorems.SpendingHasGrounds | backend/src/auth/magic-link/magic-link.service.ts:168-243 | whichever step spends a stored link: a person confirmed, or the visit presented the nonce hash stored on it from a browser with no session or a session of the link's owner |
| SignInTheorems.ConfirmationSpendsNothing | backend/src/auth/magic-link/magic-link.service.ts:168-188 | a visit answered with `requiresConfirmation` changed no link at any of its own steps |
| SignInTheorems.SignedInAccountHasTheAddress | backend/src/auth/magic-link/magic-link.service.ts:249-267 | over every interleaving, a completed link sign-in is for the account that has the link's address, and that account is verified |
| SignInTheorems.AccountsStayThemselves | backend/src/auth/oauth/oauth.service.ts:215-254 | from any moment of a run on, every lookup of an account's address or identity finds that account, and it stays verified |
| SignInTheorems.AdmittedIdentityResolves | backend/src/auth/oauth/oauth.service.ts:222-311 | a provider sign-in that was let in has its identity on that account ever after |
| SignInTheorems.IdentityJoinsOnlyAVerifiedAccount | backend/src/auth/oauth/oauth.service.ts:237-270 | an identity joins an existing account only through that account's own address, when the account is verified, the provider vouches per address and no account has the identity |
| SignInTheorems.NewAccountsTakeFreeAddresses | backend/src/auth/magic-link/magic-link-account-creation.ts:38-63 | any new account takes an address no account has and nobody has a live claim on, with an identity no account has, and leaves no claim row behind |
| SignInTheorems.ClaimedAddressHasNoOtherAccount | backend/src/common/persistence/mongo/mongo-address-ledger.ts:33-70 | over every interleaving, an address under a live claim has no account but the claimant's |
| SignInTheorems.ClaimingIsExclusive | backend/src/common/persistence/mongo/mongo-address-ledger.ts:33-70 | a claim is granted if and only if no other account has the address, no other holds a live claim on it and no open unit of work holds its row |
| SignInTheorems.AddressRuleIsNeverMet | backend/src/auth/magic-link/magic-link-account-creation.ts:38-87 | other calls run between a call's reservation, insert and commit, and yet its address has no account and no live claim until it commits; so the database's own address conflict never reaches the caller and the lost race is only entered through a taken reservation |
| SignInInvariants.InsertKeeps | backend/src/auth/oauth/oauth.service.ts:291-298 | with the claim row held, an insert is never refused for its address and keeps every uniqueness rule, for what is committed and for what other units of work have inserted |
| SignInInvariants.CommitKeeps | backend/src/auth/oauth/oauth.service.ts:299-304 | a commit adds exactly the inserted account, ends the claim and keeps every rule; an abort leaves nothing |
| SignInCap.LinksStayUnderTheCap | backend/src/auth/magic-link/magic-link.service.ts:111-133 | over every interleaving of web and native requests, each counting with the moment it captured, an address is mailed at most `maxPerHour` times for each hour since the run began and for each hour by which hours overlap |
| SignInCap.HoursOverlapExactlyWhenBackdated | backend/src/auth/magic-link/magic-link.service.ts:111-120 | two hours of an address overlap if and only if some request started one, where no counter was stored, stamped before the end of the hour before it |
| SignInCap.LinkCapHoldsUnlessBackdated | backend/src/auth/magic-link/magic-link.service.ts:115-120 | in every run without such a request the cap is as documented |
| SignInCap.LinkCapHoldsUnlessDroppedEarly | backend/src/auth/magic-link/magic-link.service.ts:115-120 | a cleanup job can keep the cap: it holds where no counter is removed while a request under way is still behind its hour |
| SignInOverrun.StraddledHourBreaksTheCap | backend/src/auth/magic-link/magic-link.service.ts:111-120 | under every setting there is a run that mails three caps where the cap allows two: one request straddles an hour's end by one millisecond |
| SignInTheorems.DeletedAccountsAreTurnedAway | backend/src/auth/magic-link/magic-link-account-creation.ts:72-86 | whichever read settles a call on an existing account, on the straight path or after a lost race, that account was not deleted |
| SignInInvariants.ProcFactsStay | backend/src/auth/magic-link/magic-link.service.ts:168-218 | whatever other calls do meanwhile, what a call has captured across its awaits stays true |
| SignInSteps.ProcStepKeeps | backend/src/auth/magic-link/magic-link.service.ts:106-267 | a step of any call keeps all store rules, leaves the call what it relies on, and takes only a link nobody has taken |
| SignInSteps.StepKeeps | backend/src/auth/oauth/oauth.service.ts:222-311 | every step of a run keeps the whole invariant, and accounts, addresses and spent links only grow |
| SignInAlone.RequestAlone | backend/src/auth/magic-link/magic-link.service.ts:106-145 | every request counts once and stores one new link with its expiry and nonce, already spent exactly when the account is deleted or the address has no room in its hour |
| SignInAlone.NativeRequestAlone | backend/src/auth/native/lifecycle/native-email-link-mail.service.ts:67-76 | a request of the native app counts once in the same hour and is under the cap if and only if there is room |
| SignInAlone.VisitAlone | backend/src/auth/magic-link/magic-link.service.ts:160-267 | alone, a visit signs in exactly when the link is unspent and unexpired, a person confirmed or the link is back home, and the account is not deleted or may be created; it asks to confirm exactly when only the grounds are missing, and every failure is the policy's refusal or the one answer for an invalid link |
| SignInAlone.ResolvesAlone | backend/src/auth/magic-link/magic-link-account-creation.ts:33-88 | from a spent link, sign-in completes exactly when the account is not deleted, or there is none, creation is allowed and no claim is live; else the account table is unchanged |
| SignInAlone.LostRaceSettles | backend/src/auth/magic-link/magic-link-account-creation.ts:67-87 | a call whose address got an account after it looked signs in to that account, which is then verified, or fails when it was deleted |
| SignInAlone.ProviderAlone | backend/src/auth/oauth/oauth.service.ts:205-311 | alone, a provider sign-in is let in exactly when the address is vouched for and its identity, or else its verified address, or else a new account may be; it then resolves to that account, and otherwise nothing changes and the failure told is the one that applies |
| SignInServer.Server.Continue | backend/src/auth/magic-link/magic-link.service.ts:160-218 | letting any one call run to its next await keeps the whole invariant |
| MailCounters.TryRecord | backend/src/auth/services/mail/mail-counter.service.ts:41-72 | of the mails granted for the address while it runs, all but the others' are its own, one when it answers yes and none when no; it refuses only when a counter was there, another request was granted a mail, or a guess inserted the row |
| MailCounters.GuessMovesNoWindow | backend/src/auth/persistence/mongo/mongo-code-guesses.ts:58-74 | a guess at a code shares the counter's row: it moves no mail and no window of a stored row and never shortens its retention, and inserts a row without mails where there is none |
| MailCounters.GuessCountsOnTheRow | backend/src/auth/persistence/mongo/mongo-code-guesses.ts:29-74 | a guess counts after those the row remembers and keeps the row for its memory; a refused one changes nothing; a row without a start gets the long-ended window |
| MailCounters.ForgetStartsAnew | backend/src/auth/persistence/mongo/mongo-code-guesses.ts:120-134 | after a right code the next guess counts as the first and the mails are as they were |
| MailCounters.OpenNeverReplaces | backend/src/auth/pending-codes/mail-counter.store.ts:49-57 | an insert counts only where no row is stored and leaves a stored one alone |
| MailCounters.SlotsCountUp | backend/src/auth/magic-link/persistence/mongo/mongo-magic-link.store.ts:40-69 | of the sign-in requests of one moment the n-th counts as the n-th of the window its first one started |
| MailCounters.SlotCountsInItsWindow | backend/src/auth/magic-link/persistence/mongo/mongo-magic-link.store.ts:40-69 | inside its window a request counts one more and moves nothing; from the window's end on it is the first of the next |
| MailCounters.WindowIsTheLonger | backend/src/auth/constants/registration.ts:71-76 | the window is the code's lifetime, or fifteen minutes when that is longer |
| MailCounters.BackfillExpiry | backend/migrations/20261009000001-mail-counter-expiry.js:12-26 | gives an expiry to exactly the counters without one, at their window's start or the present plus an hour |
| MailCounters.WindowIsUnderTheCeiling | backend/src/auth/constants/registration.ts:51-76 | for every lifetime that may be configured, the mail window lies between fifteen minutes and the hour the migration adds |
| MailCounters.MigratedCounterIsKept | backend/migrations/20261009000001-mail-counter-expiry.js:15-26 | after the migration a legacy counter's retention covers its window exactly when the window's start was stored |
| MailTries.StartlessCounterWaitsForCleanup | backend/migrations/20261009000001-mail-counter-expiry.js:15-26 | a full counter without a start refuses for ever until cleanup removes it, so there cleanup does change the answer |
| MailTries.CleanupShowsUnlessKept | backend/src/auth/pending-codes/mail-counter.store.ts:31-33 | and only then: for such calls a started counter is kept until its window is over if and only if no cleanup and number of tries shows a difference |
| MailCleanup.CleanupUnderACallExactly | backend/src/auth/services/mail/mail-counter.service.ts:48-69 | a cleanup between the statements of a call leaves its answer alone if and only if it does not take the call's counter or the call could still count on it |
| MailCleanup.FullCounterCleanedUnderACall | backend/src/auth/services/mail/mail-counter.service.ts:48-66 | a call that finds its counter full just before the window ends, with the cleanup at the end falling before its next look, is allowed where it would be refused without cleanup |
| MailCleanup.OverlappingCallsShowARemoval | backend/src/auth/services/mail/mail-counter.service.ts:48-69 | two calls that overlap after a counter long over was removed: the first is refused and the second allowed, where with the counter the first is allowed, and the second too when the limit is two or more |
| MailCleanup.RemovalShowsExactly | backend/src/auth/pending-codes/mail-counter.store.ts:27-33 | over calls that may overlap, taking a counter can be told by some answer if and only if there was one to take |
| MailCleanup.GuessUnderACallExactly | backend/src/auth/services/mail/mail-counter.service.ts:48-69 | a guess between the statements of a call leaves its answer alone if and only if it inserts no row or the call can still count on the row it inserts |
| MailCleanup.GuessAfterCleanupRefusesACall | backend/src/auth/services/mail/mail-counter.service.ts:48-61 | the only call of an address whose counter was over and removed is refused when a guess inserts the row between its first two statements; without the cleanup it is allowed |
| MailCalls.FinishIsTry | backend/src/auth/services/mail/mail-counter.service.ts:48-71 | the statements of a call with nothing between them are the whole call at one moment |
| MailOneAtATime.CleanupChangesNoAnswerOneAtATime | backend/src/auth/services/mail/mail-counter.service.ts:41-72 | with every statement a step of its own, and guesses, time and other addresses anywhere between, an address's answers are the same with cleanup and without when its calls come one at a time, cleanup takes no counter a call is between statements on, and no guess inserts the row under a call that could not count on it |
| MailCap.WindowsOverlapExactlyWhenBackdated | backend/src/auth/services/mail/mail-counter.service.ts:45-66 | over every interleaving of calls, guesses, cleanup and time, two windows of an address overlap if and only if one was started where no row had a window, by an insert or on a row a guess had inserted, stamped before the end of the window before it |
| MailCap.CapHoldsUnlessBackdated | backend/src/auth/services/mail/mail-counter.service.ts:41-72 | in every run without such a window, at most `limit` mails are granted for each window length begun |
| MailCap.CapHoldsWhenNoneRemovedEarly | backend/src/auth/services/mail/mail-counter.service.ts:41-72 | a cleanup job can keep the cap: it holds, and no window is backdated, where no counter is removed while a call stamped inside its window is under way |
| MailCap.CapWithOverlap | backend/src/auth/services/mail/mail-counter.service.ts:41-72 | in every run whatever, at most `limit` mails are granted for each window length begun and for each window length by which windows overlap |
| MailCap.CapHoldsForPromptCalls | backend/src/auth/services/mail/mail-counter.service.ts:45-66 | when no call starts a window later than a given time after it read the clock, the cap holds for windows shorter by that time |
| MailOverrun.StraddledWindowBreaksTheCap | backend/src/auth/services/mail/mail-counter.service.ts:45-66 | under every rule there are runs that grant three limits where the cap allows two: one call straddles a window's end by one millisecond and then inserts the row, or counts on the row a guess has inserted |
| EmailCodes.EmailCodeStore.Put | backend/src/auth/pending-codes/email-code.store.ts:63-64 | stores the owner's code in place of the one before, spent only when it says so, keeps the wrong guesses and touches no other owner |
| EmailCodes.EmailCodeStore.RecordWrongGuess | backend/src/auth/pending-codes/email-code.store.ts:68-75 | counts one guess, spends the code at the limit, and answers nothing where there is no code |
| EmailCodes.StoredCodeIsAcceptedExactly | backend/src/auth/pending-codes/email-code.store.ts:63-85 | after any run that does not replace it, a stored code is accepted if and only if it is the one presented, was not stored spent, has not expired or been spent, its owner's wrong guesses before and since are under the limit, and none of them reached its own |
| EmailCodes.StoredCodeIsAcceptedUnderOneLimit | backend/src/auth/pending-codes/email-code.store.ts:63-85 | with one limit for all guesses, it is accepted if and only if it is the one presented, unspent, unexpired and under the limit |
| EmailCodes.PurgeTakesTheEnded | backend/src/auth/pending-codes/email-code.store.ts:56-61 | cleanup takes a row if and only if its owner's end has come |
| EmailCodes.EachCodeIsSpentOnce | backend/src/auth/pending-codes/email-code.store.ts:77-85 | in any run an owner's spends never exceed the codes stored for it |
| EmailCodes.GuessesBelongToTheOwner | backend/src/auth/pending-codes/email-code.store.ts:56-61 | while the owner lives its count is exactly its wrong guesses, through every replacement and cleanup |
| EmailCodes.NoSpendAtTheLimit | backend/src/auth/pending-codes/email-code.store.ts:77-85 | once the count has reached the limit, no later spend succeeds while the owner lives |
| EmailCodes.CleanupSpendsNothing | backend/src/auth/pending-codes/email-code.store.ts:56-61 | a run with cleanup at any moments spends as many codes of each owner as the run without it |
| EmailCodes.CleanupChangesNoSpend | backend/src/auth/pending-codes/email-code.store.ts:56-61 | every spend is answered alike with and without the cleanup before it |
| CodeGuesses.FirstGuessIsGuessOnNothing | backend/src/auth/pending-codes/code-guesses.ts:42-56 | the state a first guess is stored as is what the general counting statement leaves on no row |
| CodeGuesses.ExpiredStateReadsAsNone | backend/src/auth/pending-codes/code-guesses.ts:18-22 | a state past its expiry is counted as no state, so a cleanup that was due when the guess read the clock decides nothing |
| CodeGuesses.RunningLockRefuses | backend/src/auth/persistence/mongo/mongo-code-guesses.ts:29-57 | while a lock runs, a guess is refused and changes nothing |
| CodeGuesses.LockEndsOnTime | backend/src/auth/pending-codes/code-guesses.ts:30-39 | a lock refuses every guess before its end and none from its end on |
| CodeGuesses.MemoryEndsOnTime | backend/src/auth/constants/registration.ts:93-97 | what a guess leaves is remembered for the memory after it or after its lock, and no longer |
| CodeGuesses.ClearedCountsAsNew | backend/src/auth/persistence/mongo/mongo-code-guesses.ts:120-134 | after a right code every guess counts as on an address that was never guessed at |
| CodeGuesses.FirstStateOutlivesItsLock | backend/src/auth/pending-codes/code-guesses.ts:42-56 | for every rule, a first state is not expired while its lock runs |
| CodeGuesses.LocksNeverShorten | backend/src/auth/persistence/mongo/mongo-code-guesses.ts:43-53 | each lock is at least as long as the one before and at most the longest |
| CodeGuesses.DeployedLockReachesADay | backend/src/auth/constants/registration.ts:83-105 | under the deployed rule the lock is a day exactly from level 7 on |
| CodeGuesses.EachLockDoubles | backend/src/auth/persistence/mongo/mongo-code-guesses.ts:40-69 | in a run without a lapse, the lock after n others lasts the base doubled n times, or as often as the highest level, and no longer than the longest |
| CodeGuesses.DeployedLockIsADayFromTheEighth | backend/src/auth/constants/registration.ts:85-97 | under the deployed rule a remembered lock lasts a day if and only if it is the eighth or a later one |
| CodeGuesses.RunsStaySound | backend/src/auth/persistence/mongo/mongo-code-guesses.ts:58-74 | over any run of guesses and clears the stored state stays within the rule and outlives its lock |
| CodeGuesses.LocksExactlyByStreak | backend/src/auth/persistence/mongo/mongo-code-guesses.ts:39-53 | from a clean count, a run locks if and only if some streak of remembered guesses reaches the limit |
| CodeGuesses.LapsesAllowAnyNumber | backend/src/auth/constants/registration.ts:93-97 | guesses a memory apart are counted in any number without a lock |
| CodeGuesses.FewerThanLimitBetweenLocks | backend/src/auth/constants/registration.ts:78-83 | without lapses fewer than the limit are counted before the one that locks |
| LinkedAccounts.UpKeepsAndAdds | backend/migrations/20260904000002-linked-accounts.js:67-102 | for every user: the accounts there were stay in front, and each of the three providers with an id and no account gets exactly one behind them, in order, with that id as text and the user's own stamp, else the present |
| LinkedAccounts.TextIsReadable | backend/migrations/20260904000002-linked-accounts.js:84 | the text of an id is the text itself, or the decimal digits the number reads back from |
| LinkedAccounts.BatchIsPerUser | backend/migrations/20260904000002-linked-accounts.js:41-47 | writing one batch is applying the per-user change to the users of the batch |
| LinkedAccounts.Up | backend/migrations/20260904000002-linked-accounts.js:50-127 | for any number of users and any cursor order, the batched loop is the plain per-user change, every user is moved as `UpKeepsAndAdds` says, and the count is the users selected |
| LinkedAccounts.Down | backend/migrations/20260904000002-linked-accounts.js:130-189 | rolls every user back, or stops at the first user the legacy fields cannot hold, with exactly the whole batches before it written |
| LinkedAccounts.DownRestores | backend/migrations/20260904000002-linked-accounts.js:143-181 | for every user: each id field becomes its provider's last account's, or stays; the list is email, for who signs in by it, and then the accounts' providers in order |
| LinkedAccounts.SupportedMeans | backend/migrations/20260904000002-linked-accounts.js:146-150 | a user can be rolled back if and only if every account is of one of the three providers or names none |
| LinkedAccounts.RefusalChangesNothingInFirstBatch | backend/migrations/20260904000002-linked-accounts.js:146-186 | a refused rollback has changed nothing if and only if the refused user is among the first 500 |
| LinkedAccounts.RefusalsChangeNothingExactly | backend/migrations/20260904000002-linked-accounts.js:137-186 | a table with a linked user that cannot be rolled back is left alone by every refusal, in whatever cursor order, if and only if fewer than 500 linked users can be rolled back |
| LinkedAccounts.RefusalInASmallTable | backend/migrations/20260904000002-linked-accounts.js:146-186 | with at most 500 linked users a refused rollback changes nothing |
| LinkedAccounts.DownUndoesUpExactly | backend/migrations/20260904000002-linked-accounts.js:67-188 | for a user without linked accounts, each id field comes back exactly when it was absent, a non-empty string, or `null` on a user that was not selected; `linkedProviders` is email when that is the auth provider and then the linked providers in order |
| LinkedAccounts.UpIsSupported | backend/migrations/20260904000002-linked-accounts.js:146-157 | what `up` writes is refused by `down` only when it was unsupported before |
| ObjectIdReferences.RemoveStringTwins | backend/migrations/20261002000001-convert-string-objectid-references.js:30-44 | deletes, in any order, exactly the string rows whose ObjectId twin is there, and counts them |
| ObjectIdReferences.TwinsTakeNoKey | backend/migrations/20261002000001-convert-string-objectid-references.js:28-44 | after that, every key is still there and no other |
| ObjectIdReferences.ConvertReference | backend/migrations/20261002000001-convert-string-objectid-references.js:49-71 | fails exactly on two string rows of a client that differ only in letter case and have no ObjectId twin; keeps every key, keeps (userId, clientId) unique after every row, and on success leaves no convertible string |
| ObjectIdReferences.ClashSurvivesTwins | backend/migrations/20261002000001-convert-string-objectid-references.js:52-66 | removing twins neither makes nor resolves a clash, and leaves no twin |
| ObjectIdReferences.ConversionKeepsTheNumber | backend/migrations/20261002000001-convert-string-objectid-references.js:3-26 | a text of 24 hex digits in either case becomes the id of the number it writes, two texts become one id if and only if they write one number, and anything else stays |
| MessageTrees.MergeMessageTrees | frontend/src/i18n/load-messages.ts:16-30 | the loop over the overlay's entries, in any order, computes the deep merge |
| MessageTrees.OverlayWinsByPath | frontend/src/i18n/load-messages.ts:16-30 | looking a path up in a merge finds the overlay's text where the overlay decides and the base's elsewhere |
| MessageTrees.MergeIsAssociativeExactly | frontend/src/i18n/load-messages.ts:82-100 | the two groupings of three catalogues agree if and only if they group freely |
| MessageTrees.GroupingCanMatter | frontend/src/i18n/load-messages.ts:21-28 | a leaf between two subtrees makes the groupings differ |
| MessageTrees.FoldOfGroup | frontend/src/i18n/load-messages.ts:96-99 | merging a group folded beforehand is folding straight through it, when the shapes agree |
| MessageTrees.LoadMessagesIsOneFold | frontend/src/i18n/load-messages.ts:51-100 | when no file puts a leaf where another puts a subtree, the nested grouping is one left-to-right fold of all files |
| RoleRules.SlugIsOneScan | shared/core/src/role-rules.ts:31-38 | trimming, stripping, dashing and collapsing are together one left-to-right scan |
| RoleRules.RoleSlugIsSlug | shared/core/src/role-rules.ts:31-38 | a code has only a-z, 0-9 and hyphens, and no two hyphens meet |
| RoleRules.SlugKeepsEveryLetter | shared/core/src/role-rules.ts:31-38 | the letters and digits of a code are those of the lower-cased name, all of them and in order |
| RoleRules.LowerCaseIs | shared/core/src/role-rules.ts:33 | lower-casing gives a Latin capital the small letter at its place in the alphabet and leaves the rest of ASCII |
| RoleRules.ProblemsMean | shared/core/src/role-rules.ts:46-53 | which names are refused for which reason, each problem told only when no earlier one applies |
| RoleRules.RoleSlugIsIdempotent | shared/core/src/role-rules.ts:31-38 | the code of a code is that code |
| RoleRules.AcceptedNameMakesAcceptedSlug | shared/core/src/role-rules.ts:46-53 | the code of an accepted name is 2 to 50 characters long and is itself an accepted name |
| PasswordBytes.PasswordByteLength | shared/core/src/password-rules.ts:21-31 | the loop returns the length of the UTF-8 encoding (section 3 of RFC 3629) of the password with lone surrogates replaced |
| PasswordBytes.IsPasswordWithinByteLimit | shared/core/src/password-rules.ts:34-39 | true exactly when that encoding fits the limit |
| PasswordBytes.DecodeUndoesEncode | shared/core/src/password-rules.ts:23-29 | decoding the encoding gives back the scalar values, so the lengths counted are those of a real encoding |
| PasswordBytes.FirstCodeReadsUtf16 | shared/core/src/password-rules.ts:23-24 | the character read first is a surrogate pair's code point exactly when a pair stands there, and else the unit itself |
| PasswordBytes.ByteLengthBounds | shared/core/src/password-rules.ts:21-31 | between one and three bytes for every code unit |
| PasswordBytes.ConcatenationAddsBytes | shared/core/src/password-rules.ts:21-31 | bytes add up under concatenation, less exactly two when a surrogate pair forms at the join |
| PasswordBytes.PrefixHasNoMoreBytes | shared/core/src/password-rules.ts:21-31 | a prefix never counts more bytes than the whole |

## Left out

- Network, mail, cookies, hashing and random tokens: hashes and tokens are numbers, a new one was never used before.
- Sessions and second factors: the session a browser presents is an answer from outside; completing a sign-in is one step that succeeds.
- The confirmation of an email change, which moves an account to the address it claimed: in the sign-in runs a claim is made and lapses, and no account changes its address.
- MailCounters.TryRecord: does not promise that a refusal follows a mail, because a guess at a code inserts the row it is refused for.
- Clocks within one window of 1970, where the window of a row that a guess inserts is not over yet.
- The settings pages that link and unlink a provider, and account removal: in the sign-in runs an identity, once attached, is not detached.
- The canonical form of addresses in email codes and sign-in: the addresses handed over are taken to be in their stored form.
- A first sign-in whose identity was attached to the same account meanwhile: modelled as a write that succeeds; the PostgreSQL table refuses it as linked elsewhere.
- Transactions whose outcome is unknown: a commit shows everything or leaves nothing and runs again. The snapshot a unit of work reads is the moment it writes the claim row.
- The clock going backwards: the time of each step in a run is not before the last one's, and a cleanup's cutoff is not ahead of it.
- Request metadata of a link: address of the caller, user agent, redirect, language.
- MailTries.CleanupShowsUnlessKept: takes each call at one moment and no guess between them, because what a cleanup between its statements does is stated exactly by `MailCleanup.CleanupUnderACallExactly`.
- Errors of native calls outside the four conditions: they read as unavailable.
- Two calls of one device key at once: the package runs them one at a time.
- The conversions, indexes and console lines around each migration, and the transaction retries of the ledger migration.
- Cursors that see their own writes: a cursor yields each matching row of the starting table once, in any order.
- JavaScript's inherited property names (`constructor`, `__proto__`) as provider names or catalogue keys, and `null` entries among linked accounts.
- Lower-casing of letters outside ASCII in role names, where the pattern refuses the name anyway, and a trailing newline at the pattern's end.
- Guards, controllers, forms, screens, permissions and the listing filter: each is settled by reading one branch.
