# Verification of the WhatsApp jobs assistant

A Dafny model of the parts of the assistant that hold state: the credit, payment
and subscription repositories, their Redis mirror, the registration form's write
section, employer form tokens, the reply humanizer, the translation cache and
`translate_many`, the reverse glossary, the agent graph with its tool router, and
the pager of the role list. `dafny verify dfyconfig.toml` checks everything.

How it is laid out:

- `Credits`, `Billing`, `BillingDb`: floored credit arithmetic, the billing tables
  with one step per repository call, and the repositories as methods that update
  the tables in place and roll back. Every `BillingDb.Db` method is proved to be one
  `Billing.Step`; runs of steps are what the theorems are about. A call can be a
  dry run, can raise part-way, and can clash on a primary key.
- `BillingEffects`: each call in the terms of its SQL, exactly when it takes effect, which
  rows it touches and that it leaves every other row alone.
- `LedgerAudit`, `WalletHistory`, `Retries`, `EmployerPhones`, `Subscriptions`: theorems
  over all runs.
- `RedisWallet`: the Redis-backed employer record.
- `FormTokens`, `Registration`: concurrent requests as processes interleaved at every
  await, with time passing in between; the handlers' own code, in place, is proved to
  be a run of the same steps.
- `PyText`, `Packing`, `Humanizer`: Python string operations, greedy packing, bubbles.
- `Lru`, `Translation`, `Glossary`: the cache, the memoised translation, the way back.
- `ToolRouter`, `AgentTurn`, `Pager`, `Phones`, `Options`.

Where the code does less than its documentation says, the model follows the code and
says exactly how far the promise goes, with a run that breaks it where one is named:

- Negative grants or a negative need break the ledger audit
  (`LedgerAudit.NegativeNeedBreaksAudit`); `LedgerAudit.StepAudit` says exactly which
  calls keep it.
- `claim_due_renewal` with a cycle below one day never stops handing out credits
  (`Subscriptions.CycleBelowOneNeverStops`); with cycles of a day or more it is bounded
  (`Subscriptions.RenewalBound`).
- `cancel` joins the plan catalog, so a subscription whose plan row is gone cannot be
  cancelled (`Subscriptions.DroppedPlanCannotBeCancelled`, exactly when:
  `Subscriptions.CancelStopsBenefits`).
- `EmployerRepository.create` checks the phone in one session and inserts in another:
  two creates of one number, with and without its country code, can both insert
  (`EmployerPhones.CountryCodeRaces`), and a run
  leaves one row per number exactly when no insert of a number falls between another
  create's check and its insert (`EmployerPhones.OneEmployerPerPhoneIff`).
- The mirror's `activate_subscription` has no floor (`RedisWallet.SubscribeSimulatesIff`).
- The registration lock compares all digits, the existence check only the last ten, so
  two spellings of a number register twice (`Registration.TwoLocksTwoRows`); and a
  holder that outlives its lock writes a second row
  (`Registration.LateHolderDuplicates`). `Registration.RegistersOnceIff` has the exact
  condition for both; for one spelling the promise needs no more than timely holders and
  lookups that see (`Registration.DigitsRegisterOnce`). A failed lookup is taken as "not there" and costs a row
  (`Registration.BlindWriteDuplicates`, exactly when: `Registration.OneRowIffNoBlindWrite`).
- `ensure_employer_token` extends the pointer last, so a live pointer can outlive its
  token's identity (`FormTokens.SlowRequestOutlives`); `FormTokens.PointerResolvesIff`
  says exactly when a live pointer resolves.
- `max_chunks < 1` caps nothing, and `max_chars < 1` never returns for a text that is
  not blank (`Humanizer.CapHoldsIff`, `Humanizer.SplitReturnsIff`).
- The batched call keeps an answer as it came, the single call strips it, so the memo
  is transparent only up to surrounding white space (`Translation.TwoPaths`, exactly
  when: `Translation.MemoDependsOnPathIff`).
- The role list documents a next page, but the runtime never sends it and ignores the
  offset of a tapped `more:` id: a category's first eight jobs come again
  (`Pager.NinthIsNeverShown`), and taps show every job exactly when there are at most
  eight (`Pager.TapsShowAllIff`).
- A pager id over 200 characters or without a category does not come back
  (`Pager.CursorRoundTripsIff`).

Assumed throughout: each database transaction is atomic; each Redis command is atomic;
a uuid just minted is new where a lemma asks for it.

## Model

| member | source | states |
|---|---|---|
| Credits.ClosedForm | app/db/repositories.py:1309-1321 | a floored counter ends at the largest of b0 + S(n) and the S(n) - S(k), and nowhere else |
| Credits.FloorIsSlack | app/db/repositories.py:1293-1296 | the floor never takes credit away, and adds none exactly when no running balance went below zero |
| WalletHistory.ApplyDeltaIsShift | app/db/repositories.py:1298-1321 | get-or-create behaves as an update from zero and the same wallet is found next time |
| WalletHistory.OthersKeepTheirs | app/db/repositories.py:1290-1321 | a delta to one employer leaves every other employer's balances alone |
| WalletHistory.StepMoves | app/db/repositories.py:1118-1383 | each call moves each employer's wallet by exactly the amounts it names, and not at all unless it commits |
| WalletHistory.WalletIsFlooredCounter | app/db/repositories.py:1290-1321 | over any run every bucket is the floored counter of the committed deltas |
| WalletHistory.RunsNeverLoseCredit | app/db/repositories.py:1290-1321 | over any run balance >= start + credits - debits, with equality exactly when no prefix overdrew |
| LedgerAudit.ChargeAudit | app/db/repositories.py:1260-1277 | a charge keeps the ledger an exact replay of the wallets if and only if every amount not written as a row leaves its bucket alone |
| LedgerAudit.StepAudit | app/db/repositories.py:1323-1382 | one call keeps the audit if and only if it did not commit or its amounts were clean |
| LedgerAudit.NegativeNeedBreaksAudit | app/db/repositories.py:1262-1278 | on empty tables a job posted for a need of -1 adds a credit that no row explains |
| LedgerAudit.WelcomeAudit | app/db/repositories.py:1140-1156 | the welcome wallet and its row agree |
| LedgerAudit.PlanAudit | app/db/repositories.py:1735-1752 | activation and renewal grants keep the audit exactly for clean amounts |
| LedgerAudit.LedgerAlwaysAudits | app/db/repositories.py:1735-1825 | in every reachable state replaying the ledger gives each recorded balance and ends at each live one |
| LedgerAudit.AuditFromEmpty | app/db/repositories.py:1735-1825 | so does every state reached from empty tables |
| Retries.MarkedIsNoOp | app/db/repositories.py:1256-1261 | a call whose key is spent changes nothing |
| Retries.CommitMarks | app/db/repositories.py:1346-1354 | a committed call always leaves the marker its retry will find |
| Retries.RetriesAreInvisible | app/db/repositories.py:1338-1354 | a run ends in the same tables as the run that keeps, of the keyed calls, only those that committed |
| Retries.KeyedCallCommitsIff | app/db/repositories.py:1338-1354 | with disjoint reference ids, a keyed call that could take effect commits if and only if no earlier call with its key did: what is left out is a retry |
| Retries.EachKeyOnce | app/db/repositories.py:1701-1714 | the run without retries holds every payment id, job id and payment row at most once |
| Retries.UnkeyedPurchaseRepeats | app/db/repositories.py:1342-1376 | a purchase without a payment id moves the wallet by the whole grant and adds rows, every time |
| EmployerPhones.OneEmployerPerPhoneIff | app/db/repositories.py:1103-1138 | over any interleaving of phone checks and inserts, one row per last ten digits if and only if no committed insert was overtaken by another insert of its number since its check |
| EmployerPhones.StepPhones | app/db/repositories.py:1127-1138 | a call keeps the numbers distinct if and only if it is not an overtaken insert |
| EmployerPhones.RacingCreates | app/db/repositories.py:1127-1138 | two checks before two inserts write two rows of one number, in whatever spellings |
| EmployerPhones.CountryCodeRaces | app/api/routes/employer.py:258-264 | with and without a country code the digits differ, so the form's own lock does not stop it |
| Billing.OnlyCommittedWrites | app/db/repositories.py:1278-1281 | a call that does not commit leaves every billing table as it was |
| Subscriptions.StepSound | app/db/repositories.py:1715-1734 | every call keeps at most one ACTIVE row per employer and the terms of every row |
| Subscriptions.Lifecycle | app/db/repositories.py:1589-1601 | in every reachable state an employer has at most one ACTIVE subscription, and a row that left ACTIVE never changes again |
| Subscriptions.LifecycleFromEmpty | app/db/repositories.py:1715-1734 | from empty tables two ACTIVE rows of one employer are one row |
| Subscriptions.JustExpiredOnce | app/db/repositories.py:1631-1644 | just_expired is true at most once per subscription under any interleaving of reads and flips |
| Subscriptions.NoticeIsLate | app/db/repositories.py:1616-1644 | a row is only flipped after its end date |
| Subscriptions.EntitledIff | app/db/repositories.py:1616-1655 | the read answers active exactly for the unexpired ACTIVE row |
| Subscriptions.CancelStopsBenefits | app/db/repositories.py:1661-1686 | cancelling succeeds exactly when the plan row exists and then nothing is active or due |
| Subscriptions.DroppedPlanCannotBeCancelled | app/db/repositories.py:1661-1686 | once its plan row is gone, any ACTIVE subscription stays ACTIVE and its cancel is refused |
| Subscriptions.RenewalBound | app/db/repositories.py:1760-1793 | n >= 1 claims with cycles of at least c days imply n * c < days, for any callers and clock |
| Subscriptions.CounterUnderFixedCatalog | app/db/repositories.py:1776-1780 | both monthly counters, credits and boosts, equal monthly * (1 + n) under a fixed catalog |
| Subscriptions.CycleBelowOneNeverStops | app/db/repositories.py:1780-1784 | with a cycle below one day any number of claims succeeds at one instant |
| Subscriptions.VerifiedOnce | app/db/repositories.py:1478-1586 | one payment row per order, and at most one verify of it reports an update |
| BillingEffects.CheckPassesIff | app/db/repositories.py:1103-1116 | a create passes its phone check exactly when the phone is empty or no employer has its last ten digits |
| BillingEffects.CreateCommitsIff | app/db/repositories.py:1118-1161 | an employer is inserted exactly when its check stands and no minted id is taken; with a welcome credit come the wallet and its row, and nothing else changes |
| BillingEffects.PostJobCommitsIff | app/db/repositories.py:1235-1283 | a job post takes effect exactly when the job is new and a new wallet can open; it adds that job and one debit row of the need and the balance after it |
| BillingEffects.PurchaseCommitsIff | app/db/repositories.py:1323-1382 | a purchase takes effect exactly when it grants something and no ledger row has its payment id; action, amounts, balances and reference of every row written are spelt out |
| BillingEffects.RenewalRecords | app/db/repositories.py:1795-1825 | mirroring a renewal always takes effect and writes its unlock and boost rows |
| BillingEffects.OrderCommitsIff | app/db/repositories.py:1478-1514 | an order gets its PENDING row exactly when employer and order are named and neither the order nor the row id is there |
| BillingEffects.VerifyCommitsIff | app/db/repositories.py:1561-1586 | a verify reports an update exactly when the order is named and has a PENDING row; that order's PENDING rows become SUCCESS and every other row is the very row it was |
| BillingEffects.ActivateCommitsIff | app/db/repositories.py:1688-1758 | an activation takes effect exactly when employer and plan are named, its key is unused and no minted id is taken; its grant rows are spelt out |
| BillingEffects.ActivatedRows | app/db/repositories.py:1715-1734 | it leaves one new ACTIVE row that ends days * 86400 ticks later; the employer's earlier ACTIVE row is EXPIRED, every other row is the very row it was |
| BillingEffects.CancelCommitsIff | app/db/repositories.py:1661-1686 | cancelling takes effect exactly when the employer has an ACTIVE row whose plan exists; that row alone changes, to CANCELLED and not renewing |
| BillingEffects.RenewalClaimedIff | app/db/repositories.py:1760-1793 | row i is claimed exactly when the employer is named and i is its ACTIVE row, its plan exists, its end lies ahead and last grant plus the whole cycle is past; it gets this moment and the month's credits, no other row changes |
| BillingEffects.ClaimIsOfARow | app/db/repositories.py:1774-1793 | whatever is claimed is a row of the table |
| BillingEffects.ReadAnswers | app/db/repositories.py:1616-1630 | the entitlement read is inactive exactly when the employer has no ACTIVE row, and touches no table |
| BillingEffects.FlipExpiresIff | app/db/repositories.py:1631-1644 | the flip says just_expired exactly when the row it read is still ACTIVE, and expires that row alone |
| BillingEffects.DryRunsAndFaults | app/db/repositories.py:1278-1281 | a dry run and an exception leave every table as it was |
| BillingDb.Db.ApplyDelta | app/db/repositories.py:1290-1321 | the in-place update is the specified shift |
| BillingDb.Db.ExistsByPhone | app/db/repositories.py:1103-1116 | the phone check is one step of its own session |
| BillingDb.Db.CreateEmployer | app/db/repositories.py:1133-1161 | the insert with its welcome wallet is one step, rolled back whole on any failure |
| BillingDb.Db.PostJobWithBilling | app/db/repositories.py:1235-1283 | posting a job with its debit is one step |
| BillingDb.Db.RecordPurchase | app/db/repositories.py:1323-1382 | a purchase with its rows is one step |
| BillingDb.Db.Activate | app/db/repositories.py:1688-1758 | activation with retirement and grant is one step |
| BillingDb.Db.ClaimDueRenewal | app/db/repositories.py:1760-1793 | the guarded update is one step; which row it claims and when: BillingEffects.RenewalClaimedIff |
| BillingDb.Db.RecordRenewalGrant | app/db/repositories.py:1795-1825 | mirroring a renewal is one step |
| BillingDb.Db.Cancel | app/db/repositories.py:1661-1686 | cancelling is one step |
| BillingDb.Db.ReadEntitlement | app/db/repositories.py:1616-1630 | the entitlement read is one step |
| BillingDb.Db.FlipEntitlement | app/db/repositories.py:1631-1644 | the guarded flip is one step |
| BillingDb.Db.CreateOrder | app/db/repositories.py:1478-1514 | writing the pending payment row is one step |
| BillingDb.Db.MarkSuccess | app/db/repositories.py:1561-1586 | the verify transition is one step; which rows it moves and when: BillingEffects.VerifyCommitsIff |
| RedisWallet.GrantSimulates | app/chatbot/memory.py:664-682 | grant_credits moves the mirror exactly as the live wallet |
| RedisWallet.SubscribeSimulatesIff | app/chatbot/memory.py:738-756 | activate_subscription agrees with the live wallet exactly when it would not overdraw |
| RedisWallet.MirrorFollowsLive | app/chatbot/memory.py:655-682 | from equal balances the same events keep mirror and live wallet equal, further seedings included once every bucket is set |
| RedisWallet.SeedMakesEqual | app/chatbot/memory.py:612-638 | a blank record seeded with the live balances ends equal to them |
| RedisWallet.SeededMirrorFollowsLive | app/chatbot/memory.py:612-682 | so a mirror seeded from the live wallet shows it after any further events |
| RedisWallet.LedgerIsTail | app/chatbot/memory.py:587-600 | the Redis ledger is the last min(100, n) rows of the full history |
| RedisWallet.NewestRowShowsBalance | app/chatbot/memory.py:587-600 | with descriptions, each bucket's newest retained row shows its balance |
| RedisWallet.SilentChange | app/chatbot/memory.py:677-680 | without one, exactly when the bucket has no row or did not move |
| RedisWallet.SeedingHappensOnce | app/chatbot/memory.py:612-638 | a second seeding changes nothing and never touches a set bucket |
| RedisWallet.GrantRecords | app/chatbot/memory.py:664-682 | a grant floors each bucket at zero and, with a description, writes one row per changed bucket: credit or debit by sign, absolute amount, balance after |
| RedisWallet.SubscribeRecords | app/chatbot/memory.py:738-756 | a subscription is stored, its grants added without a floor, each with its row |
| RedisWallet.EnsureRecords | app/chatbot/memory.py:612-638 | only the first seeding of a blank record writes rows: the welcome row, or an opening row per bucket seeded above zero |
| RedisWallet.EmployerRecords.EnsureWallet | app/chatbot/memory.py:612-638 | the loop over the buckets seeds as specified and touches no other record |
| RedisWallet.EmployerRecords.GrantCredits | app/chatbot/memory.py:664-682 | the loop over the buckets grants as specified; an unknown employer is left alone |
| RedisWallet.EmployerRecords.AdjustJobCredits | app/chatbot/memory.py:655-662 | adjusting is granting the job bucket only |
| RedisWallet.EmployerRecords.ActivateSubscription | app/chatbot/memory.py:738-756 | the subscription and its grants are recorded as specified |
| Registration.StepExclusive | app/api/routes/onboard.py:349-372 | at most one covered holder of a lock is in the section, whatever the interleaving |
| Registration.RowsAccountedFor | app/api/routes/onboard.py:353-370 | every row beyond the first was written after a failed lookup that hid an existing one |
| Registration.OneRowIffNoBlindWrite | app/api/routes/onboard.py:353-366 | with one lock per number and timely holders, at most one row if and only if there was no such blind write |
| Registration.RegisteredAtMostOnce | app/api/routes/onboard.py:349-372 | with one lock per number, timely holders and lookups that see, at most one row, by all digits or by the last ten |
| Registration.DigitsRegisterOnce | app/api/routes/onboard.py:349-372 | with timely holders and lookups that see, at most one row for any non-empty digits, with no condition on locks |
| Registration.RegistersOnceIff | app/api/routes/onboard.py:345-372 | over all seeing runs whose holders finish within a limit, at most one row if and only if there is one submit, or one lock and a limit within the TTL |
| Registration.TwoLocksTwoRows | app/db/repositories.py:446-457 | from the start, two submits of one number under different locks both write, on time and seeing |
| Registration.LateHolderDuplicates | app/chatbot/memory.py:46-62 | from the start, a holder that may outlive the TTL writes beside the next one |
| Registration.BlindWriteDuplicates | app/api/routes/onboard.py:353-366 | from the start, a good write, a lapsed lock and a failed lookup end in two rows, on time: the first write sighted, the second blind |
| Registration.FailureFreesTheLock | app/api/routes/onboard.py:367-370 | after a failed write the next submit gets in |
| Registration.SuccessKeepsTheLock | app/api/routes/onboard.py:371-372 | after a successful write, until the TTL lapses, whatever runs, nobody is in the section under that lock and who tries is turned away |
| Registration.UndisturbedSubmitWritesIff | app/api/routes/onboard.py:349-372 | on any board, with its lock free, a lookup that answers and a write that succeeds, a submit adds its row if and only if no row has its last ten digits, and otherwise leaves the board as it was |
| Registration.LookupDecides | app/api/routes/onboard.py:353-362 | the lookup lets a submit on exactly when it fails or no row has its last ten digits |
| Registration.DifferentNumbersBothRegister | app/db/repositories.py:446-457 | two submits whose last ten digits differ both register |
| Registration.LockIsTakenForTwoMinutes | app/chatbot/memory.py:46-62 | a free lock is taken for 120 seconds; while it is held a submit for it ends |
| Registration.LocksAreByDigits | app/api/routes/onboard.py:350-351 | submits with digits compete for one lock exactly when all their digits agree |
| Registration.LocksWithoutDigits | app/api/routes/onboard.py:350-351 | submits without digits compete by conversation |
| Phones.DigitsAppend | app/db/repositories.py:446-457 | the characters 0 to 9 are kept, in order, and all others dropped |
| Phones.LastTenDigits | app/db/repositories.py:446-457 | the compared digits are the last ten, or all when there are no more |
| Registration.Server.MarkSeen | app/chatbot/memory.py:46-56 | the NX claim is the Acquire step of the protocol |
| Registration.Server.FindSeeker | app/api/routes/onboard.py:353-362 | the lookup with its swallowed exception is the Check step, and finds someone exactly when it answers and some row has the same last ten digits |
| Registration.Server.RegisterWithRetry | app/api/routes/onboard.py:67-83 | the retry loop is a run of Write steps, three at most, going on only past a saturated cluster; it adds its row exactly when one of the three lands |
| Registration.Server.HolderSection | app/api/routes/onboard.py:353-370 | from the lock on: writes exactly when the lookup failed or found nobody and an attempt lands, and gives the lock back exactly when no attempt landed |
| Registration.Server.WriteSection | app/api/routes/onboard.py:350-372 | the whole section is a run of the protocol that ends Finished; it writes if and only if the lock was free, the lookup failed or found no row with the last ten digits, and an attempt lands; what it leaves on its lock is spelt out |
| FormTokens.FwdKeyInjective | app/chatbot/memory.py:509-519 | forward keys of different employers never collide |
| FormTokens.FamiliesDisjoint | app/chatbot/memory.py:521-523 | the key families are disjoint and injective |
| FormTokens.TokensStayIsolated | app/chatbot/memory.py:758-784 | over any interleaving of the commands every stored identity, pointer, draft and answer stays with the employer its token was minted for |
| FormTokens.NoSharedToken | app/chatbot/memory.py:778-784 | requests that hold one token came from one employer |
| FormTokens.FreshTokenHasNoDraft | app/chatbot/memory.py:765-780 | a fresh token is new, has no draft under it, and does not resolve before its identity is written |
| FormTokens.PointerResolvesIff | app/chatbot/memory.py:779-796 | in every reachable state a live pointer resolves, to its own phone, exactly when some request wrote its token's identity less than the TTL ago |
| FormTokens.AnsweredTokenIsOwn | app/chatbot/memory.py:782-796 | an answered token resolves to its requester for the TTL from the write of its identity, and never to anyone else |
| FormTokens.PromptPointersResolve | app/chatbot/memory.py:779-784 | if no time passes between the commands of a request, every live pointer resolves whenever none is under way |
| FormTokens.SlowRequestOutlives | app/chatbot/memory.py:782-783 | a gap before the last command leaves a live pointer that resolves to nobody for exactly that long |
| FormTokens.PointerIsReusedIff | app/chatbot/memory.py:777-781 | a request that is not fresh takes the pointer's token exactly while the pointer is live, and else mints; a fresh one never reads |
| FormTokens.CommandsWrite | app/chatbot/memory.py:781-783 | minting, binding and extending write exactly their one key: the token, who asked, and the new expiry of a live pointer |
| FormTokens.DraftReadsBack | app/chatbot/memory.py:684-709 | a staged draft is read back, whatever runs meanwhile, until staged anew, cleared or the TTL has passed |
| FormTokens.FwdKeysEqualIff | app/chatbot/memory.py:509-519 | two requests share a pointer exactly when tenant and digits agree |
| FormTokens.ConversationMemory.EnsureEmployerToken | app/chatbot/memory.py:758-784 | the commands, with any waits between them, are a run of the specified steps; the answer is the token of the live pointer unless the request is fresh, and else the minted one |
| Packing.GreedyIsOptimal | app/agent/nodes/humanizer.py:49-55 | no contiguous grouping that fits uses fewer bubbles |
| Packing.GreedyIsGrouping | app/agent/nodes/humanizer.py:49-55 | greedy packing is itself such a grouping |
| Packing.GroupsAreEager | app/agent/nodes/humanizer.py:49-55 | a new bubble is started only when the next piece would not have fitted |
| Humanizer.SplittingLosesNothing | app/agent/nodes/humanizer.py:36-88 | with white space removed the bubbles are the text |
| Humanizer.BubblesFit | app/agent/nodes/humanizer.py:57-62 | bubbles are non-empty and all but a folded last one fit |
| Humanizer.CapHoldsIff | app/agent/nodes/humanizer.py:57-61 | the cap holds exactly for max_chunks >= 1 |
| Humanizer.FewestBubbles | app/agent/nodes/humanizer.py:49-55 | the merge uses the fewest bubbles |
| Humanizer.MergedIsAGrouping | app/agent/nodes/humanizer.py:49-55 | and its bubbles are such a grouping of the pieces |
| Humanizer.FewestSentenceChunks | app/agent/nodes/humanizer.py:65-80 | the sentence packer is minimal when an oversize sentence stands alone |
| Humanizer.SentencesCutAtEnds | app/agent/nodes/humanizer.py:15 | no part holds a '.', '!' or '?' followed by white space, every part before the last ends in one of the three, and what was cut out is whole runs of white space: with them put back the parts are the text |
| Humanizer.WholeSentences | app/agent/nodes/humanizer.py:65-80 | while every sentence fits, each packed chunk is whole sentences joined by single blanks, all of them, in order |
| Humanizer.ParagraphsCutAtBlankLines | app/agent/nodes/humanizer.py:43 | paragraphs are cut exactly at the blank lines, and joined by them are the text |
| Humanizer.TrimmedAppend | app/agent/nodes/humanizer.py:43 | each part is stripped, and dropped exactly when it is blank |
| Humanizer.PiecesAppend | app/agent/nodes/humanizer.py:42-47 | a paragraph that fits is one piece, a longer one is packed by sentences |
| Humanizer.WrapLines | app/agent/nodes/humanizer.py:83-87 | the hard wrap makes lines of exactly max_chars but for the last, and their concatenation is the chunk |
| Humanizer.WrapAllAppend | app/agent/nodes/humanizer.py:82-88 | each chunk is wrapped on its own, in order |
| Humanizer.FoldKeepsLayout | app/agent/nodes/humanizer.py:57-61 | folding keeps the first bubbles and joins the overflow by newlines |
| Humanizer.ShortTextIsOneBubble | app/agent/nodes/humanizer.py:36-62 | a text that fits and holds no blank line is one bubble, stripped |
| PyText.StripSpells | app/agent/nodes/humanizer.py:37 | stripping takes all white space off both ends and nothing else |
| PyText.WhiteSpaceCodes | app/agent/nodes/humanizer.py:15 | the white space of the pattern and of strip, by code point |
| Humanizer.WrapEndsIff | app/agent/nodes/humanizer.py:84-87 | the hard-wrap loop ends exactly for max_chars >= 1 |
| Humanizer.SplitReturnsIff | app/agent/nodes/humanizer.py:36-88 | every chunk that reaches the hard-wrap loop leaves it if and only if max_chars >= 1 or the text is blank |
| Humanizer.PackSentences | app/agent/nodes/humanizer.py:65-88 | the loops compute the specified packing and wrapping |
| Humanizer.Split | app/agent/nodes/humanizer.py:36-62 | the loops compute the specified bubbles |
| Lru.CacheIsMostRecentlyTouched | app/i18n.py:614-631 | a key is cached exactly when fewer than the capacity of distinct keys were touched since, in recency order, with its last put value |
| Lru.LargerCacheContainsSmaller | app/i18n.py:616-631 | on one history a smaller cache is a subsequence of a larger one |
| Lru.Cache.CacheGet | app/i18n.py:620-624 | a hit becomes the newest entry and nothing else moves |
| Lru.Cache.CachePut | app/i18n.py:627-631 | the entry becomes the newest and only the oldest are evicted |
| Translation.Translator.TranslateMany | app/i18n.py:735-791 | each index holds what its path gives: passthrough, glossary, cache, the batch's answer as it came, the single answer stripped, or the original; so memo transparency at each index under interference at every await, and a true cache afterwards, which holds what the last round of calls answered |
| Translation.TranslatedIsPlain | app/i18n.py:739-791 | a translated index is the plain map up to surrounding white space |
| Translation.MemoDependsOnPathIff | app/i18n.py:698-718 | calls in which nothing fails give one text two results if and only if the model is asked and answers with ink and with white space around it |
| Translation.TwoPaths | app/i18n.py:698-718 | two calls on fresh caches, one answered in the batch and one singly, differ exactly then, as the answer and the stripped answer |
| Translation.FixedReplies | app/i18n.py:745-752 | text that is blank or has no letter of the three scripts comes back as it is; one whose stripped, lower-cased form is a glossary key gets that entry |
| Translation.ModelReplies | app/i18n.py:753-791 | any other text gets its cache entry, else the batch's answer as it came, else its single call's answer stripped, else itself, which is also what an API error leaves |
| Translation.TodoAppend | app/i18n.py:745-757 | the model is asked exactly for what is neither passed through, nor in the glossary, nor cached, in order |
| Translation.ServedLanguages | app/i18n.py:741-742 | only Tamil and Hindi are translated |
| Glossary.TypedLabelComesBack | app/i18n.py:889-900 | the reverse is a section of the forward map, and gives the very label exactly when no later one shares its value |
| Glossary.UnknownTextIsNone | app/i18n.py:894-900 | None exactly for text that matches no translation |
| Glossary.NormSpells | app/i18n.py:879-883 | normalising takes the fourteen listed characters off both ends of the stripped, lower-cased, collapsed text, all of them, and nothing else |
| Glossary.CollapseInk | app/i18n.py:882 | characters that are not white space are kept |
| Glossary.CollapseGap | app/i18n.py:882 | a run of white space becomes one blank |
| Glossary.ForwardIff | app/i18n.py:459-461 | a term is translated by the entry its stripped, lower-cased form is the key of, and not at all exactly when it is no key |
| Glossary.ReverseGlossary.FromGlossary | app/i18n.py:889-900 | the memo per language never changes an answer |
| ToolRouter.Execute | app/agent/nodes/tool_router.py:33-48 | every pending step object is updated in place once and its result appended in order; which answer it holds: ToolRouter.StepRecordsItsAnswer |
| ToolRouter.OneResultPerStep | app/agent/nodes/tool_router.py:33-41 | one result per runnable step, in plan order |
| ToolRouter.SecondRunIsIdle | app/agent/nodes/tool_router.py:34-35 | running the node again dispatches nothing |
| ToolRouter.StepRecordsItsAnswer | app/agent/nodes/tool_router.py:34-43 | a step that has a tool and has not ended holds exactly its own tool's answer, is done if and only if that did not fail, and its result, at the place the steps before it give it, carries the same answer; any other step is untouched |
| ToolRouter.RunnableAppend | app/agent/nodes/tool_router.py:34-36 | the steps that run are exactly those that have a tool and are neither done nor failed, in order |
| AgentTurn.EveryTurnEnds | app/agent/runtime.py:2078-2140 | END within 8 + 3 * max(1, max_loops) visits, one delivery, one persist, bounded planning |
| AgentTurn.BoundIsTight | app/agent/runtime.py:1946-1955 | an insistent model uses up the whole bound |
| AgentTurn.TurnShape | app/agent/runtime.py:1933-1950 | a turn responds once exactly if it planned, executes no more than it plans, reflects no more than it executes |
| AgentTurn.EveryStepDispatchedOnce | app/agent/nodes/planner.py:135-140 | every step ever planned is dispatched once, in order, and ends done or failed |
| AgentTurn.ResultsAreTheAnswers | app/agent/nodes/tool_router.py:34-52 | over a whole turn the results are exactly what the tools answered, in the order of the steps; the steps of the last plan hold the last of them, done where they did not fail and failed where they did |
| AgentTurn.PlannedIff | app/agent/nodes/planner.py:108-114 | a tool is planned exactly when it was requested and is registered |
| AgentTurn.PlansRegisteredTools | app/agent/nodes/planner.py:108-114 | requested steps are kept in order, each as a new step, exactly when registered |
| AgentTurn.PlanFallsBack | app/agent/nodes/planner.py:65-119 | an apply is one step, a follow-up none; a request without a registered step becomes a job search unless a direct answer was asked for |
| AgentTurn.PlannedTurnExecutesIff | app/agent/runtime.py:1933-1935 | a plan with steps is executed, an empty one answered |
| AgentTurn.ReflectsIff | app/agent/runtime.py:1937-1944 | after the tools the turn is answered exactly when there was one step and its tool did not fail |
| AgentTurn.ReplansIff | app/agent/runtime.py:1946-1955 | a reflection replans exactly when it asks to, below the loop limit and before the deadline |
| AgentTurn.LaneTurn | app/agent/runtime.py:2098-2123 | each lane of its own is answered by its own node, delivered and persisted |
| AgentTurn.MenuTurn | app/agent/runtime.py:2109-2114 | what the menu handles is delivered, the rest is browsed |
| AgentTurn.BrowseTurn | app/agent/runtime.py:2115-2124 | what the browse handles is delivered, the rest is summarized and planned |
| Pager.TapsShowAllIff | app/agent/runtime.py:666-691 | opening a category and tapping its pager ids, whatever their offsets, shows every job if and only if there are at most eight |
| Pager.NinthIsNeverShown | app/agent/runtime.py:556-564 | of nine jobs the category tap and the pager tap both show the first eight |
| Pager.RoleListIsPartition | app/agent/jobflow.py:249-276 | the windows the role list builder makes, strung together by the ids it prints, hold every job once in order, in the stated number of pages; no tap opens them |
| Pager.CursorRoundTripsIff | app/agent/runtime.py:556-562 | the printed cursor parses back exactly for a non-empty category within the id cap |
| Pager.RowsWithinLimits | app/chatbot/wa_format.py:228-235 | never more than ten rows nor an id over the cap, for any offset |
| Pager.RowsOfAPage | app/agent/jobflow.py:256-276 | the rows of a page are its window's jobs, in order, and then the pager with the next offset |
| Pager.JobRowOpens | app/agent/jobflow.py:351-357 | a tapped role row opens its own job |
| Pager.TruncKeepsIff | app/chatbot/wa_format.py:51-55 | an id within the cap is kept, a longer one keeps its beginning and ends in an ellipsis |
| Pager.NatParsesIff | app/agent/runtime.py:558-561 | an offset is read exactly from digits with single underscores between them, which do not count |
| Pager.IntParsesIff | app/agent/runtime.py:558-561 | with at most one sign in front and white space around it, and a minus negates it; anything else is no offset |
| Pager.TargetIff | app/agent/runtime.py:548-564 | an id opens a category exactly with the prefix category or more |
| Pager.TapShowsIff | app/agent/runtime.py:666-690 | a tap shows exactly the first eight jobs of the category it opens, and of an unknown one none |

## Left out

- Database isolation below one transaction, which is one atomic step here.
- Concurrent read-modify-write of one employer record in Redis: each is one step.
- An empty `tenant_id`, which would fall back to the request's tenant.
- SQL text, drivers, HTTP, Razorpay, Meta, HMAC and the model itself: oracles or parameters.
- Columns that carry no logic here: prices, names, slot caps, locations, timestamps and row ids of the ledger.
- Typing delays of the delivery plan: clamped floating-point arithmetic.
- Unicode decimal digits other than 0-9 in phone numbers and offsets.
- Lower-casing, which is a parameter of the glossary; the glossary's own texts.
- Exceptions raised by graph nodes outside the tool registry: they abort the turn.
- The graph library's own limit on steps per `ainvoke`, which would abort a turn that reached it.
- The deadline clock of the agent turn, which is an arbitrary answer at each reflection.
- `catalog_hits` of the tool router and the row titles, bodies and fallbacks of the pager.
- Everything outside the modules above: forms, classification by regular expressions, retrieval, workers, and `app/api/routes/employer.py`, whose calls are arbitrary here.
