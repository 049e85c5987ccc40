# Verification of the firmware's protocol cores

This project models the small protocols of the firmware that make promises about whole runs, and proves
those promises in Dafny 4.11. `dafny verify dfyconfig.toml` checks all of it.

| files | what they model |
|---|---|
| `AgentCatalog`, `AgentModels`, `AgentModelSync`, `AgentModelRuns`, `AgentOutcome` | the reconciler that keeps model rows equal to catalogue times connected subscriptions, over a store whose writes may fail at any point |
| `CatalogPricing`, `PricingOutcome` | the price pass that runs before it over the same table |
| `TokenOwner`, `TokenRuns` | the owner of a rotating token, and an issuer that accepts only the newest refresh token (section 6 of RFC 6749) |
| `JsonRpc` | the JSON-RPC client's call table under all interleavings (section 5 of the JSON-RPC 2.0 Specification) |
| `Crc`, `Eeprom`, `EepromIdentity` | the board EEPROM: CRC-16/ARC on bit-vectors, the record chain, the four identity fields |
| `Quota`, `QuotaRuns`, `QuotaReadings` | the single-flight cache of subscription allowances |
| `KeyFile`, `KeyRotation` | the scripts that edit `authorized_keys`, and rotations interleaved with pushes |
| `Listing` | the directory listing format and its reader |
| `Decimal`, `Base64`, `PasswordHash` | Argon2id hashes in PHC string form |
| `Releases`, `Acceptance` | manifest entries and their selection; going forward only, for manifests and for the catalogue |
| `ClaudeLogin`, `ClaudeCredential` | one-time authorizations under starts, callbacks, timers and deletions; merging credentials |
| `Limiter` | the login limiter |
| `Text`, `Octets`, `Options` | strings, bytes and optional values |

Code that changes state is modelled by classes and methods proved against specification functions; the
theorems are about those functions and about runs. What the functions come to is told once more without them,
in places of the input and in plain numbers (`AgentOutcome`, `PricingOutcome`, `QuotaReadings` and the
lemmas beside each function). Where threads interleave, a run is any sequence of steps
split at every lock and every wait. Calls that leave the device, clocks and failures of single store
operations are parameters of the steps, with any value. Pointers are modelled by numbered handles, map
iteration orders by parameters.

## Findings

- The comment before the creation of subscription rows (`admin/agentmodels.go:389`) says a price is only
  filled in when missing; the code (line 414) replaces a differing price whenever the catalogue has one. The
  model follows the code.
- Model names are unique as written but looked up by folded name, so several rows can share one; the last
  listed represents them all, and only it is settled.
- A completed run that could not read the ledger forgets the rows it should have reclaimed later:
  `AgentModelRuns.BlindRunConvergesIff` gives the exact condition. Cut off before its ledger write it does no
  harm.
- A row the price pass fills is deleted by the reconciler in the same data sync exactly when it is a text row
  without sources whose name the ledger holds (`CatalogPricing.FilledThenReclaimedIff`); otherwise their writes
  are disjoint.
- For one account two quota fetches can be in flight at once, exactly after its entry was dropped by a scan that
  had listed the accounts without it, or replaced for another revision
  (`QuotaRuns.JoinsIffLive`, `QuotaRuns.LosesItsEntryIff`); at most one of them can publish.
- A fetch whose result is not published (cancelled, or the account changed) sets no deadline, so the next
  scheduled sync may start at once; the spacing theorems speak of published results.
- The installing script appends the new key to an unterminated last line when there is no old key to take
  out: `KeyFile.InstallPutsKey` and `KeyFile.InstallIsIdempotent` hold exactly outside that case.
- A push reads the current and the previous key one after the other. If two rotations fall in between, it can
  remove the only key the device still has on the host (`KeyRotation.SetsBackIff`,
  `KeyRotation.StraddlingPushLocksOut`). An install leaves a host with two device keys exactly when the host
  held one outside the pair the push carries (`KeyRotation.InstallLeavesOneIff`), as a push that connects before
  a rotation and installs after it can make it do; a superseded key then stays for good exactly when it is older
  than the previous one and no push that takes it out is under way or due (`KeyRotation.StaysForGoodIff`).
- A listing of no entries is accepted whatever follows the header (`Listing.WrongCountIsRejectedIff`).
- Two valid component versions can compare equal and differ as text (`Releases.LeadingZeroTies`); among such
  ties the first entry listed is offered.
- When the manifest revision is stored and its digest is not, the same manifest is refused for ever afterwards,
  exactly if another digest was stored before (`Acceptance.HalfWrittenRefusesItself`); higher revisions pass.
- The two manifest files are written before the settings. A restart after a failure in between puts a manifest in
  force that was never accepted, and an older one can be accepted after it: exactly when
  `Acceptance.AheadIff` and `Acceptance.OlderPassesIff` say. Accepted revisions themselves never go back,
  whatever fails (`Acceptance.AcceptedNeverGoBack`).
- A sweep of the crowded limiter table forgets the failures of a key a minute after the last; each time allows
  four more (`Limiter.FailuresAreBounded`). The login has one key and is never swept.

## Model

| member | source | states |
|---|---|---|
| AgentCatalog.WantedAgentModels | firmware/internal/admin/agentmodels.go:360-387 | walks the catalogue in file order and keeps, for every folded name, the first admissible entry of a connected, recognized section other than Cursor; the order lists each name once |
| AgentCatalog.WantedExactly | firmware/internal/admin/agentmodels.go:357-387 | a name is wanted exactly when some eligible section lists it admissibly |
| AgentCatalog.MoreConnectedMoreWanted | firmware/internal/admin/agentmodels.go:263-270 | connecting more subscriptions never withdraws a wanted name |
| AgentCatalog.GoalFromWanted | firmware/internal/admin/agentmodels.go:308-327 | the wanted names with their spelling and price are determined by catalogue and connected subscriptions, not by how they were collected |
| AgentModels.Found | firmware/internal/admin/agentmodels.go:279-282 | the row that stands for a folded name is there exactly when some row carries the name, and is the last listed of them |
| AgentModels.ModelStore.Commit | firmware/internal/admin/agentmodels.go:294-300 | one store operation takes effect and is journalled, or fails and changes nothing |
| AgentModels.RightfulKeepsTarget | firmware/internal/admin/agentmodels.go:251-255 | no single write of a run moves the state the run is heading for |
| AgentModels.LegalKeepsTarget | firmware/internal/admin/agentmodels.go:251-255 | after any number of writes of a run the target is the one the run started with |
| AgentModels.TargetIsSettled | firmware/internal/admin/agentmodels.go:251-341 | the target of a reconciled state is that state |
| AgentModels.SettledMeansQuiet | firmware/internal/admin/agentmodels.go:335-339 | over a reconciled state no write is left, the ledger write included |
| AgentModelSync.Reclaim | firmware/internal/admin/agentmodels.go:284-304 | deletes, in listing order, exactly the rows of ours that are no longer wanted, stopping at the first failing delete, and counts them |
| AgentModelSync.EnsureAgentTextModel | firmware/internal/admin/agentmodels.go:391-428 | creates a missing row with its price, or writes a differing catalogue price and lifts the disabled flag; a failing write ends it with what was written before; says which of the two happened |
| AgentModelSync.SettleOne | firmware/internal/admin/agentmodels.go:308-332 | a name held by another kind or by a sourced row is neither touched nor claimed; every other wanted name is claimed and settled |
| AgentModelSync.Settle | firmware/internal/admin/agentmodels.go:306-333 | the creations and repairs of all wanted names in catalogue order, a prefix of them when a write fails; the claims and the counts of rows created and repaired |
| AgentModelSync.IndexByName | firmware/internal/admin/agentmodels.go:279-282 | the index has, for every folded name, its last listed row, and nothing else |
| AgentModelSync.Reconcile | firmware/internal/admin/agentmodels.go:284-341 | the three phases in order, the ledger last and only when it changed; a failing write leaves a prefix of the plan; the counts returned |
| AgentModelSync.SyncAgentModels | firmware/internal/admin/agentmodels.go:256-341 | nothing is written when accounts or models cannot be listed; an unreadable ledger counts as empty; otherwise the store takes the plan or a prefix of it |
| AgentModelSync.PlanReachesTarget | firmware/internal/admin/agentmodels.go:251-341 | every write of an uninterrupted run is one the reconciler is entitled to when it is made, and the run ends at its target |
| AgentModelRuns.CutRunKeepsTarget | firmware/internal/admin/agentmodels.go:253-255 | a run stopped at any write, a lost ledger write included, has not moved the target; nor has one that could not read the ledger, stopped before it writes it |
| AgentModelRuns.InterruptedRunsConverge | firmware/internal/admin/agentmodels.go:253-255 | any number of interrupted runs and then a complete one end with the rows and the ledger of one uninterrupted run, whatever the listing orders |
| AgentModelRuns.SecondRunIsSilent | firmware/internal/admin/agentmodels.go:251-341 | a second run over the result of a first writes nothing |
| AgentModelRuns.BlindRunOutcome | firmware/internal/admin/agentmodels.go:107-128 | where a complete run ends that could not read the ledger |
| AgentModelRuns.BlindRunDeletesNothing | firmware/internal/admin/agentmodels.go:107-113 | a run that could not read the ledger deletes nothing |
| AgentModelRuns.BlindRunConvergesIff | firmware/internal/admin/agentmodels.go:66-68 | a later good run repairs a completed run without the ledger exactly when there was nothing to reclaim or nothing to claim |
| AgentModelRuns.LedgerIsRecorded | firmware/internal/admin/agentmodels.go:335-339 | in every history each name in the ledger was put there by an earlier completed run |
| AgentModelRuns.DeletesOnlyRecordedRows | firmware/internal/admin/agentmodels.go:155-160 | in every history a row a run deletes is text, has no source, is not wanted, and its name was wanted and recorded by an earlier completed run |
| AgentModelRuns.DisconnectUndoesConnect | firmware/internal/admin/agentmodels.go:237-243 | connecting and disconnecting a subscription, with a run after each, leaves rows and ledger as if it had never been connected, when no row carried one of its names |
| AgentModelRuns.DisconnectRestores | firmware/internal/admin/agentmodels.go:237-243 | a reconciled table with no row under the names of the new subscription comes back unchanged |
| AgentOutcome.GoalMeans | firmware/internal/admin/agentmodels.go:308-387 | a name is wanted exactly when some entry calls for it; it is spelled as the first such entry of the file spells it, and priced as the first section of that subscription prices the name |
| AgentOutcome.PriceIsRight | firmware/internal/platformcatalog/platformcatalog.go:577-601 | the price comes from the first section of the subscription and there from the first entry of the name, compared without regard to case; there is none when no entry has the name or its price does not pass |
| AgentOutcome.RunMeans | firmware/internal/admin/agentmodels.go:256-341 | the whole outcome of a complete run: exactly the bare, unwanted text rows of the ledger go; under each wanted name nobody carries a row appears with the catalogue price; the last listed row of a wanted name, if it is a bare text row, is enabled and takes the catalogue price when there is one; nothing else changes; the ledger names what was created or claimed |
| AgentOutcome.TallyCounts | firmware/internal/admin/agentmodels.go:284-341 | a complete run reports as many rows created, repaired and removed as have appeared, changed and gone |
| Text.FoldSame | firmware/internal/admin/agentmodels.go:279-282 | two names fold to one exactly when they are the same but for the case of ASCII letters |
| CatalogPricing.CatalogPricingFor | firmware/internal/admin/catalogsync.go:679-718 | finds the entry by source order, or by platform order when there is no source, an entry with a price before one without; otherwise the reason for skipping |
| PricingOutcome.ChoiceIsDetermined | firmware/internal/admin/catalogsync.go:671-718 | the answer for a row, told in places of the file: the first entry of its name and kind, by the order of its sources or else of the platforms, that carries a price; or, if there is none, whether the name is there without a price, in another kind only, or not at all. It is the one found |
| PricingOutcome.PlatformIsFirst | firmware/internal/platformcatalog/platformcatalog.go:491-503 | a platform is found exactly when one has the id, and is the first with it |
| PricingOutcome.ModelIsFirst | firmware/internal/platformcatalog/platformcatalog.go:505-518 | an entry is found exactly when one has the name, compared without regard to case, and the kind, and is the first with both |
| PricingOutcome.LeadsToItself | firmware/internal/admin/catalogsync.go:682-690 | the platform reported for a source is the one the price comes from, unless its id is empty |
| PricingOutcome.FillMeans | firmware/internal/admin/catalogsync.go:722-787 | a row gets a price exactly when it has none, no subscription prices it and the first priced entry for it has a price that passes; then it is that one |
| PricingOutcome.SkipMeans | firmware/internal/admin/catalogsync.go:730-760 | the reasons given for the rows left are true exactly of them |
| CatalogPricing.Judge | firmware/internal/admin/catalogsync.go:730-760 | the checks of one row in their order: priced already, managed by the reconciler, no entry, invalid price, empty price |
| CatalogPricing.ApplyCatalogPricing | firmware/internal/admin/catalogsync.go:722-787 | fills in listing order, a prefix when a write fails, and reports the rows filled and, with their reasons, the rows left |
| CatalogPricing.EveryRowIsReported | firmware/internal/admin/catalogsync.go:722-787 | a complete pass reports every row exactly once, as priced when it was filled and otherwise as skipped with the reason its own checks give |
| CatalogPricing.FillOnlyEmpty | firmware/internal/admin/catalogsync.go:720-735 | no price that was set changes, and nothing but the price of a row changes |
| CatalogPricing.WritesAreDisjoint | firmware/internal/admin/catalogsync.go:736-741 | no row the price pass may fill is one the reconciler may create, price or enable |
| CatalogPricing.CutFillConverges | firmware/internal/admin/catalogsync.go:761-765 | a data sync cut off in the price pass and repeated ends where an uninterrupted one does |
| CatalogPricing.CutReconcileConverges | firmware/internal/admin/catalogsync.go:604-617 | so does one cut off in the reconciliation after it |
| CatalogPricing.SecondDataSyncIsSilent | firmware/internal/admin/catalogsync.go:604-617 | the two local steps are jointly idempotent: a second data sync prices, creates, repairs and removes nothing and leaves the ledger alone |
| CatalogPricing.FilledThenReclaimedIff | firmware/internal/admin/catalogsync.go:604-617 | the one overlap of the two steps: a row just priced is deleted in the same data sync exactly when it is a text row without sources whose name the ledger holds |
| CatalogPricing.FilledThenReclaimed | firmware/internal/admin/catalogsync.go:604-617 | and that condition is met by some row |
| CatalogPricing.SyncLocally | firmware/internal/admin/catalogsync.go:604-617 | the two steps on the store with any operation failing: while the ledger is readable the outcome of a later complete sync has not moved, and when nothing fails it is reached |
| TokenOwner.ExpiryOf | firmware/internal/agentauth/provider.go:348-363 | a token never counts as expired sooner than 30 s after it was obtained, from either branch; unknown exactly when neither source says |
| TokenOwner.Provider.Current | firmware/internal/agentauth/provider.go:133-159 | goes to the issuer exactly when not cancelled, not latched, holding a token that is expired or reported, and not cooling down; hands out the token held exactly when it is neither expired nor reported; the new state, the answer, the callbacks |
| TokenOwner.Provider.Invalidate | firmware/internal/agentauth/provider.go:171-178 | only a report that names the token now held marks it |
| TokenOwner.Provider.Refresh | firmware/internal/agentauth/provider.go:194-207 | forces an exchange after lifting latch and cooldown, unless cancelled or without a handle |
| TokenOwner.Provider.Reset | firmware/internal/agentauth/provider.go:226-233 | a reset to the token now held changes nothing; any other installs the handle and lifts the latch |
| TokenOwner.Provider.RefreshLocked | firmware/internal/agentauth/provider.go:276-308 | one exchange: success replaces the handle and hands it over, refusal drops the latch, trouble starts the cooldown |
| TokenRuns.RefreshesAreBounded | firmware/internal/agentauth/provider.go:133-308 | successful refreshes are at most the reports naming the token then held, plus forced refreshes, plus token-changing resets, plus one, plus elapsed time over 30 s |
| TokenRuns.OneRejectedTokenOneRefresh | firmware/internal/agentauth/provider.go:161-178 | any number of callers reporting one rejected token in any order, to an owner in any state, cause at most one refresh within 30 s |
| TokenRuns.RenewedIsServed | firmware/internal/agentauth/provider.go:133-159 | a token just obtained answers every request, unasked, until it expires, is reported or replaced, and for 30 s at least |
| TokenRuns.LatchHolds | firmware/internal/agentauth/provider.go:144-146 | once refused, no request goes out and none is answered until a forced refresh or another login |
| TokenRuns.CooldownHolds | firmware/internal/agentauth/provider.go:154-157 | after trouble no request goes out for five seconds, and the token held stays |
| TokenRuns.SoundRunsAreNeverRefused | firmware/internal/agentauth/provider.go:275-329 | with no response lost and no stale reload the owner always presents the newest generation and never drops the latch |
| TokenRuns.EveryGenerationIsHandedOver | firmware/internal/agentauth/provider.go:301-329 | every generation the issuer makes is handed to the rotation callback once and in order |
| TokenRuns.RefusedExactlyAfterALoss | firmware/internal/agentauth/provider.go:283-299 | in any run an answered exchange is refused, and the latch dropped, exactly when a generation was lost before |
| TokenRuns.LossesAreTheseTwo | firmware/internal/agentauth/provider.go:72-79 | a generation is lost exactly by an accepted exchange whose response is lost, or by reloading a handle that is not the latest |
| JsonRpc.Client.DrawID | firmware/internal/codexappserver/jsonrpc.go:186-187 | every call draws an id of its own, one above the last |
| JsonRpc.Client.Register | firmware/internal/codexappserver/jsonrpc.go:186-194 | a call enters the table exactly when the client is not closed |
| JsonRpc.Client.Take | firmware/internal/codexappserver/jsonrpc.go:101-112 | a response takes its call out of the table by id, if it is there |
| JsonRpc.Client.Withdraw | firmware/internal/codexappserver/jsonrpc.go:199-222 | a call that gives up removes its own id and nothing else |
| JsonRpc.Client.SwapOut | firmware/internal/codexappserver/jsonrpc.go:122-137 | the first shutdown takes the whole table and closes; later ones take nothing |
| JsonRpc.ExactlyOnePlace | firmware/internal/codexappserver/jsonrpc.go:81-137 | in every interleaving a registered call is in the table, owed a message, answered or withdrawn, and in no two of these at once |
| JsonRpc.NothingBeforeEntering | firmware/internal/codexappserver/jsonrpc.go:185-194 | a call not registered is in no table, owed nothing and answered nothing |
| JsonRpc.NoSenderBlocks | firmware/internal/codexappserver/jsonrpc.go:110-136 | whoever is about to send on a reply channel finds its slot free |
| JsonRpc.OneMessageOwnId | firmware/internal/codexappserver/jsonrpc.go:185-223 | a reply channel carries at most one message, a response on it has the id of its call, and no two calls share an id |
| JsonRpc.AnswersWereRead | firmware/internal/codexappserver/jsonrpc.go:101-113 | a response reaches a call only if the reader read it, with that id and content, while the call was in the table |
| JsonRpc.ClosedLeavesNobodyWaiting | firmware/internal/codexappserver/jsonrpc.go:122-140 | once closed the table is empty, and every call still waiting has its message or is owed one |
| JsonRpc.ClosedForGood | firmware/internal/codexappserver/jsonrpc.go:122-132 | no later step reopens the client or refills the table |
| JsonRpc.AnswersAreFinal | firmware/internal/codexappserver/jsonrpc.go:205-222 | what was put on a reply channel never changes: a call is answered at most once |
| JsonRpc.EntersWhenOpen | firmware/internal/codexappserver/jsonrpc.go:185-194 | a call is entered exactly when the client is open, and otherwise returns at once |
| JsonRpc.ReadIsDelivered | firmware/internal/codexappserver/jsonrpc.go:101-112 | a response read while its call is in the table ends on the channel of that call: in every continuation it is there, or in the hand of the reader, free to be sent |
| JsonRpc.ShutdownNotifiesAll | firmware/internal/codexappserver/jsonrpc.go:122-137 | the first shutdown closes the client, and every call then in the table is owed the closing notice or has it, and nothing else |
| JsonRpc.SendsDeliver | firmware/internal/codexappserver/jsonrpc.go:110-136 | a send puts the message on the channel; once the client is done every notice owed can be sent |
| JsonRpc.ReturnedWasRead | firmware/internal/codexappserver/jsonrpc.go:204-218 | a call that returns a message returns the one on its channel, and a response was read for this call |
| JsonRpc.GivingUp | firmware/internal/codexappserver/jsonrpc.go:199-222 | when a write fails, what a call that gives up reports, and that only its own id leaves the table |
| Crc.FeedByte | firmware/internal/boardinfo/eeprom.go:202-209 | the eight rounds of the bit loop are one byte step |
| Crc.Crc16Arc | firmware/internal/boardinfo/eeprom.go:196-213 | the CRC over several parts is the CRC of their concatenation |
| Crc.ByteStepIsBijective | firmware/internal/boardinfo/eeprom.go:202-209 | for every byte the step is a bijection of the register |
| Crc.CrcIsLinear | firmware/internal/boardinfo/eeprom.go:196-213 | the CRC is linear over exclusive or, for all equally long data and all starting registers |
| Crc.TwoBytesAreInjective | firmware/internal/boardinfo/eeprom.go:202-209 | two bytes leave the same register only if they are the same two bytes |
| Crc.BurstChangesCrc | firmware/internal/boardinfo/eeprom.go:196-213 | a change confined to two adjacent bytes changes the CRC, whatever surrounds them |
| Crc.SealedIsResidue | firmware/internal/boardinfo/eeprom.go:98-101 | data followed by its stored CRC, and by no other two bytes, has CRC zero |
| Crc.BurstUnseals | firmware/internal/boardinfo/eeprom.go:95-101 | a change of one or two adjacent bytes, the stored CRC included, always breaks the match |
| Crc.CheckValue | firmware/internal/boardinfo/eeprom.go:196-213 | the check value of CRC-16/ARC: 0xBB3D for the nine digits |
| Eeprom.CheckRecord | firmware/internal/boardinfo/eeprom.go:88-101 | finds a fault exactly when the record does not fit or its CRC does not match, with record number, size and offset |
| Eeprom.ParseEeprom | firmware/internal/boardinfo/eeprom.go:72-110 | the loop over the chain yields what the chain says, record by record, or the first fault |
| Eeprom.ParsesExactlyTheLaid | firmware/internal/boardinfo/eeprom.go:72-110 | the parser accepts exactly the containers with magic, version 1 and a positive count whose records all lie whole and intact where the lengths before them put them, and returns those records |
| Eeprom.ParseUndoesEncode | firmware/internal/boardinfo/eeprom.go:5-20 | for every non-empty list of records that fits the 16-bit fields, any flags, any ignored header bytes and any padding, parsing returns the list |
| Eeprom.BurstIsDetected | firmware/internal/boardinfo/eeprom.go:85-110 | changing one or two adjacent bytes of one record, its length field excepted, makes the parser reject with a CRC fault at that record, whatever follows |
| EepromIdentity.PrintableRuns | firmware/internal/boardinfo/eeprom.go:171-194 | the scan with its start index collects the trimmed, non-blank printable stretches in order |
| EepromIdentity.RunsSplit | firmware/internal/boardinfo/eeprom.go:168-170 | a byte that is not printable separates: the texts on both sides are found independently |
| EepromIdentity.RunsOfStretch | firmware/internal/boardinfo/eeprom.go:168-170 | a printable stretch is one text, trimmed, or none when blank |
| EepromIdentity.RunsAreProper | firmware/internal/boardinfo/eeprom.go:168-170 | every text found is non-empty, printable and neither starts nor ends with a space |
| EepromIdentity.RecordText | firmware/internal/boardinfo/eeprom.go:157-166 | the first text after the two code bytes, or none |
| EepromIdentity.NoteRecord | firmware/internal/boardinfo/eeprom.go:121-138 | a product record counts only with exactly two texts; the other two types set their own field |
| EepromIdentity.CollectTexts | firmware/internal/boardinfo/eeprom.go:120-138 | the table is read up to the first malformed product record |
| EepromIdentity.LastProductCounts | firmware/internal/boardinfo/eeprom.go:121-132 | of several product records the last gives vendor and SKU |
| EepromIdentity.ReadIdentity | firmware/internal/boardinfo/eeprom.go:114-154 | the identity, or the fault of the container, the malformed product record, or the first field left empty |
| EepromIdentity.IdentityRoundTrip | firmware/internal/boardinfo/eeprom.go:112-194 | an encoded container gives back vendor, SKU, PCB version and serial, through any gaps and paddings |
| EepromIdentity.IdentityIsProper | firmware/internal/boardinfo/eeprom.go:140-153 | an identity that is returned has four non-empty, trimmed, printable texts |
| Quota.Manager.Read | firmware/internal/agentquota/manager.go:55-71 | what a reader is shown, and when it counts as stale |
| Quota.Manager.Enter | firmware/internal/agentquota/manager.go:85-113 | under the lock a sync joins the fetch in flight, holds off, or starts one; the table after it |
| Quota.Manager.Leave | firmware/internal/agentquota/manager.go:118-153 | the end of a fetch: published only for an unchanged enabled account, the entry still in place and no cancellation; the channel closed in any case |
| Quota.Manager.Observe | firmware/internal/agentquota/manager.go:168-186 | readings from the data path, which never replace an entry of a newer revision |
| Quota.Manager.Prune | firmware/internal/agentquota/manager.go:208-214 | exactly the entries of unseen accounts go |
| Quota.FailureDelay | firmware/internal/agentquota/manager.go:136-147 | the computed delay is min(5*2^(k-1), 30) minutes or a longer retry time, at most 24 h, for every count k |
| Quota.BackoffMeans | firmware/internal/agentquota/manager.go:131-146 | five, ten, twenty, then thirty minutes, a longer Retry-After, never more than a day |
| QuotaRuns.StepKeepsInv | firmware/internal/agentquota/manager.go:75-186 | every step of every interleaving keeps the ownership of entries, channels and data |
| QuotaRuns.EnabledIsPossible | firmware/internal/agentquota/manager.go:110-154 | no sync is ever left holding an entry that is gone |
| QuotaRuns.ReadIsOwnOrPending | firmware/internal/agentquota/manager.go:34-36 | a reader sees a pending reading or data obtained for exactly its account and revision, and only a pending one for a disabled account |
| QuotaRuns.SyncReturnsOwn | firmware/internal/agentquota/manager.go:75-164 | so does the caller of a sync, for the account the sync last loaded |
| QuotaRuns.OneFetchPerEntry | firmware/internal/agentquota/manager.go:91-113 | each entry has at most one fetch in flight |
| QuotaRuns.OneLiveFetchPerAccount | firmware/internal/agentquota/manager.go:120-120 | of the fetches in flight for one account at most one can still publish |
| QuotaRuns.JoinsIffLive | firmware/internal/agentquota/manager.go:84-98 | a sync joins a fetch exactly when one that can still publish is in flight for its account and revision, so it begins another beside one only when that one cannot publish or is for another revision |
| QuotaRuns.LosesItsEntryIff | firmware/internal/agentquota/manager.go:191-217 | a fetch in flight becomes unable to publish exactly when a scan that did not list its account prunes, or a sync or an observation brings another revision |
| QuotaRuns.TwoFetchesAfterPrune | firmware/internal/agentquota/manager.go:191-217 | that happens: an account connected after a scan listed the accounts has two fetches at one revision in flight |
| QuotaRuns.WaitersAreServed | firmware/internal/agentquota/manager.go:91-99 | a caller that joined a fetch finds its channel closed or a fetch in flight that will close it |
| QuotaRuns.PublishedUnchanged | firmware/internal/agentquota/manager.go:117-120 | a result is published only if the account, read again after the fetch, is enabled and at the same revision |
| QuotaRuns.FailuresAreTheStreak | firmware/internal/agentquota/manager.go:128-130 | the counter of an entry is the number of failures published since its last published success |
| QuotaRuns.FetchesBackOff | firmware/internal/agentquota/manager.go:129-149 | after a published failure the next scheduled fetch of the entry waits out the backoff for the length of the streak; after a rate limit a manual one does too |
| QuotaRuns.FailureSetsDeadline | firmware/internal/agentquota/manager.go:128-150 | after the k-th failure published in a row the entry is due exactly that long after it |
| QuotaRuns.FetchesKeepTheInterval | firmware/internal/agentquota/manager.go:122-128 | after a published success the next scheduled fetch of the entry waits five minutes |
| QuotaRuns.ManualFetchesCoolDown | firmware/internal/agentquota/manager.go:101-112 | a manual fetch of an entry starts at least 30 s after every earlier one, unless it is rate limited |
| QuotaReadings.FetchedIsShown | firmware/internal/agentquota/manager.go:117-125 | what a published fetch brought is what every reader with that account and revision is shown, with its origin, until a later success or observation, another revision, or a scan without the account |
| QuotaReadings.ObservedIsShown | firmware/internal/agentquota/manager.go:166-186 | so is what the data path observed, unless the table is at a newer revision |
| QuotaReadings.PublicationTells | firmware/internal/agentquota/manager.go:117-147 | a published success shows as fine and due in five minutes; a published failure keeps the windows and shows its code |
| QuotaReadings.StaleIff | firmware/internal/agentquota/manager.go:55-71 | a reading is fresh exactly when it succeeded within ten minutes and none of its windows has run out |
| QuotaReadings.FetchesExactlyWhenDue | firmware/internal/agentquota/manager.go:86-111 | a sync begins a fetch exactly when none is in flight for its account and revision and the entry is due, or by hand was not attempted within 30 s |
| QuotaReadings.NeverFetchesDisabled | firmware/internal/agentquota/manager.go:77-84 | a disabled account is never fetched for |
| QuotaReadings.AtMostTwoFetches | firmware/internal/agentquota/manager.go:75-163 | a sync fetches at most twice |
| QuotaReadings.GoesOnAfterFetch | firmware/internal/agentquota/manager.go:152-163 | it fetches again, once, exactly when the account turned out changed, and then for the account as it is now |
| KeyFile.Host.Strip | firmware/internal/agenthost/scripts.go:40-40 | drops exactly the lines equal to the key and terminates the last line |
| KeyFile.Host.Install | firmware/internal/agenthost/scripts.go:26-46 | the key file after the installing script, and its exit when home or key is missing |
| KeyFile.Host.Remove | firmware/internal/agenthost/scripts.go:60-73 | the key file after the removing script |
| KeyFile.Host.Push | firmware/internal/agenthost/agenthost.go:312-332 | a push that cannot log in with either key, or cannot run the script, leaves file and fingerprint alone; otherwise the file is as installed, the fingerprint recorded, and the host ready exactly when the new key is found |
| KeyFile.InstallLines | firmware/internal/agenthost/scripts.go:24-46 | the file the installing script leaves, by places: every line but the key taken out, in order, and the new key at the end if it was not there |
| KeyFile.InstallPutsKey | firmware/internal/agenthost/scripts.go:39-46 | the new key is present afterwards exactly unless there is no old key, the file does not end in a newline and the key was not there |
| KeyFile.InstallKeepsOthers | firmware/internal/agenthost/scripts.go:9-13 | all lines other than the two keys stay, in their order |
| KeyFile.InstallDropsOld | firmware/internal/agenthost/scripts.go:24-25 | the superseded key is gone, unless it is the key installed |
| KeyFile.InstallIsIdempotent | firmware/internal/agenthost/scripts.go:9-10 | installing twice is installing once, with the same one exception |
| KeyFile.RemovedLines | firmware/internal/agenthost/scripts.go:59-73 | none of the given keys is left, and every other line is, as often and in the order it stood |
| KeyFile.ParseProbe | firmware/internal/agenthost/scripts.go:91-105 | the loop finds the mark of an installed key and the first line that is neither mark nor blank |
| Text.TrimMeans | firmware/internal/agenthost/scripts.go:91-105 | trimming takes the white space off both ends and nothing else |
| KeyFile.ProbeReadsBack | firmware/internal/agenthost/scripts.go:48-57 | the report of the probing script reads back as whether the key is there and how the host describes itself |
| KeyRotation.ReachableIsPushed | firmware/internal/agenthost/agenthost.go:299-332 | at any moment of any run a push without a password goes through exactly on the hosts holding the current or the previous key, and leaves there the current key, not the previous one, and all else in order |
| KeyRotation.PushCompletes | firmware/internal/agenthost/agenthost.go:312-332 | a completed push leaves the pushed key present, the superseded one absent, the other lines in order and the other hosts untouched |
| KeyRotation.SetsBackIff | firmware/internal/agenthost/agenthost.go:409-423 | an install takes the newest key from a host exactly when its two reads straddle two rotations and that key is the one it takes out |
| KeyRotation.NewestNeverFalls | firmware/internal/agenthost/agenthost.go:149-153 | in every interleaving without such an install the newest key a host holds never gets older |
| KeyRotation.StaysPushable | firmware/internal/agenthost/agenthost.go:149-153 | so a host that once held a key stays pushable until that key is two rotations old |
| KeyRotation.StraddlingPushLocksOut | firmware/internal/agenthost/agenthost.go:410-423 | a push that reads across two rotations can shut the device out of a host it was just on |
| KeyRotation.InstallLeavesOneIff | firmware/internal/agenthost/scripts.go:24-46 | an install leaves no host with two device keys exactly when every device key on its host was one of the pair it carries |
| KeyRotation.AlwaysOneKeyIff | firmware/internal/agenthost/scripts.go:24-46 | over a whole run of rotations, pushes, enrolments and edits no host ever holds two device keys exactly when every install fits in that way |
| KeyRotation.TimelyPushesLeaveOneKey | firmware/internal/agenthost/scripts.go:24-46 | pushes that carry the present pair when they install all fit, and leave exactly the current key |
| KeyRotation.KeyLeavesIff | firmware/internal/agenthost/scripts.go:37-43 | a step takes a device key off a host exactly when it is an install that carries it as the previous key |
| KeyRotation.StaysForGoodIff | firmware/internal/agenthost/agenthost.go:154-194 | a superseded key stays on a host in every continuation exactly when it is older than the previous one and no push that carries it is under way or due |
| KeyRotation.StalePushLeavesSupersededKey | firmware/internal/agenthost/agenthost.go:317-327 | a push that connected before a rotation and installs after it can lead there |
| Listing.ParseListing | firmware/internal/agenthost/files.go:276-340 | the reader as it runs returns what its specification says, or rejects |
| Listing.FillEntry | firmware/internal/agenthost/files.go:314-329 | mode, link mark, size, time and owner from the columns of one line |
| Listing.StatusReadsBack | firmware/internal/agenthost/files.go:50-53 | a status line reads back as the columns printed, whatever the owner |
| Listing.ParseUndoesFormat | firmware/internal/agenthost/files.go:50-82 | for all non-empty NUL-free names, newlines and spaces included, reading undoes printing: the entries come back with their own columns, sorted |
| Listing.SortedBag | firmware/internal/agenthost/files.go:330-340 | what is shown is a permutation of what was listed; every directory stands before every file, and each kind ascends by folded name and then by name |
| Listing.ParsedInOrder | firmware/internal/agenthost/files.go:276-340 | whatever reads at all reads as an absolute path with its entries in that order |
| Text.BeforeMeans | firmware/internal/agenthost/files.go:335-339 | the order of names is decided at the first character in which they differ, a prefix coming first |
| Listing.SortedIsUnique | firmware/internal/agenthost/files.go:330-340 | distinguishable entries have one sorted order |
| Listing.OrderDoesNotMatter | firmware/internal/agenthost/files.go:330-340 | the order in which the host lists distinct names does not show |
| Listing.WrongCountIsRejectedIff | firmware/internal/agenthost/files.go:307-313 | a number of status lines other than the number of entries is rejected exactly when there are entries |
| Decimal.NumberOfPrint | firmware/internal/auth/password.go:73-76 | reading a printed number gives it back |
| Base64.DecodeUndoesEncode | firmware/internal/auth/password.go:75-76 | unpadded base64 decodes to the bytes encoded, for all byte sequences |
| Base64.SymbolsAreStandard | firmware/internal/auth/password.go:75-76 | the characters are those of Table 1 of RFC 4648 |
| Base64.StandardVectors | firmware/internal/auth/password.go:75-76 | the test vectors of section 10 of RFC 4648 come out, without padding |
| PasswordHash.PrintReads | firmware/internal/auth/password.go:67-77 | the text printed, field by field |
| PasswordHash.ParseUndoesPrintIff | firmware/internal/auth/password.go:67-77 | what is printed parses back exactly when the costs and the lengths are in range, m at least 8p included |
| PasswordHash.ParsedIsInRange | firmware/internal/auth/password.go:132-144 | whatever parses is in range and prints to something that parses to the same |
| PasswordHash.HashVerifies | firmware/internal/auth/password.go:79-88 | a fresh hash accepts a password exactly when it derives the same key |
| Releases.CompareVersion | firmware/internal/cloudflared/manifest.go:234-252 | the sign of the lexicographic comparison of three numbers, missing or unreadable parts counting as 0 |
| Releases.IsValidVersion | firmware/internal/cloudflared/manifest.go:198-214 | three non-empty parts of at most six digits |
| Releases.PartsReadBack | firmware/internal/cloudflared/manifest.go:232-252 | the parts of a printed version read as the numbers printed |
| Releases.PrintedCompare | firmware/internal/cloudflared/manifest.go:232-252 | printed versions compare as their numbers do, the first difference deciding |
| Releases.PrintedIsValidIff | firmware/internal/cloudflared/manifest.go:198-214 | a printed version is valid exactly when its three numbers have at most six digits |
| Releases.LeadingZeroTies | firmware/internal/cloudflared/manifest.go:197-252 | two valid versions may differ as text and compare equal |
| Releases.Validate | firmware/internal/cloudflared/manifest.go:135-158 | accepts exactly the indexes of the right schema, component and channel with a positive revision and valid entries in which no platform has a version twice; otherwise says which check fails first, and at which entry |
| Releases.FindByDigest | firmware/internal/cloudflared/manifest.go:331-340 | the first entry of the platform with the digest, if there is one |
| Releases.SelectRelease | firmware/internal/cloudflared/manifest.go:281-328 | the offer is the first listed of the highest releases that may go on the device, and there is none exactly when none may; the newest is the first of the highest of the platform; the blocked warning and the firmware hint exactly when an entry calls for them |
| Releases.BestIsNewest | firmware/internal/cloudflared/manifest.go:279-315 | no eligible entry is newer than the one kept, whatever the order |
| Releases.OfferIsGood | firmware/internal/cloudflared/manifest.go:279-315 | the offer is eligible, and a maximum of the eligible entries |
| Releases.OfferIsHighest | firmware/internal/cloudflared/manifest.go:279-315 | no release that may go on the device exceeds the one offered at the first number in which they differ, and of those that tie with it, it is listed first |
| Releases.AtMostTwoInstalls | firmware/internal/cloudflared/manifest.go:279-328 | following the offers of one valid manifest never installs a blocked entry, strictly raises the version after the first install, and ends after two |
| Releases.OfferIgnoresOrder | firmware/internal/cloudflared/manifest.go:279-315 | another order of the entries changes the offer at most to one of equal version, and not at all without ties |
| Acceptance.Manager.Accept | firmware/internal/cloudflared/manager.go:600-637 | the state after a submission with any of its steps failing; accepted exactly when none fails and the manifest is not stale |
| Acceptance.Manager.LoadStored | firmware/internal/cloudflared/manager.go:563-580 | after a restart the index is the stored one when the signature belongs to it |
| Acceptance.RevisionNeverFalls | firmware/internal/cloudflared/manifest.go:345-355 | the stored revision never decreases, whichever writes fail |
| Acceptance.AcceptedNeverGoBack | firmware/internal/cloudflared/manifest.go:342-355 | accepted revisions never decrease and one revision is never bound to two contents, whatever reads and writes fail |
| Acceptance.HalfWrittenPassesIff | firmware/internal/cloudflared/manager.go:622-627 | when the revision was written and the digest was not, exactly the higher revisions pass, and at that revision the manifests with the old digest, or all if there was none |
| Acceptance.HalfWrittenRefusesItself | firmware/internal/cloudflared/manager.go:622-627 | the manifest just written to disk is then refused at every later submission exactly when the device held another digest |
| Acceptance.AheadIff | firmware/internal/cloudflared/manager.go:563-580 | a manifest the settings do not know of comes into force exactly by a restart over two files that agree with each other and not with the settings |
| Acceptance.OlderPassesIff | firmware/internal/cloudflared/manager.go:600-637 | a manifest older than the one in force can be accepted exactly when the one in force is unknown to the settings and not the first revision |
| Acceptance.RestartFallsIff | firmware/internal/cloudflared/manager.go:563-580 | a restart takes a device, whose settings know the manifest in force, back exactly when the two files do not belong together |
| Acceptance.ForceNeverFalls | firmware/internal/cloudflared/manager.go:600-637 | the revision in force never falls as long as every restart finds files that agree with the settings |
| Acceptance.FetchCatalogue | firmware/internal/admin/catalogsync.go:641-662 | a file older than the stored copy, or of the same version with other content, is not stored |
| Acceptance.FetchRegressesIff | firmware/internal/admin/catalogsync.go:641-659 | a fetch makes the device go back exactly when the stored copy had become unreadable, the file is older than it or of its version with another digest, and the write succeeds |
| Acceptance.StoredNeverRegresses | firmware/internal/admin/catalogsync.go:619-663 | while the copy stays readable the stored version never decreases and no version is bound to two contents |
| Acceptance.InForceIsLatest | firmware/internal/admin/catalogsync.go:343-389 | the catalogue in force has the larger of the two versions, the built-in one on a tie |
| Acceptance.InForceNeverFalls | firmware/internal/admin/catalogsync.go:336-342 | the version in force never decreases while firmware goes forward |
| ClaudeLogin.Logins.Start | firmware/internal/admin/claude_oauth.go:44-55 | a start bumps the generation, replaces login and timer |
| ClaudeLogin.Logins.Expire | firmware/internal/admin/claude_oauth.go:49-55 | a timer clears its own login and no other |
| ClaudeLogin.Logins.Take | firmware/internal/admin/claude_oauth.go:78-95 | a matching code takes the login out and keeps the generation it saw; anything else changes nothing |
| ClaudeLogin.Logins.Commit | firmware/internal/admin/claude_oauth.go:106-112 | commits exactly when the generation is the one seen, and bumps it |
| ClaudeLogin.ExchangedAtMostOnce | firmware/internal/admin/claude_oauth.go:85-90 | over all interleavings the code of a login is exchanged, and so committed, at most once |
| ClaudeLogin.CommitsIffUndisturbed | firmware/internal/admin/claude_oauth.go:108-113 | a callback commits exactly when nothing was started and no Claude account deleted since it took the code |
| ClaudeLogin.LateTimerIsHarmless | firmware/internal/admin/claude_oauth.go:49-55 | a late timer clears no newer login and voids no exchange in flight |
| ClaudeLogin.StartWaits | firmware/internal/admin/claude_oauth.go:44-55 | a start leaves the new login waiting with its own timer, and voids what was in flight |
| ClaudeLogin.WaitsUntil | firmware/internal/admin/claude_oauth.go:49-95 | a login waits until exactly its own timer, a callback with its code, a newer start, a deletion or a commit; its own timer leaves nothing to take |
| ClaudeLogin.TakenForGood | firmware/internal/admin/claude_oauth.go:85-90 | a login once taken never waits again, and a commit stays one |
| ClaudeCredential.Store.Save | firmware/internal/store/agent_rotation.go:14-49 | the merge is applied to the row as it is when the conditional write succeeds; eight disturbed attempts give up and leave the row to the others |
| ClaudeCredential.NoUpdateIsLost | firmware/internal/store/agent_rotation.go:14-49 | in every interleaving of any number of savers, setup token and login are each what the last successful saver of that kind gave, untouched by savers of the other kind and by other edits |
| ClaudeCredential.TokenAndLoginBothStay | firmware/internal/admin/claude_oauth.go:143-173 | of a setup token and a login saved at once both are there when both savers succeeded |
| ClaudeCredential.SaveLeaves | firmware/internal/admin/claude_oauth.go:158-171 | a save goes into the row as it stands at that moment: a setup token brings an expired account back into use, a login leaves the status; title and model are replaced when given; the other kind of credential stays |
| ClaudeCredential.SaversNeverEnable | firmware/internal/admin/claude_oauth.go:158-166 | no saver takes a disabled account back into use, nor an active one out of it |
| ClaudeCredential.KindsCommute | firmware/internal/claudeauth/credential.go:136-146 | the two kinds can be merged in either order |
| Limiter.Limiter.Sweep | firmware/internal/auth/limiter.go:88-94 | deletes exactly the entries that neither lock nor failed within the minute |
| Limiter.Limiter.RecordFailure | firmware/internal/auth/limiter.go:58-77 | counts the failure, locks from the fifth on, sweeps first when the table is full and the key new |
| Limiter.Limiter.Login | firmware/internal/auth/auth.go:200-252 | a locked key is refused without counting, a failure counted, a success clears |
| Limiter.FailuresAreBounded | firmware/internal/auth/limiter.go:3-16 | between two successes a window of W seconds holds at most 5 + W/60 failed verifications of a key, and four more for each time a sweep forgot failures of it, which is at most W/60 times |
| Limiter.LoginIsBounded | firmware/internal/auth/auth.go:197-252 | the login, having one key, is bounded so without further condition |
| Limiter.SweepSparesLocked | firmware/internal/auth/limiter.go:86-94 | a sweep keeps an entry exactly when it locks or failed within the minute, so never unlocks one |
| Limiter.LockedExactly | firmware/internal/auth/limiter.go:47-77 | a key is locked exactly when it failed five times since its last success and the last failure is less than a minute ago, unless a sweep forgot some |
| Limiter.LockHolds | firmware/internal/auth/limiter.go:47-77 | attempts with other keys never unlock a locked key |
| Limiter.FifthFailureLocks | firmware/internal/auth/limiter.go:55-76 | a fifth failure in a row locks the key for the whole minute, unless a sweep forgot one of the others |

## Left out

- HTTP handlers, JSON shapes, audit text, localisation and logs: plumbing around the protocols modelled.
- A store error before a login's password is verified: the source returns it without counting an attempt.
- SSH, systemd, terminals and artifact streaming: present only as steps that succeed or fail.
- A change of the keys that manifests are signed with.
- Argon2, Ed25519, SHA-256 and the sealing of keys: abstract functions, or equality of digests.
- Case folding beyond ASCII, and white space beyond ASCII, in names and listings.
- Edits of the model table by others between a run's listing and its writes: the branches for a row already
  gone or already created are not modelled.
- The ids of model rows, and the order in which the ledger's names are written.
- What a price must look like: `parseModelPricing` is an abstract deterministic normaliser.
- The forwarding of notifications and reverse requests by the JSON-RPC reader, and what happens when its
  buffer is full.
- Reading one certificate slot is one step; that its public and its private half are read by two store
  operations is not modelled.
- Rotations truly concurrent with each other, and the tunnel's enable and disable sequence.
- Removing a host together with its keys, in the runs of `KeyRotation`: the script itself is in `KeyFile`.
- Files whose last line is unterminated, in the runs of `KeyRotation`: the single install is covered for them
  in `KeyFile`, and every install leaves a terminated file.
- Configuring passwordless sudo, and the order of a host's other checks.
- Joining a name to its directory's path and the parent of a path, the reading and previewing of single
  files, and the test for binary content.
- The address check of manifest entries: one boolean per entry. The parsing of a manifest's JSON.
