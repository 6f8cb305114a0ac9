# Relief donations and stock: a verified model

This project models the behaviour of the relief-management system that decides what its records
mean: the donation workflow and the stock ledger it feeds, two further record workflows with optimistic
locking, and the scripts that prepare data for it. Handlers and loops are methods proved against
specification functions; the specification functions are then the subject of lemmas over every input,
every run and every interleaving. `dafny verify dfyconfig.toml` checks everything.

## Donations, intakes and stock

A donation moves from entered (E) to verified (V) to processed (P). A warehouse takes a verified donation
in: its intake is a draft (I) or submitted (C), can be re-entered, and is finally verified (V).
Verification of an intake posts its lines to two representations of stock, batch rows and an aggregate
row per warehouse and item. Quantities and money are integers in hundredths, dates are day numbers.

- `Tables`, `Donations`, `Intakes`: the tables and every handler as a transition; a refused submission
  changes nothing.
- `IntakeForms`: what the forms mean: which lines are accepted, what is stored for what was typed, what a
  verification adds to stock, and what becomes of drafts.
- `Store`: the same handlers as methods of a class, with the loops that collect errors and write rows.
- `Runs`: the invariant `Valid` over all runs, and `Frozen`, what no later action can undo.
- `Ledger`: agreement of the two stock tables and the closed form of a history of postings.
- `Conservation`, `Feasibility`: what runs conserve and what they do not.
- `IntakeSessions`, `Races`: unlocked reads and versioned commits in any interleaving. A verifier reads
  the intake header, the donation and the lines in three separate steps.

What the proofs show about the code as it is:

- Stock is posted once per (donation, warehouse), not once per donation. Each warehouse that verifies an
  intake receives the whole donated quantity again; the stock tables gain the donation exactly once when
  one warehouse did so (`StockReceived`). `FiveDonatedTenInStock` is a run of admitted handler calls.
- A GOODS item may be verified with quantity zero, but then no intake of the donation can ever be saved
  (`EntryPossibleIff`, `ZeroQuantityNeverProcessed`).
- The entry handler admits only donations with status V, but its commit can come after the donation has
  become P: exactly when an intake of it was posted since the entry was opened (`EntryLateIff`). The
  transition `Save` with its condition `CanSave` is the commit, so runs allow it for V and P, and the
  invariants hold for both; `CanEnter` is the handler with its guards.
- Order of posting does not matter for quantities, batch rows and expiry dates, but a batch row's unit
  value and batch date are those of whichever line created it. `SameBatchesIff` says when two orders
  leave the same rows.
- Verification also checks its deductions against the donation; on stored lines those checks never fire
  (`VerifyQuantitiesExact`).

- `Dispatch`: the stock step of dispatching a package, on the same two tables.

## Other workflows

- `AccountRequests` (and the class in `RequestDesk`): account requests with an append-only audit log.
  Submissions are two steps; what keeps active emails distinct is the deployed schema's unique index.
  `AccountOutcomes` says what each decision leads to.
- `Events` (and the class in `EventDesk`): disaster events. The edit handler's locked read may hand back
  the row as the session loaded it earlier; both cases are covered.

## Scripts and views

- `CopyHeaders`, `CopyGrammar`, `Purge`: the dump purger. The scan is studied for any way of recognising headers and
  terminators, and instantiated with the program's own as `DUMP`.
- `ItemCodes`, `ItemImport`: codes, ids and names for imported items, and when the item table's
  constraints let an import through. A description of more than sixty characters goes through once and
  then stops every later import that finds it again (`LongNameBlocks`).
- `Migration`: staged movements into transactions, with duplicate detection by signature. The signature of
  a record holds its quantity as a float, that of a stored row as a decimal; the two are equal only for
  multiples of a quarter, so a movement of 0.10 is imported again by every run. `SecondRunIdleIff` is the
  exact condition, on lookup, table and records.
- `Phones`: the phone number formatter and the pass that applies it to a table. A `+1` number with one
  digit missing is "normalised" into a different number (`MissingDigitGoesUnnoticed`), and so is a
  foreign number of ten digits (`InternationalKeptIff`).
- `DonatedSheet`: the sheet of donated items, whose dates and donors hold for the rows below. The
  spelled-out November date changes the date but, unlike every other date, keeps the donor, although the
  comment beside the reset says it happens when the date changes; `DonorOffIff` says for which rows this
  makes a difference.
- `Pages`: page bar and page slices.
- `Common`, `Sums`, `Text`: shared types, sums over finite sets and sequences, string operations.

## Model

| member | source | states |
|---|---|---|
| `Donations.PutRowsOk` | app/features/donations.py:353-409 | whatever accepted rows are written, every item satisfies the table's constraints and every FUNDS item has quantity exactly 1.00 |
| `Donations.RowAcceptedIff` | app/features/donations.py:1392-1452 | exactly which rows each of the three forms accepts, in terms of the fields typed |
| `Donations.RowStored` | app/features/donations.py:833-868 | each row of an accepted form ends up stored with the type, quantity, cost and status it calls for, never overwritten by another row |
| `Donations.VerifiedRowsSettle` | app/features/donations.py:1496-1543 | after writing verification rows the items are the earlier ones and the submitted ones; each submitted one is verified and of its category's type |
| `Donations.VerifySettles` | app/features/donations.py:1491-1543 | a verified donation holds exactly the submitted items, at least one, all verified and of their category's type |
| `Donations.FundsItemEditRejected` | app/features/donations.py:1105-1205 | editing a single FUNDS item never succeeds: it breaks the constraint tying unit and currency to the type |
| `Donations.CreateOutcome` | app/features/donations.py:160-598 | an accepted new donation is E and holds the rows of the form, each as typed, and nothing else |
| `Donations.EditOutcome` | app/features/donations.py:625-936 | an accepted edit leaves the donation E, drops the items that the form does not list and stores the listed ones as typed |
| `Donations.VerifyOutcome` | app/features/donations.py:1288-1722 | an accepted verification makes the donation V with the rows of the form, as verified items, and nothing else |
| `Donations.DeleteOutcome` | app/features/donations.py:939-969 | an entered donation without items is deleted, any other stays |
| `Donations.OnlyEnteredChanges` | app/features/donations.py:1111-1118 | no form changes a donation that is not E or is submitted with another version |
| `Donations.AddItemOutcome` | app/features/donations.py:972-1102 | one pending GOODS item with the typed quantity is added, nothing else changes |
| `Donations.EditItemOutcome` | app/features/donations.py:1105-1205 | quantity and status of one item become those typed; type, cost and everything else stay |
| `Donations.DeleteItemOutcome` | app/features/donations.py:1208-1239 | one item goes, nothing else changes |
| `Intakes.VerificationReclassifies` | app/features/donation_intake.py:700-780 | verification of a line keeps its total, unit value and extended cost, and leaves a positive usable quantity |
| `Intakes.VerifyQuantitiesExact` | app/features/donation_intake.py:684-740 | on a stored line the quantity checks accept exactly non-negative defective and expired amounts that leave something usable; the checks against the donation never fire |
| `Intakes.EntryLineOk` | app/features/donation_intake.py:365-467 | an accepted entry line has positive usable quantity, positive unit value and a cost rounded from both |
| `IntakeForms.EntryLineAcceptedIff` | app/features/donation_intake.py:365-447 | exactly which entry lines are accepted, in terms of the fields typed |
| `IntakeForms.EntryLineShows` | app/features/donation_intake.py:449-467 | an accepted line shows the form field by field: quantities, unit value, batch number and date, expiry date |
| `IntakeForms.EntryFaultTrue` | app/features/donation_intake.py:365-447 | the error reported for a refused entry line is true of it |
| `IntakeForms.SavedEntryShows` | app/features/donation_intake.py:492-540 | a saved entry has such a line for every GOODS item and no other, is a draft if and only if saved as one, and changes nothing else |
| `IntakeForms.EntryRefusedUnless` | app/features/donation_intake.py:204-222 | an entry changes something only for an eligible warehouse, a donation that left E, an open intake and a good header |
| `IntakeForms.LinesExpireLater` | app/features/donation_intake.py:396-402 | in every reachable state no line expires before its batch was made |
| `IntakeForms.SavedVerifiableIff` | app/features/donation_intake.py:604-611 | what was saved can be verified if and only if it is no draft; for a draft no verification form changes anything |
| `IntakeForms.LastEntryDecides` | app/features/donation_intake.py:497 | over every run an intake is a draft if and only if its last saved entry was one, so it reads V only if it was not |
| `IntakeForms.VerifiedLineAcceptedIff` | app/features/donation_intake.py:684-772 | exactly which changes to a stored line a verification accepts |
| `IntakeForms.VerifiedLineShows` | app/features/donation_intake.py:679-784 | a verified line has the defective and expired amounts typed (zero if emptied, as entered if absent), usable is what they leave, and a typed batch number or date replaces the entered one |
| `IntakeForms.VerifyFaultTrue` | app/features/donation_intake.py:684-772 | the error reported for a refused change to a stored line is true of it |
| `IntakeForms.VerificationPosts` | app/features/donation_intake.py:792-890 | from the form to the tables: after an accepted verification the intake shows those amounts, and the stock row and the batch row with the stored number grow by exactly them in each column |
| `IntakeForms.PostLeaves` | app/features/donation_intake.py:838-890 | stock rows that no line is posted to stay as they are |
| `Ledger.PostKeepsAgreement` | app/features/donation_intake.py:838-890 | posting any lines, renamed batch numbers included, keeps each aggregate quantity equal to the sum over its batch rows |
| `Ledger.ReplayStock` | app/features/donation_intake.py:870-890 | after any history an aggregate column is its opening value plus the sum of what each posting contributed |
| `Ledger.ReplayBatch` | app/features/donation_intake.py:838-867 | the same for each batch row |
| `Ledger.ReplayExpiry` | app/features/donation_intake.py:848-849 | a batch row's expiry is the earliest of its opening one and those of all lines posted to it, and empty only if there is none |
| `Ledger.ReplayBatchKeys` | app/features/donation_intake.py:838-867 | exactly the opening batch rows and those touched by some posting exist |
| `Ledger.PostingOrderIrrelevant` | app/features/donation_intake.py:838-890 | two histories that are permutations of each other give the same quantities, batch rows and expiry dates |
| `Ledger.FirstLineFirst` | app/features/donation_intake.py:851-867 | the first line of a history posted to a batch row, by position: some posting touches the row and none before it does |
| `Ledger.FirstPostingSetsUnitValue` | app/features/donation_intake.py:851-867 | after any history, a batch row has the unit value and batch date it had before, or else those of the first line posted to it |
| `Ledger.SameBatchesIff` | app/features/donation_intake.py:844-867 | two orders of the same postings leave identical batch rows if and only if every row they create gets the same unit value and batch date from its first line |
| `Ledger.BatchUnitValueDependsOnOrder` | app/features/donation_intake.py:844-867 | two concrete postings that do not commute on the unit value |
| `Runs.NextKeepsValid` | app/features/donation_intake.py:792-892 | every handler keeps the invariant: item rules, linked statuses, lines covering exactly the GOODS items, journal, agreement of the stock tables |
| `Runs.RunKeepsValid` | app/features/donation_intake.py:214-222 | every reachable state satisfies it: an intake exists only for a donation that left E, and a donation is P exactly when some intake of it is V |
| `Runs.RunFreezes` | app/features/donations.py:1111-1118 | in every run, items of a donation that left E and verified intakes never change, statuses do not go back, the journal only grows |
| `Runs.GoodsFilterExact` | app/features/donation_intake.py:287-299 | in every reachable state, for a donation that left E, the category filter returns exactly its GOODS-typed items |
| `Conservation.RunConserves` | app/features/donation_intake.py:709-890 | over every run, what a stock row gains in all three columns is the donated quantity summed over donations whose intakes at that warehouse were verified |
| `Conservation.RunReplays` | app/features/donation_intake.py:838-905 | over runs of the donation and intake handlers, both stock tables are the opening stock with the journal replayed: no other of these handlers moves them |
| `Conservation.PostedAtMostOnce` | app/features/donation_intake.py:604-611 | an intake is posted at most once, exactly when it reads V, with the lines it shows, and each line accounts for the donated quantity |
| `Conservation.ReceivedPerWarehouse` | app/features/donation_intake.py:892-894 | by the journal, all warehouses together receive a donated quantity times the number of warehouses that verified it |
| `Conservation.ReceivedOnceIff` | app/features/donation_intake.py:892-894 | by the journal, a donation is received exactly once if and only if exactly one warehouse verified it |
| `Conservation.GainIsNewlyPosted` | app/features/donation_intake.py:869-892 | over any run an aggregate stock row gains exactly the quantities of the donations newly verified at its warehouse |
| `Conservation.StockReceived` | app/features/donation_intake.py:869-894 | in the stock tables, the warehouses that newly verified a donation gained its quantity once each, beside what other donations brought; exactly once in all if and only if there is one such warehouse |
| `Conservation.ReceivedAgainIff` | app/features/donation_intake.py:604-611 | before the call: an accepted verification makes one more warehouse receive the donation, and then more than one has if and only if the donation was already P |
| `Conservation.LineDrift` | app/features/donation_intake.py:449 | recomputed and stored cost of a line differ by at most half a cent, and not at all under the exact-cost constraint |
| `Conservation.ValuationDrift` | app/features/reports.py:86-98 | in every reachable state the reported value of any lines is within half a cent per line of the stored costs |
| `Feasibility.EntryPossibleIff` | app/features/donation_intake.py:214-222 | the entry handler accepts some form if and only if its guards hold (donation V, eligible warehouse, intake not verified) and all GOODS quantities are positive |
| `Feasibility.ZeroQuantityNeverProcessed` | app/features/donation_intake.py:430-486 | a verified donation with a zero GOODS quantity and no intakes never gets one in any run |
| `Feasibility.UntouchedVerificationAccepted` | app/features/donation_intake.py:655-780 | a submitted intake can always be verified without changing anything |
| `Feasibility.DonationReceivedTwice` | app/features/donation_intake.py:200-268 | two eligible warehouses can take in and verify the same V donation, every entry being admitted by the guards at its moment |
| `Feasibility.FiveDonatedTenInStock` | app/features/donation_intake.py:869-892 | a concrete run of admitted handler calls in which a donation of five leaves ten in stock |
| `Feasibility.FreshDbValid` | app/features/donation_intake.py:792-892 | a database with verified donations, no intakes and no stock satisfies the invariant |
| `IntakeSessions.InterleavingIsSequential` | app/core/optimistic_locking.py:25-47 | any interleaving of sessions leaves the tables as its successful commits run one after the other would |
| `IntakeSessions.ConcurrentPostingSafe` | app/features/donation_intake.py:596-905 | invariant, frozen state, conservation and replay hold under every interleaving of verifiers, editors and donation handlers |
| `Races.EntryForProcessedDonation` | app/features/donation_intake.py:214-222 | from any suitable state, an interleaving that saves an intake for a donation that is already P |
| `Races.BecomesProcessedIff` | app/features/donation_intake.py:596-905 | under every interleaving, a donation that is not P becomes P if and only if one of its intakes is posted meanwhile |
| `Races.EntryLateIff` | app/features/donation_intake.py:214-222 | an opened entry that commits after any steps of other sessions is made for a P donation if and only if one of the donation's intakes was posted in between |
| `Dispatch.DispatchKeepsAgreement` | app/services/dispatch_service.py:341-429 | a dispatch leaves batch rows and aggregate rows in agreement |
| `Dispatch.TakenIsSum` | app/services/dispatch_service.py:357-395 | a plan takes from a batch row the sum of the positive quantities allocated to it |
| `Dispatch.InventoryAlwaysSuffices` | app/services/dispatch_service.py:398-418 | where the tables agree and no batch row is negative, the checks on aggregate rows never refuse: the batch rows decide |
| `Dispatch.Depot.TakeFromBatches` | app/services/dispatch_service.py:357-395 | the first loop refuses exactly if some batch row has less than the whole plan takes from it; otherwise it lowers each by that and collects the totals |
| `Dispatch.Depot.TakeFromInventory` | app/services/dispatch_service.py:397-427 | the second loop refuses exactly if some aggregate row has less than its total; otherwise it lowers each by it |
| `Dispatch.Depot.DepleteUsableStock` | app/services/dispatch_service.py:341-429 | the stock is lowered by the whole plan, or the plan is refused and nothing changes; the aggregate is the reason exactly when the batch rows suffice |
| `Store.Store.ValidateRows` | app/features/donations.py:238-382 | reports exactly the errors that apply (header, repeated rows, bad rows, no rows, and unpriced new FUNDS items only if nothing else is wrong), none of them exactly for acceptable forms |
| `Store.Store.CreateDonation` | app/features/donations.py:160-598 | a new donation with the submitted items, or no change |
| `Store.Store.EditDonation` | app/features/donations.py:625-936 | items not listed are dropped, the others written, under the submitted version; otherwise no change |
| `Store.Store.VerifyDonation` | app/features/donations.py:1288-1722 | the donation becomes V with exactly the submitted items, or nothing changes |
| `Store.Store.DeleteDonation` | app/features/donations.py:939-969 | only an entered donation without items is deleted |
| `Store.Store.AddDonationItem` | app/features/donations.py:972-1102 | a GOODS item is added to an entered donation that lacks it, or nothing changes |
| `Store.Store.EditDonationItem` | app/features/donations.py:1105-1205 | quantity and status of an item of an entered donation change under its version, if the table's constraints allow |
| `Store.Store.DeleteDonationItem` | app/features/donations.py:1208-1239 | an item of an entered donation is removed |
| `Store.Store.ReadEntryLines` | app/features/donation_intake.py:332-467 | exactly the lines that pass their checks are collected, and exactly the line errors that apply are reported |
| `Store.Store.CompareWithDonation` | app/features/donation_intake.py:469-490 | reports exactly the totals that differ from the donation and the items without data; a repeated batch is impossible |
| `Store.Store.EnterIntake` | app/features/donation_intake.py:302-577 | the error list holds exactly the errors that apply, a refusal by the line constraints included; if it is empty the tables become those of `Save`, which `IntakeForms.SavedEntryShows` describes |
| `Store.NoErrorsIffAccepted` | app/features/donation_intake.py:469-490 | the error list is empty if and only if every GOODS item has a good line with exactly the donated total |
| `Store.Store.ReadVerifyLines` | app/features/donation_intake.py:667-784 | the verified lines, which `IntakeForms.VerifiedLineShows` describes, and exactly the errors of the verification form |
| `Store.Store.PostLines` | app/features/donation_intake.py:797-890 | line by line upserts into both stock tables amount to one posting of all lines |
| `Store.Store.VerifySubmitted` | app/features/donation_intake.py:596-905 | all tables change together as one verified posting, which `IntakeForms.VerificationPosts` describes, or none does |
| `AccountRequests.AuditReplaysToStatus` | app/features/account_requests.py:120-239 | under every interleaving each request's audit log is submitted, optional review, at most one decision, and replays to its status; its length is the version; active requests have distinct emails, although submitters look them up and insert at different moments |
| `AccountRequests.DecisionsAreFinal` | app/features/account_requests.py:164-183 | an approved or denied request and its log never change again |
| `AccountRequests.SecondSubmissionRefused` | app/features/account_requests.py:31-66 | of two submitters with one email who both saw no active request the second is refused by the unique index, and would not be without it |
| `AccountOutcomes.DecisionOutcome` | app/features/account_requests.py:120-239 | a decision is accepted if and only if the request is open for it; then review, approval and denial lead to R, A and D, with the given text as reason, one audit row with the matching event, note and actor, and nothing else changed |
| `AccountOutcomes.LogOutcome` | app/features/account_requests.py:131-137 | the log of the request grows by the event of the decision, other logs by nothing |
| `AccountOutcomes.SubmissionOutcome` | app/features/account_requests.py:19-73 | a complete form whose email has no active request becomes a submitted request with its audit row; any other changes nothing |
| `AccountOutcomes.LogIsDecisions` | app/features/account_requests.py:120-239 | under every interleaving the log behind its first row is, event by event, the decisions committed |
| `AccountOutcomes.StatusIsDecided` | app/features/account_requests.py:159-239 | under every interleaving a request is A (D) if and only if a committed session decided to approve (deny) it, and S if and only if none was committed |
| `AccountOutcomes.DecisionsAsAsked` | app/features/account_requests.py:120-239 | no decision is committed that no administrator asked for |
| `RequestDesk.Desk.CreateRequest` | app/features/account_requests.py:19-73 | a request with its first audit row, or no change; logs stay legal and active emails distinct |
| `RequestDesk.Desk.StartReviewOf` | app/features/account_requests.py:120-155 | a submitted request becomes R with the matching audit row, or nothing changes; its log still replays to its status |
| `RequestDesk.Desk.ApproveRequest` | app/features/account_requests.py:159-195 | an active request becomes A with the given notes and an approved audit row, or nothing changes; its log still replays to its status |
| `RequestDesk.Desk.DenyRequest` | app/features/account_requests.py:199-239 | an active request becomes D with the given reason and a denied audit row, or nothing changes; its log still replays to its status |
| `Events.LifecycleHolds` | app/features/events.py:185-411 | under every interleaving: details are valid; active, no closing date and no reason go together; closing is not before the start; every commit continues the previous one and does what was asked: an edit, submitted with the version the row held, shows its form, a closure its day and reason |
| `Events.SavedOnShownVersion` | app/features/events.py:299-326 | an edit that commits found the row active and at the submitted version, whether or not the locked read was fresh |
| `Events.FormValidIff` | app/features/events.py:39-129 | exactly which forms pass validation |
| `Events.EditOutcome` | app/features/events.py:261-350 | an edit is accepted for an active event at its version with a valid form, and the row then shows the form |
| `Events.CloseOutcome` | app/features/events.py:353-411 | a closure is accepted with a reason and a day not before the start, and sets exactly day, reason and status |
| `Events.ClosedIsFinal` | app/features/events.py:353-411 | a closed event never changes again as long as its row exists |
| `EventDesk.Desk.CreateEvent` | app/features/events.py:185-249 | an active event from a valid form, or no change; the lifecycle invariant is kept |
| `EventDesk.Desk.EditEvent` | app/features/events.py:261-350 | the editable fields of an active event change under the submitted version; the lifecycle invariant is kept |
| `EventDesk.Desk.CloseEvent` | app/features/events.py:353-411 | an active event is closed on the given day with a reason, or nothing changes; the lifecycle invariant is kept |
| `CopyHeaders.WrittenHeader` | scripts/purge_database.py:80-85 | every header written for a table in schema public is recognised with that name |
| `CopyGrammar.HeaderIff` | scripts/purge_database.py:80-85 | a line is read as the header of a table if and only if it is put together from the parts of the pattern |
| `CopyGrammar.TerminatorIff` | scripts/purge_database.py:111 | a terminator is a backslash and a dot with nothing but whitespace around |
| `CopyHeaders.SpellingReduced` | scripts/purge_database.py:49-57 | every spelling of a table name, in any case, quoted or not, behind a schema or not, is reduced to the bare name |
| `CopyHeaders.PreservedIffListed` | scripts/purge_database.py:59-62 | a table is preserved, however spelled, if and only if its bare name is on the list |
| `CopyHeaders.ListedNamesAreBare` | scripts/purge_database.py:24-46 | all names on the list are bare names, so each is preserved in every spelling |
| `CopyHeaders.HeaderIsNoTerminator` | scripts/purge_database.py:80-85 | no line is both a header and a terminator |
| `Purge.ScanIdempotent` | scripts/purge_database.py:94-136 | purging a purged dump changes nothing, unterminated blocks and header-like data included |
| `Purge.HeadersSurvive` | scripts/purge_database.py:94-136 | the output has the same block headers in the same order with the same classification, and ends in or outside a block as the input does |
| `Purge.ModeIsMeaning` | scripts/purge_database.py:94-136 | the scanner's state before each line says which block the line lies in, by a definition that does not mention the scan |
| `Purge.ScanSelects` | scripts/purge_database.py:94-140 | the output is the input without exactly the data lines of blocks whose table is not preserved |
| `Purge.HeadersAreStarts` | scripts/purge_database.py:94-100 | the headers found are exactly the header lines that lie in no other block, in order, each with its table and classification |
| `Purge.PurgePiecewise` | scripts/purge_database.py:94-140 | behind a terminated prefix, purging a concatenation is concatenating purged parts |
| `Purge.PiecewiseIff` | scripts/purge_database.py:94-140 | a prefix can be purged separately whatever follows if and only if its last block is terminated |
| `Purge.BlockScanned` | scripts/purge_database.py:100-131 | a block is kept whole if its table is preserved, and otherwise keeps header and terminator |
| `Purge.ListedTableKept` | scripts/purge_database.py:94-140 | in a dump, a block whose header has the table name in any spelling keeps its data lines if and only if the bare name is on the list |
| `Purge.UserRowsKept` | scripts/purge_database.py:24-62 | the block of the quoted user table stays as it is |
| `Purge.ProcessDump` | scripts/purge_database.py:65-146 | the nested loops compute that scan, the number of blocks and the sets of preserved and purged tables |
| `Purge.SkipBlock` | scripts/purge_database.py:106-131 | the inner loops keep or drop a block's data and keep its terminator |
| `ItemCodes.ReadsBack` | scripts/populate_upc_inventory.py:39 | decimal suffixes are injective: a numeral reads back as its number |
| `ItemCodes.CodeCharsKept` | scripts/populate_upc_inventory.py:32 | code characters of a description are kept one by one and in order, others are dropped |
| `ItemCodes.BaseShows` | scripts/populate_upc_inventory.py:32-34 | a base is the first twelve code characters, or ITEM if there are none |
| `ItemCodes.CandidateShows` | scripts/populate_upc_inventory.py:36-41 | each code tried is the base, cut as far as sixteen characters require, and the number |
| `ItemCodes.SomeCandidateFree` | scripts/populate_upc_inventory.py:36-41 | pigeonhole: some number of up to k digits gives a free code once there are more k-digit numbers than codes |
| `ItemCodes.FirstFreeBound` | scripts/populate_upc_inventory.py:36-41 | with fewer than 10000 codes the search stops within as many numbers as there are codes, and nothing of the base is cut off |
| `ItemCodes.GenerateItemCode` | scripts/populate_upc_inventory.py:30-44 | always terminates with the first free candidate; the code has 1 to 16 characters and is new unless there are 9 times 10 to the 15 codes |
| `ItemImport.ChosenIsExact` | scripts/populate_upc_inventory.py:76-84 | exactly the absent descriptions are chosen, each once |
| `ItemImport.ChosenInOrder` | scripts/populate_upc_inventory.py:76-84 | of every absent description the first record is chosen, in order, with its category |
| `ItemImport.TrimSpacesTrims` | scripts/populate_upc_inventory.py:57-58 | names are compared without the spaces around them, and only without those |
| `ItemImport.CreatedFresh` | scripts/populate_upc_inventory.py:93-117 | ids follow the largest one without gaps, and old and new codes are pairwise distinct |
| `ItemImport.CreatedNames` | scripts/populate_upc_inventory.py:76-117 | for descriptions of at most sixty characters all new names are new and distinct |
| `ItemImport.CodesAssigned` | scripts/populate_upc_inventory.py:93-117 | the codes of the new rows are a function of the descriptions and the codes that exist |
| `ItemImport.ImportCommitsIff` | scripts/populate_upc_inventory.py:99-119 | the inserts go through the unique names, codes and SKU codes and the category column if and only if the cut descriptions are pairwise different and no names yet, every one has a category that exists, and no assigned code is the SKU code of another item |
| `ItemImport.ShortNamesFresh` | scripts/populate_upc_inventory.py:58-84 | descriptions of at most sixty characters that the query finds never stop an import by their names |
| `ItemImport.LongNamesRefused` | scripts/populate_upc_inventory.py:96-119 | two descriptions that differ in their 61st character: the second insert is refused, and no item is created |
| `ItemImport.LongNameBlocks` | scripts/populate_upc_inventory.py:96-119 | once an import has committed a description, every later import that chooses it again is refused as a whole |
| `ItemImport.LongNameChosenAgain` | scripts/populate_upc_inventory.py:58-84 | and a description of more than sixty characters is chosen again, because its name was cut |
| `ItemImport.ItemTable.InsertAll` | scripts/populate_upc_inventory.py:99-119 | all rows are inserted, or none if one is refused |
| `ItemImport.ItemTable.CreateMissingItems` | scripts/populate_upc_inventory.py:46-121 | commits exactly when the import can go through and it is no dry run; then there is a row per absent description, each with the next id, its cut name and the first free code; otherwise the table is unchanged |
| `Migration.FreshExactly` | scripts/migrate_staging_to_transaction.py:272-296 | exactly the unknown signatures are added |
| `Migration.FreshOnce` | scripts/migrate_staging_to_transaction.py:272-296 | each added signature is added by one transaction |
| `Migration.FreshConcat` | scripts/migrate_staging_to_transaction.py:248-296 | the second part of a batch knows what the first part added |
| `Migration.ResolveShows` | scripts/migrate_staging_to_transaction.py:248-262 | exactly which records are skipped and why; any other becomes a transaction with its kind, quantity, notes and the ids found |
| `Migration.NotesShow` | scripts/migrate_staging_to_transaction.py:264-272 | the notes are date, comment and source, those that there are, joined by semicolons |
| `Migration.AddedInOrder` | scripts/migrate_staging_to_transaction.py:272-296 | the first records of unknown signatures are added in the order of the records |
| `Migration.CountsRecords` | scripts/migrate_staging_to_transaction.py:248-262 | each count is the number of records skipped for that reason |
| `Migration.FloatExactIff` | scripts/migrate_staging_to_transaction.py:275-276 | within the column's range a float holds a quantity exactly if and only if it is a multiple of a quarter |
| `Migration.MigrationComplete` | scripts/migrate_staging_to_transaction.py:191-212 | every resolvable record is found in the table afterwards if and only if the batch is recognisable (no first record of a new signature has an inexact quantity or UNKNOWN mapped to zero); added signatures are then distinct and were not there before |
| `Migration.AddedAreFirst` | scripts/migrate_staging_to_transaction.py:272-296 | the added transactions are those of the first records of signatures the table does not have |
| `Migration.SecondRunIdleIff` | scripts/migrate_staging_to_transaction.py:173-212 | a second run adds nothing if and only if the batch is recognisable, a condition on lookup, table and records |
| `Migration.AlwaysIdleIff` | scripts/migrate_staging_to_transaction.py:203-212 | for exact quantities, no table and batch is ever imported twice if and only if UNKNOWN does not stand for id zero or no item resolves |
| `Migration.InexactAddedAgain` | scripts/migrate_staging_to_transaction.py:275-296 | a resolvable record with an inexact quantity is added by every run, whatever the table holds |
| `Migration.RunsCompose` | scripts/migrate_staging_to_transaction.py:173-296 | behind a recognisable batch, two runs add what one run over both parts adds |
| `Migration.RunsComposeIff` | scripts/migrate_staging_to_transaction.py:173-296 | a batch can be cut off and run first, whatever follows, if and only if it is recognisable |
| `Migration.ImportedTwice` | scripts/migrate_staging_to_transaction.py:203-212 | with warehouse id zero for UNKNOWN a record is added by every run |
| `Migration.TenthImportedTwice` | scripts/migrate_staging_to_transaction.py:275-276 | so is a record with quantity 0.10 and proper ids |
| `Migration.SortOut` | scripts/migrate_staging_to_transaction.py:244-296 | the loop collects exactly the first transaction of each unknown signature and its four counts sum to the input length |
| `Migration.TransactionTable.MigrateRecords` | scripts/migrate_staging_to_transaction.py:215-322 | the table grows by exactly those transactions, or not at all on a dry run or a refused batch |
| `Phones.NormalizableIff` | app/core/phone_utils.py:57-75 | which numbers are normalised: ten digits, or eleven behind a recognised country code |
| `Phones.NormalizedValidates` | app/core/phone_utils.py:24-81 | every normalised number passes the format check |
| `Phones.InFormatIff` | app/core/phone_utils.py:24-36 | the format is exactly that of ten digits written out |
| `Phones.NormalizeValidIsTrim` | app/core/phone_utils.py:24-81 | normalising a valid number returns it trimmed |
| `Phones.LastTenDigitsKept` | app/core/phone_utils.py:60-81 | the last ten digits are preserved |
| `Phones.SubscriberKeptIff` | app/core/phone_utils.py:63-65 | behind +1 the number after the country code is preserved if and only if there were eleven digits |
| `Phones.InternationalKeptIff` | app/core/phone_utils.py:57-75 | a number written with a plus sign keeps all its digits if and only if there are eleven; otherwise a 1 is put before them |
| `Phones.MissingDigitGoesUnnoticed` | app/core/phone_utils.py:63-65 | +1 with a digit missing is formatted with the country code as part of the area code |
| `Phones.MissingDigitExample` | app/core/phone_utils.py:63-65 | a concrete such number |
| `Phones.PlusTenDigits` | app/core/phone_utils.py:63-75 | a plus sign and any ten digits are taken for a number without country code |
| `Phones.ForeignNumberExample` | app/core/phone_utils.py:63-75 | a concrete foreign number that becomes a number of the home country |
| `Phones.MigrateTable` | scripts/migrate_phone_numbers.py:35-89 | one pass over the column in place: a number that is given, not in the format and dialable becomes a valid one with the digits 1 and its last ten; every other row, and every row of a dry run, stays; counts and failures are exact |
| `Phones.MigratedMeans` | scripts/migrate_phone_numbers.py:58-88 | what one pass does to one number, and when it is updated or reported |
| `Phones.UpdatesCounted` | scripts/migrate_phone_numbers.py:70-80 | the number of updates is that of the rows to be written anew |
| `Phones.FailuresListed` | scripts/migrate_phone_numbers.py:81-88 | the failures are exactly the given rows that are neither in the format nor dialable, in order |
| `Phones.OnePassSettles` | scripts/migrate_phone_numbers.py:58-88 | after one pass a given number is valid or a reported failure, and no number that was valid or failed has changed |
| `Phones.SecondPassIdle` | scripts/migrate_phone_numbers.py:58-88 | a second pass updates nothing and reports the same failures |
| `DonatedSheet.DonorUnique` | scripts/import_mlss_warehouse_staging.py:536-541 | the donor rule, stated without the scan, gives each row one donor |
| `DonatedSheet.DateInForce` | scripts/import_mlss_warehouse_staging.py:510-521 | the date in force is that of the latest row with one, the text date winning over a parsed one |
| `DonatedSheet.RecordedRowsExactly` | scripts/import_mlss_warehouse_staging.py:520-546 | recorded are exactly the rows with an item and a quantity that have a date at or above them |
| `DonatedSheet.RecordedRowsRise` | scripts/import_mlss_warehouse_staging.py:507-570 | from top to bottom |
| `DonatedSheet.ParseItemsDonated` | scripts/import_mlss_warehouse_staging.py:503-570 | exactly the dated item rows with a quantity are recorded, in order, each with the date in force and the donor the rule gives it |
| `DonatedSheet.NovemberKeepsDonor` | scripts/import_mlss_warehouse_staging.py:510-518 | the text date changes the date and keeps the donor of the day before |
| `DonatedSheet.DonorOffIff` | scripts/import_mlss_warehouse_staging.py:510-541 | for every sheet and row, the donor differs from the one dates call for if and only if a text date stands between the row and the one it inherits from, and that one does not name the default donor |
| `DonatedSheet.DonorsExist` | scripts/import_mlss_warehouse_staging.py:536-541 | every row has a donor by the actual and by the announced rule |
| `Pages.IterPages` | app/features/dashboard.py:1111-1120 | the generator's loop yields the specified entries |
| `Pages.BarExact` | app/features/dashboard.py:1111-1120 | exactly the selected page numbers are shown |
| `Pages.BarNumbers` | app/features/dashboard.py:1111-1120 | a page number is in the bar if and only if it is at an edge or in the window around the page |
| `Pages.DefaultBarNumbers` | app/features/dashboard.py:1111-1120 | by default the first two, the last two and those within two of the page |
| `Pages.BarCounts` | app/features/dashboard.py:1111-1120 | each of them once |
| `Pages.BarMarks` | app/features/dashboard.py:1117-1118 | there are exactly as many markers as gaps before shown pages |
| `Pages.BarFits` | app/features/dashboard.py:1111-1120 | neighbouring numbers are consecutive, and a marker stands exactly where pages in between are left out |
| `Pages.BarSize` | app/features/dashboard.py:1111-1120 | at most two markers, and at most as many numbers as edges and window add up to, for any sizes and any page |
| `Pages.DefaultBarShows` | app/features/dashboard.py:1111-1120 | with the default sizes: first, current and last page are shown, in at most nine numbers and two markers |
| `Pages.PagesTile` | app/features/dashboard.py:1069-1098 | pages 1 to n tile the list in order; all but the last are full and later pages are empty |

## Left out

- Routing, templates, flash texts, uploads, logging and permissions: framework plumbing. Header fields
  and documents of a donation form appear as `headerOk` and `docsOk`.
- Donation header values and the running `total_value`: the total is only shown in a message.
- Numeric overflow, `NaN` and inputs with more than two decimals: form amounts are integers in hundredths.
- Several batch lines per item in one intake: form fields are keyed by item id, so one line per item is
  all the handlers can submit; the duplicate-batch check can therefore never fire.
- Batch numbers and other texts arrive trimmed and in upper case; ids are canonical.
- The two schemas in the repository differ: the deployed one (DMIS_DATABASE_SCHEMA_2025-12-03_1525.sql)
  lets an intake line's expiry date be empty, as the handler needs, and demands an exact extended cost;
  app/db/models.py does neither. Expiry is optional here, and `exactCost` selects the cost constraint.
- Commits are atomic. Two transactions that both create the same missing batch or inventory row at once
  are not distinguished from two that run one after the other.
- Donation handlers are atomic steps: adding an item does not touch the header's version, so a race of
  an item form with a verification of the header is not covered.
- The unique index on active emails is that of the deployed schema (line 3123 of
  DMIS_DATABASE_SCHEMA_2025-12-03_1525.sql); app/db/models.py does not declare it.
- The journal is the audit entry of each intake verification, extended by the posted lines.
- `Events.ClosedIsFinal`: an event row may still be deleted after closing, as the program allows.
- `ItemImport.CreatedNames`: stated for descriptions of at most sixty characters, because longer ones are
  cut and may clash; `ImportCommitsIff` says exactly when that stops an import.
- `ItemImport`: the unit of measure EA exists; the constant columns of new items are not shown.
- Letter case and digits in `CopyHeaders`, `Phones`, `ItemCodes` and `ItemImport` are ASCII; descriptions arrive in
  upper case where the program converts them first.
- `Migration`: the lookup of a record does not depend on the batch, so it is done before the loop; only
  transactions whose creator matches the pattern appear. Quantities fit the column numeric(12,2), in whose
  range the floats nearest to different quantities are different; that fact about rounding is used and
  not proved.
- Reading lookup tables, `generate_sql_migration`, and the dry-run printouts.
- `calculate_net_inventory` and `populate_upc_inventory`: one grouped sum and one insert per item.
- Other sheets of the import, item categories and units, date parsing: cells are already parsed.
- Grouped totals of the item movement detail page: plain sums over query results.
- `Dispatch`: packages, reservations and relief requests; quantities are integers in the smallest unit.
  Runs of the donation workflow do not contain dispatches.
- Transfers: `execute` in app/features/transfers.py reads attributes of a transfer that app/db/models.py
  does not define.
- `app/features/intake_aidmgmt.py`, relief requests and packaging.
