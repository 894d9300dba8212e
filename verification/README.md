# cashp: backup engine, billing ledger and tenancy, in Dafny

This project models the parts of cashp whose correctness is hard to see from one
function at a time, and proves what they promise for all inputs, all runs or all
interleavings.

**Backup engine.** A backup splits every file at content-defined cuts found by a
rolling hash, keeps each distinct block once, and seals entries and blocks with one
checksum; a verification takes the archive apart again. Pruning keeps a number of
daily, weekly, monthly and yearly backups and may enforce a size cap.

**Billing ledger.** Money is integer minor units. Documents are numbered by a
compare-and-set loop that many issuers run at once. Invoices are drafted, issued,
credited, charged with failover between providers, refunded and retried on a
schedule; metered overage is rolled up and billed once per rollup row.

**Tenancy.** Users and organizations share one namespace in which no name is ever
reused. An organization is meant to have exactly one owner; it is proved when it does.

| file | models |
|---|---|
| `Chunking.dfy` | content-defined chunking |
| `Manifest.dfy` | entries, the block index, the canonical byte stream and its digest |
| `Verify.dfy` | verification and reassembly of an archive |
| `Create.dfy` | collecting sources, deduplication, assembling an archive |
| `Retention.dfy` | listing and pruning the backup directory |
| `Money.dfy`, `AmountText.dfy` | rounding, proration, 64-bit overflow, decimal amounts |
| `DocumentNumbers.dfy` | concurrent number allocation, statement by statement |
| `Attempts.dfy` | payment attempts, their outcomes and keys |
| `ChargeProtocol.dfy` | concurrent charging under one key, statement by statement |
| `ChargeRefinement.dfy` | that protocol, one call at a time, against the ledger |
| `Invoices.dfy`, `Ledger.dfy` | one invoice; all sequential ledger runs |
| `LedgerEffects.dfy` | what each ledger operation does to the rows |
| `Service.dfy` | the ledger as a class of tables |
| `Metering.dfy` | rollups and the invoice run, which may be cut off anywhere |
| `Dunning.dfy`, `DunningEffects.dfy` | the retry schedule and its passes; which invoices a pass charges |
| `Tenancy.dfy`, `Directory.dfy` | users, organizations, memberships, names |
| `TenancyEffects.dfy` | what each tenancy operation does to the rows |
| `Bytes.dfy`, `Decimal.dfy`, `Text.dfy` | byte order, numerals and text the others share |

How to read it. Each state machine is a value (`Books`, `State`, `Tables`) with one
function per operation, an invariant, and lemmas over `Run`, the state after any list
of operations. Where the program updates rows or slices in place, a method with loops
(often of a class) is proved equal to that function, so what is proved of the function
holds of the code's form. The `Effects` modules say of each operation, on plain row
fields and without its helper functions, when it is accepted, what it changes and what
it leaves alone. `dafny verify dfyconfig.toml` checks everything.

Modelling choices. SHA-256 is a function parameter; a lemma that needs it to be free
of collisions says so, on the bytes involved only. Tar, gzip, JSON and encryption are
the identity. Times are numbers passed in. Providers, tax rules, meter prices and the
name blocklist are parameters. A database row is a map entry or a sequence element,
and generated identifiers are fresh numbers. Ledger amounts are unbounded integers;
the 64-bit arithmetic of proration and of amount parsing is modelled exactly beside
them.

Where the code and its comments differ, the model follows the code:

- `settleIfPaid` is described as moving an invoice to paid or partial according to its
  balance. It does so only along the edges of the invoice state machine, so an issued,
  due or overdue invoice that is paid in full stays in its state (`Invoices.PaidIffEdge`).
- A charge is described as idempotent on its key. The provider list is read anew in
  every call, in an order that changes with provider health, and the stored key depends
  on a provider's place in it. A repeated call is without effect, whatever has changed
  since, exactly when the first provider of the earlier call had an active instrument or
  the money was taken (`Ledger.ReplayIsIdempotentIff`). Concurrent calls take the money
  once exactly when none of the lists they may read leaves a second provider to fall over
  to and all of them agree on the key of the first attempt
  (`ChargeProtocol.OneCapturePerKeyIff`).
- `RefundPayment` promises a matching credit note. The provider is asked first, so the
  refund is recorded exactly when it fits under what is not yet credited
  (`Ledger.RefundRecordedIff`).
- An offset of the retry schedule is said to fire once because attempts are counted.
  Any attempt counts, so an offset fires exactly when the event that took the count past
  its place was a pass that began there; a renewal charge or a failover try skips it
  (`Dunning.FiredIff`, `Dunning.OffsetIsSkipped`).
- A rollup row is flagged before its invoice is issued. That rules out charging twice; a
  run cut off in between loses the charge for good (`Metering.CutLosesIff`).
- Document numbers never repeat, but documents can print alike after the prefix setting
  changes, exactly when one prefix is the other followed by digits that do not begin with
  a zero (`DocumentNumbers.PrefixesCollideIff`).
- The block index is checked by count and membership. It lists exactly the stored
  blocks exactly when its hashes are distinct (`Verification.IndexExactIffDistinct`).
- The archive checksum does not cover modification times. It determines the blocks, the
  rest of every entry and with them the files, exactly while no path holds both a NUL and
  an LF (`Verification.ChecksumSealsIff`): the stream separates fields by these bytes
  without lengths or escapes, so every list of two entries or more has a second reading
  with such a path (`Manifest.SecondReading`). Merging two neighbouring entries of an
  accepted archive gives one that verification accepts under the same checksum, with
  other files, exactly when neither file is required (`Verification.MergedAcceptedIff`,
  `Creation.CreatedDouble`).
- Taking one more backup never saves an older one from the next pruning, except that under
  a size cap a small newcomer that displaces a larger backup can free room for it
  (`Retention.OneMoreUnderCap`).
- The last-owner guard counts owner rows. `AcceptOrgInvite` does not look for an existing
  membership, so a member can hold two rows; making that member the owner and then
  changing their role leaves the organization without an owner
  (`Tenancy.AcceptThenTransferIff`, `Tenancy.GuardFailsIff`,
  `Tenancy.OwnerlessOrganization`).
- `TransferOrgOwnership` does not look at who calls it; `Tenancy.TransferKeepsIff` says
  when that is harmless.
- Organizations can be set to be created by invite only, but no operation issues such an
  invite, so none is created while that mode is in force: over a run under it from empty
  tables there never is one (`Tenancy.InvitesOverRuns`).

## Model

| member | source | states |
|---|---|---|
| Chunking.NewBuzTables | src/backup/chunk.go:28-43 | the filled arrays hold the generated table and, for each byte, its value rotated by the window length |
| Chunking.WindowHashSlide | src/backup/chunk.go:57-58 | appending a byte to a window rotates its from-scratch hash and xors the byte's value in |
| Chunking.RollingStep | src/backup/chunk.go:57-61 | the incremental update yields the hash of the last 48 bytes of the chunk, computed from scratch |
| Chunking.Roll | src/backup/chunk.go:57-61 | one loop step keeps the rolling hash equal to the hash of the current window |
| Chunking.SplitBlocks | src/backup/chunk.go:47-80 | the rolling splitter cuts exactly where a splitter that rehashes every window from scratch does |
| Chunking.SplitIsTheChunking | src/backup/chunk.go:47-80 | a list of chunks is the result if and only if it concatenates to the input, every chunk but the last ends at a cut and no chunk passes a cut |
| Chunking.SplitInNumbers | src/backup/chunk.go:10-80 | the same in plain numbers: at most 65536 bytes, no place from 2048 bytes on passed where the last 48 bytes hash to a multiple of 8192, and every chunk but the last 65536 long or ending at such a place |
| Chunking.TableStarts | src/backup/chunk.go:28-43 | the first two values of the generated table |
| Chunking.SplitSizes | src/backup/chunk.go:10-19 | chunks concatenate to the input, none is empty or longer than 65536, all but the last have at least 2048 bytes |
| Chunking.Resynchronise | src/backup/chunk.go:47-80 | if a cut falls after `a` in `a+s`, the chunks of `a+s` are those of `a` followed by those of `s` |
| Chunking.EditsShareTheTail | src/backup/chunk.go:47-80 | two files that both have a cut in front of a common tail have the same chunks from there on |
| Chunking.AppendKeepsEarlierChunks | src/backup/chunk.go:47-80 | appending to a file keeps all its chunks except possibly the last |
| Bytes.LessExactly | src/backup/manifest.go:121-125 | names are ordered by the first byte that differs, smaller first, and a prefix comes before what it begins |
| Manifest.CollectSorted | src/backup/manifest.go:121-125 | the names gathered and sorted in place are the one sorted listing of the set |
| Manifest.BlockIndex | src/backup/manifest.go:139-152 | the index lists every stored block once, in name order, with its size |
| Manifest.Digest | src/backup/manifest.go:111-136 | the loops hash exactly the canonical stream of entries in order and blocks in name order |
| Manifest.CanonicalInjective | src/backup/manifest.go:111-136 | while no path holds both a NUL and an LF, equal streams come only from equal block maps and entries that agree on everything but modification time |
| Manifest.MergedStream | src/backup/manifest.go:111-136 | merging two neighbouring entries into one, whose path spells the first entry out, leaves the stream as it is |
| Manifest.SecondReading | src/backup/manifest.go:111-136 | every list of two entries or more has another, one shorter, with the same stream and a path that holds both a NUL and an LF |
| Verification.VersionWarns | src/backup/backup.go:252-275 | format 1 passes, major version 0 passes with a warning, nothing later passes |
| Verification.VerifyBlocks | src/backup/verify.go:118-140 | the early-exit loops accept exactly when counts, membership and sizes match and every block hashes to its name |
| Verification.IndexExactIffDistinct | src/backup/verify.go:125-137 | an accepted index names exactly the stored blocks if and only if its hashes are distinct |
| Verification.IndexCanMissABlock | src/backup/verify.go:29-80 | every accepted archive of two blocks or more is accepted as well, with the same files, under an index that names one block only |
| Verification.Reassemble | src/backup/verify.go:145-171 | the nested loops return every file's joined blocks, or a checksum mismatch if any entry is bad |
| Verification.VerifyContents | src/backup/verify.go:175-194 | refuses for a missing required file or a database without its magic, and only then |
| Verification.Verify | src/backup/verify.go:29-80 | the checks in the code's order decide exactly as the specification of an acceptable archive |
| Verification.AcceptedIff | src/backup/verify.go:29-194 | an archive is accepted if and only if its format is 1 or older, blocks, index, digest and entries check out, the three required files are there and every .db file has the 16 header bytes |
| Verification.RefusedWith | src/backup/verify.go:29-194 | the version decides the error first, then any mismatch, then a missing file, then a bad database |
| Verification.VerifySound | src/backup/verify.go:29-80 | every file of an accepted archive joins its blocks with the recorded size and hash; required files and database magic are there |
| Verification.SameChecksumSameBytes | src/backup/verify.go:145-171 | accepted archives with equal entry checksums return equal bytes however they were chunked, if the hash is injective on those files |
| Verification.ChecksumSealsIff | src/backup/verify.go:57-64 | beside an accepted archive without such paths, another accepted one of the same checksum returns the same files, from the same blocks and sealed entries, if and only if it has no such path either |
| Verification.MergedAcceptedIff | src/backup/verify.go:29-80 | merging two neighbouring entries of an accepted archive, of paths of their own, keeps the checksum and is accepted if and only if neither file is required; the files it returns then differ |
| Creation.CollectSources | src/backup/create.go:151-204 | fails exactly when a required file is missing; otherwise each path once, from its first claimant, in path order |
| Creation.CollectionIsDistinct | src/backup/create.go:151-204 | a collected list never holds a path twice |
| Creation.BlockStore.AddFile | src/backup/create.go:116-146 | appends the file's block names and stores only blocks not present yet; an unreadable file leaves the map alone |
| Creation.AddAll | src/backup/create.go:61-75 | entries, shared block map and total size of all sources, or a read error exactly when one is unreadable |
| Creation.Create | src/backup/create.go:61-111 | builds the archive, verifies it and returns it exactly when verification accepts |
| Creation.BackupRecords | src/backup/create.go:61-146 | the manifest says format 1.0.0 and records path, mode, size, time, hash and chunk names of every source in order |
| Creation.EntryRoundTrip | src/backup/create.go:116-146 | each entry's block names resolve in the shared map and join to the file's bytes |
| Creation.CreateVerifyRoundTrip | src/backup/create.go:61-146 | verifying a created archive returns every file byte for byte, or the very refusal its contents call for |
| Creation.CreateSucceedsIff | src/backup/create.go:28-112 | with the required files collected, creation succeeds if and only if every database source has its magic |
| Creation.CreatedDouble | src/backup/create.go:61-111 | every created archive with two neighbouring files that are not required has a second manifest over the same blocks, accepted under the same checksum, that lacks the first of them |
| Creation.StoredAtMostOriginal | src/backup/create.go:74-80 | deduplication never stores more bytes than it was given |
| Retention.NormalizeRetention | src/backup/backup.go:132-159 | each setting stays, or if too small becomes 1 for daily and 0 for the others |
| Retention.Scan | src/backup/retention.go:35-92 | the listing holds every file once, with times that never increase, ties by name |
| Retention.OnePassIsFourPasses | src/backup/retention.go:132-159 | the single greedy pass keeps what four separate marking passes keep: yearly, monthly, weekly, then daily |
| Retention.OneSlotLess | src/backup/retention.go:132-159 | one slot less costs at most one kept backup and rescues none |
| Retention.InsertionExchange | src/backup/retention.go:132-159 | in the count pass, one more full backup anywhere leaves newer decisions alone, rescues no older backup and displaces at most one, and none unless it is kept itself |
| Retention.OneMoreBackup | src/backup/retention.go:112-174 | adding a full backup to a directory without a cap rescues no file from the next pruning and displaces at most one |
| Retention.OneMoreUnderCap | src/backup/retention.go:112-174 | under any policy, a full backup added to a directory saves some file from the next pruning if and only if the exchange in the kept list frees room under the cap for an older backup; never without a cap or when nothing larger is displaced |
| Retention.SmallerNewcomerRescues | src/backup/retention.go:132-169 | a family of lists in which a smaller newcomer displaces a larger backup and so saves an older one |
| Retention.NewestOfEachKindAreKept | src/backup/retention.go:132-159 | the newest backups of a kind, up to that kind's limit, are always kept |
| Retention.KeptIsBounded | src/backup/retention.go:132-159 | the count pass keeps no more than the four limits add up to |
| Retention.BackupDirectory.Remove | src/backup/retention.go:148-153 | deletes the file, or fails and changes nothing |
| Retention.BackupDirectory.CountPass | src/backup/retention.go:132-159 | keeps what the greedy rule keeps, removes the rest, and stops exactly at a file that cannot be removed |
| Retention.BackupDirectory.SizePass | src/backup/retention.go:161-169 | removes the oldest kept backups until the total fits the cap |
| Retention.BackupDirectory.Prune | src/backup/retention.go:112-174 | leaves exactly the surviving files and returns the removed ones sorted; on failure no survivor is gone |
| Retention.PruneKeepsIncrementals | src/backup/retention.go:132-137 | no incremental is ever removed |
| Retention.CapIsRespected | src/backup/retention.go:161-169 | with a cap, what is left fits or no full backup is left, and dropping less would not have fitted |
| Retention.NewestSurvives | src/backup/retention.go:132-159 | without a cap, a full backup taken later than every other survives every policy |
| Retention.DailyOnlyIff | src/backup/retention.go:83-159 | with daily slots only and different times, a full backup stays if and only if fewer than the limit were taken later |
| Retention.SafeByDate | src/backup/retention.go:83-159 | a full backup of January 1, a first of the month, a Sunday or any day stays while fewer others of its kind than the limit are as new |
| Retention.CapDropsOldest | src/backup/retention.go:161-169 | a full backup dropped for size is never newer than one that stays |
| Retention.PruneIsIdempotent | src/backup/retention.go:112-174 | pruning a pruned directory removes nothing |
| Money.RoundingIsNearest | src/billing/money.go:157-165 | the quotient is the nearest integer with halves away from zero, and no other integer is |
| Money.ProrateIsNearest | src/billing/money.go:143-154 | a share is the nearest integer to amount times n over d |
| Money.ProrateIsOdd | src/billing/money.go:143-154 | the share of a negated amount is the negated share |
| Money.ProrateIsMonotone | src/billing/money.go:143-154 | a larger part of a non-negative amount is never a smaller share |
| Money.ComplementaryShares | src/billing/money.go:143-154 | two complementary shares add up to the amount, or to one more exactly on a half tie |
| Money.ProrateEdges | src/billing/money.go:143-154 | no part of nothing, the whole amount from the whole on, nothing for a negative part |
| Money.Prorate64Edges | src/billing/money.go:143-154 | for nothing, and outside proper parts, the 64-bit code gives that too |
| Money.Prorate64ExactIff | src/billing/money.go:143-165 | for denominators whose double fits 64 bits, the code gives the exact share if and only if twice the product plus the denominator still fits |
| Money.Prorate64LargeIff | src/billing/money.go:143-165 | for larger denominators, while twice the product plus the denominator stays below 2^64, the share is exact if and only if that plus two denominators more does too, or the share is half a unit exactly |
| AmountText.ParseMinor | src/billing/money.go:91-126 | the parsing loops read exactly what the grammar of signed decimal amounts denotes, with 64-bit wrap-around |
| AmountText.ParsedIsExactIff | src/billing/money.go:91-126 | parsing accepts exactly the strings that denote an amount, and yields it if and only if it fits 64 bits |
| AmountText.SignsRead | src/billing/money.go:96-104 | a plus sign changes nothing and a minus sign negates |
| AmountText.FormatExactly | src/billing/money.go:74-87 | an amount prints with a minus sign exactly if negative, its whole units, a point and exactly the currency's digits |
| AmountText.RoundTripIff | src/billing/money.go:74-126 | a printed amount reads back as itself if and only if it is not the smallest 64-bit value or the currency has no fraction |
| AmountText.SmallestDoesNotRead | src/billing/money.go:74-126 | the smallest value prints with two signs and is refused |
| DocumentNumbers.RunInvariant | src/billing/invoices.go:349-382 | every interleaving of issuers keeps the log of numbers in step with the stored counters |
| DocumentNumbers.NumbersAreUnique | src/billing/invoices.go:349-382 | numbers of a scope are distinct and below the counter, and so are the printed documents under one prefix |
| DocumentNumbers.NoNumberIsSkipped | src/billing/invoices.go:349-382 | every number from 1 to the counter was allocated |
| DocumentNumbers.GivingUpMeansContention | src/billing/invoices.go:350-382 | an issuer gives up only after others took at least seven numbers meanwhile |
| DocumentNumbers.AbortStops | src/billing/invoices.go:349-382 | an issuer stopped by a database error takes no number, disturbs nobody and does nothing any more |
| DocumentNumbers.PrefixesInTurn | src/billing/invoices.go:349-382 | whatever prefixes are in force one after the other, some run hands out 1, 2, 3 and so on under them |
| DocumentNumbers.PrefixesCollideIff | src/billing/invoices.go:349-382 | two documents of one scope under two prefixes print alike in some run, if and only if one prefix is the other followed by digits not beginning with a zero |
| ChargeProtocol.OneChargePerStoredKey | src/billing/payments.go:405-442 | in every interleaving, whatever provider list each call reads, each stored key reaches a provider at most once, by the call that claimed it |
| ChargeProtocol.LoadExactly | src/billing/payments.go:305-350 | a call goes on exactly if something is due and some provider is usable, for that much and with the first such provider |
| ChargeProtocol.StatementEffects | src/billing/payments.go:405-500 | only recording a payment lowers a balance, by its amount and to nothing at the least; only an answer from a provider is a charge |
| ChargeProtocol.FirstKeysAgreeIff | src/billing/payments.go:339-350 | two provider lists store the first attempt under the same key exactly when both start with a usable provider, or neither does and it is the same provider |
| ChargeProtocol.WithoutFailover | src/billing/payments.go:319-364 | over lists that cannot fail over and agree on the first key, concurrent calls under one key take the money at most once |
| ChargeProtocol.FailoverDoubleCapture | src/billing/payments.go:351-363 | over a list that can fail over, a schedule in which two calls under one key both take it |
| ChargeProtocol.ReorderDoubleCapture | src/billing/payments.go:319-350 | over two lists that disagree on the first key, a schedule without failover in which both take it |
| ChargeProtocol.OneCapturePerKeyIff | src/billing/payments.go:294-375 | at most one capture per key in every interleaving over a set of lists, if and only if none can fail over and all agree on the first key |
| ChargeRefinement.ProviderMatches | src/billing/payments.go:405-500 | the statements of one provider, with no other call in between, do to attempts and balances what one turn of the ledger's loop does |
| ChargeRefinement.SerialIsCharge | src/billing/payments.go:294-375 | a concurrent call that runs alone returns with exactly the attempts, their states and the balances that the ledger's charge leaves |
| Invoices.PaidIffEdge | src/billing/invoices.go:536-567 | a payment that clears the balance ends in paid exactly from processing, partial, disputed or paid |
| Invoices.UnitPricingIff | src/billing/invoices.go:194-199 | a line priced from its unit price is unit price times quantity, rounded, exactly up to one unit or when the rest rounds to nothing |
| Invoices.NoteTaxIsShare | src/billing/invoices.go:627-630 | a credit note carries the nearest whole share of the invoice's tax |
| Invoices.NoteKeeps | src/billing/invoices.go:604-676 | a credit note keeps one invoice's figures fixed and its credits equal to notes plus applied credit |
| Invoices.CreditKeeps | src/billing/invoices.go:478-503 | consuming account credit up to the balance keeps the invoice in balance |
| Invoices.PaymentKeeps | src/billing/invoices.go:508-533 | a payment changes the paid total and the state only |
| Ledger.RunInvariant | src/billing/invoices.go:146-676 | every sequential run of ledger operations keeps every invoice and account in balance |
| Ledger.LedgerBalances | src/billing/invoices.go:604-676 | after every run: credits are notes plus account credit and at most the total, refunds at most credits and at most payments, one success at most and then nothing is due |
| Ledger.AccountConservation | src/billing/invoices.go:478-503 | every account holds what was granted less what invoices consumed, and never less than nothing |
| Ledger.IssuedFiguresAreFinal | src/billing/invoices.go:183-319 | once issued, number, lines, subtotal, tax and total never change, the balance never grows and no child row disappears |
| Ledger.ChargeTakesTheBalance | src/billing/payments.go:294-375 | a charge takes nothing, or exactly the balance then due, as the invoice's first success, and clears it |
| Ledger.SameListReplay | src/billing/payments.go:294-375 | repeating a charge under the same key over the same provider list changes nothing, whatever the providers would answer |
| Ledger.IdleIffClosed | src/billing/payments.go:294-332 | no call under a key can do anything to an invoice any more if and only if the key is blank or stored, or nothing on the invoice is chargeable |
| Ledger.ReplayIsIdempotentIff | src/billing/payments.go:294-375 | after a charge, no repeat of its key has any effect, whatever list and instruments it finds, if and only if the first provider had an active instrument or the money was taken |
| Ledger.ReplayCanChargeAgain | src/billing/payments.go:294-375 | a reachable invoice charged twice through one provider under one key, after the list was reordered |
| Ledger.PickMethodFinds | src/billing/payments.go:378-390 | the picked instrument is active and of that provider, the default if there is one, and missing only if none is |
| Ledger.RefundRecordedIff | src/billing/payments.go:541-621 | once the provider agrees, a refund is recorded if and only if it fits under the uncredited part |
| Ledger.RefundCanGoUnrecorded | src/billing/payments.go:541-621 | a reachable invoice whose refund is sent and not recorded |
| LedgerEffects.EnteredFrom | src/billing/state.go:133-162 | which states each invoice state can be entered from |
| LedgerEffects.SettledState | src/billing/invoices.go:536-567 | settling changes the state only: to paid when nothing is due, to partial when something came in, from the states that allow it |
| LedgerEffects.PricedExactly | src/billing/invoices.go:194-199 | defaults of a line: one unit; its own amount, or the nearest share of the unit price, and one unit price at most |
| LedgerEffects.DraftExactly | src/billing/invoices.go:146-180 | a draft is a new empty invoice of the tenant and changes no other |
| LedgerEffects.AddLineExactly | src/billing/invoices.go:183-263 | accepted exactly on the tenant's own draft; subtotal from all lines, tax on what the discount leaves, total with tax; nothing else changes |
| LedgerEffects.IssueExactly | src/billing/invoices.go:269-319 | accepted exactly on the tenant's own draft; takes the next number from 1 on and sets the state; nothing else changes |
| LedgerEffects.MarkExactly | src/billing/invoices.go:572-600 | a state is set exactly along an edge, never back to draft, and nothing else changes |
| LedgerEffects.GrantExactly | src/billing/subscriptions.go:622-634 | a positive grant raises one account by its amount and no other |
| LedgerEffects.ApplyExactly | src/billing/invoices.go:478-503 | the smaller of account credit and balance due moves from the account to the invoice, and nothing else |
| LedgerEffects.FinishExactly | src/billing/invoices.go:469-503 | issuing a subscription invoice is issuing, then using up credit |
| LedgerEffects.PayExactly | src/billing/invoices.go:508-533 | a positive payment on an issued invoice of the tenant adds to what was paid; all else is refused without effect |
| LedgerEffects.NoteExactly | src/billing/invoices.go:604-676 | a credit note needs an issued invoice and a positive amount of at most what is not credited; it takes the next number and credits the amount |
| LedgerEffects.RefundExactly | src/billing/payments.go:541-621 | more than was paid, nothing, or no success: refused before the provider is asked; otherwise the order is sent, and recorded exactly if it fits under the uncredited part |
| LedgerEffects.RefundOrdersWithinPayments | src/billing/payments.go:541-621 | in every run, every refund order is positive and at most what its invoice was paid |
| LedgerEffects.ChargeReplies | src/billing/payments.go:294-332 | when a charge is accepted, replayed or forbidden, on the rows; anything but an accepted charge changes nothing |
| LedgerEffects.LoopTries | src/billing/payments.go:335-364 | the providers tried are exactly those with an active instrument and a free key that no earlier one stopped the loop for; one attempt each, in order, with its outcome, and nothing else changes |
| BillingService.Service.RecalculateInvoice | src/billing/invoices.go:222-263 | sums the lines in a loop and rewrites a draft's figures; an issued invoice is left alone |
| BillingService.Service.AddLine | src/billing/invoices.go:183-218 | on a draft appends the line, one unit at its unit price by default, and refreshes subtotal, tax and total from all lines; an issued invoice is refused |
| BillingService.Service.NextDocumentNumber | src/billing/invoices.go:349-382 | alone at the table the loop always takes the next number, creating the row if needed |
| BillingService.Service.IssueInvoice | src/billing/invoices.go:269-319 | numbers and freezes a draft, and refuses anything else |
| BillingService.Service.SettleIfPaid | src/billing/invoices.go:536-567 | moves the state as the settlement rule says and nothing more |
| BillingService.Service.ApplyAccountBalance | src/billing/invoices.go:478-503 | consumes the smaller of credit and balance from the account and credits the invoice with it |
| BillingService.Service.FinishInvoice | src/billing/invoices.go:469-473 | issues a subscription invoice, then applies account credit |
| BillingService.Service.RecordPayment | src/billing/invoices.go:508-533 | adds a positive amount to the paid total of an issued invoice and settles it; the invoice's own figures stay |
| BillingService.Service.IssueCreditNote | src/billing/invoices.go:604-676 | takes the next note number and credits a positive amount of at most what is not yet credited; a draft or a larger amount is refused |
| BillingService.Service.RefundPayment | src/billing/payments.go:541-621 | refunds at most what was paid on a settled invoice: the provider first, then the credit note, then the refund row |
| BillingService.Service.ChargeThrough | src/billing/payments.go:405-500 | claims the key, records the attempt with its outcome and reports a capture; a taken key changes nothing |
| BillingService.Service.Failover | src/billing/payments.go:339-364 | the provider loop ends where the recursive account of it ends |
| BillingService.Service.ChargeInvoice | src/billing/payments.go:294-375 | a stored key is replayed or forbidden without effect; otherwise an issued invoice with a balance is charged through the enabled providers in order |
| Metering.SplitUsage | src/billing/metering.go:309-321 | included plus overage is the total, and there is overage exactly above a finite limit |
| Metering.NewRollupExactly | src/billing/metering.go:309-339 | a new row carries its total, the part above a limit as overage and the rest as included; -1 is no limit |
| Metering.SavedExactly | src/billing/metering.go:343-367 | every open row of the tenant, meter and start takes the new figures, one is added if there is none, and no other row changes |
| Metering.RolledUpIsCurrent | src/billing/metering.go:278-339 | after a rollup every meter has one open row with its total and split |
| Metering.SavedIsCurrent | src/billing/metering.go:343-367 | after a save the slot has one open row and it carries the new figures |
| Metering.RollupsAddUp | src/billing/metering.go:278-367 | in every run each row's parts add up and a slot has at most one open row |
| Metering.ChargedAtMostOnce | src/billing/invoices.go:408-474 | however runs are cut off and repeated, a rollup row is on at most one line of one issued invoice, and then flagged |
| Metering.InvoicedRowsAreFinal | src/billing/metering.go:343-410 | a flagged row is never restated, reopened or removed |
| Metering.CutLosesIff | src/billing/invoices.go:465-469 | cutting a run off loses the charge its draft holds for a row in every continuation, if and only if the row was flagged already |
| Metering.OpenRowCanBeCharged | src/billing/invoices.go:408-474 | while a row is open, some continuation charges for it |
| Metering.CutRunLosesACharge | src/billing/invoices.go:465-469 | a reachable run that loses a charge for good |
| Metering.RollUpFreshIff | src/billing/metering.go:343-367 | a rollup leaves the quantities a run has read in step with the rows if and only if it changes no overage the run has read |
| Metering.IssuedQuantities | src/billing/invoices.go:408-474 | in every run without such a rollup, each issued line charges for exactly the overage its row records |
| Metering.UninterruptedRun | src/billing/invoices.go:431-472 | letting a run go on to its end gives the one-step account of it |
| Metering.PendingExactly | src/billing/metering.go:370-398 | a run reads exactly the tenant's rows that begin in the period and are not invoiced, each once and in table order |
| Metering.RunChargesExactly | src/billing/invoices.go:436-464 | one invoice is issued, with exactly one line of unit price times overage for every row of the tenant that begins in the period, is not invoiced and has both |
| Metering.RunFlagsExactly | src/billing/invoices.go:436-467 | the tenant's rows of the period are flagged except those with overage on an unknown meter; a row of another tenant or period is left as it was |
| Metering.Meters.SaveRollup | src/billing/metering.go:343-367 | updates every open row of the slot in place, or inserts one if there is none |
| Metering.Meters.RollUpUsage | src/billing/metering.go:278-339 | saves the split of every total in turn |
| Metering.Meters.PendingRollups | src/billing/metering.go:370-398 | returns exactly the tenant's open rows of the period |
| Metering.Meters.MarkRollupsInvoiced | src/billing/metering.go:402-410 | flags exactly the rows listed |
| Metering.Collect | src/billing/invoices.go:435-464 | the pricing loop adds the lines and lists the rows that the one-step account says |
| Metering.Meters.GenerateInvoice | src/billing/invoices.go:408-474 | reads, prices, flags and issues, as the one-step account says |
| Dunning.ParseIntReads | src/billing/dunning.go:25-49 | a text reads as a number exactly if it is digits with or without a sign whose value fits 64 bits |
| Dunning.ParseDayList | src/billing/dunning.go:25-49 | the list is strictly increasing and holds exactly the positive days the setting names |
| Dunning.DayListUnique | src/billing/dunning.go:25-49 | a setting has exactly one such list |
| Dunning.DayListRoundTrip | src/billing/dunning.go:25-49 | writing out a schedule and reading it back gives the same schedule |
| Dunning.DueRetryOffset | src/billing/dunning.go:75-90 | the search returns the first offset not used up by an attempt if its day has come, else none |
| Dunning.NoRetryBeforeItsDay | src/billing/dunning.go:96-121 | a retry that records an attempt is for an unpaid invoice and not before its day |
| Dunning.OffsetsFireInOrder | src/billing/dunning.go:75-136 | over every run, the recorded retries of an invoice come at strictly increasing offsets, each at most once |
| Dunning.UsedOffsetsNeverFire | src/billing/dunning.go:75-121 | once n attempts of any kind are on the books, the first n offsets never fire any more |
| Dunning.FiredIff | src/billing/dunning.go:75-121 | an offset fired if and only if the event that took the attempt count past its place was a pass over that invoice that began there |
| Dunning.OffsetIsSkipped | src/billing/dunning.go:96-136 | a reachable pass through two declining providers after which the second offset never fires, whatever follows |
| DunningEffects.RetryExactly | src/billing/dunning.go:75-121 | an invoice is charged, under the key of its offset, exactly if something is due and the day of the first unused offset has come |
| DunningEffects.PassChargesEach | src/billing/dunning.go:96-136 | a pass makes the retry for every open invoice that is owed one, whatever it charged before, and leaves every other invoice as it was |
| Dunning.RunDunning | src/billing/dunning.go:96-136 | the pass over open invoices charges exactly the retries that are owed |
| Tenancy.NormalizeIsIdempotent | src/auth/validate.go:44-46 | normalizing a normalized name changes nothing |
| Tenancy.ExactlyOneOwner | src/auth/service_org.go:220-359 | after every guarded run each live organization has one owner seat, the recorded owner's, whose account exists |
| Tenancy.OwnerIsGuarded | src/auth/service_org.go:281-289 | whoever passes the last-owner guard is not the recorded owner |
| Tenancy.SetRoleKeeps | src/auth/service_org.go:270-302 | a role change keeps the invariant |
| Tenancy.RemoveKeeps | src/auth/service_org.go:306-334 | a removal keeps the invariant |
| Tenancy.AddMemberKeeps | src/auth/service_org.go:220-250 | a direct addition to a live organization keeps the invariant |
| Tenancy.TransferKeepsIff | src/auth/service_org.go:337-359 | an accepted transfer keeps the invariant if and only if the actor, or already the target, is the recorded owner |
| Tenancy.TransferKeepsOneOwnerIff | src/auth/store_org.go:88-105 | a transfer by the owner leaves exactly one owner, the target, if and only if the target holds one membership row |
| Tenancy.GuardFailsIff | src/auth/service_org.go:270-302 | after a transfer the last-owner guard lets the new owner be demoted if and only if they hold more than one row, and then no owner is left |
| Tenancy.AcceptThenTransferIff | src/auth/service_org.go:434-475 | redeeming an invite and then receiving the ownership leaves one owner if and only if the account was not a member before |
| Tenancy.OwnerlessOrganization | src/auth/service_org.go:270-475 | a run from the empty tables after which an organization has two owner rows, and then none |
| Tenancy.InvitesOverRuns | src/auth/store_invite.go:34-97 | in every run no invite is used more often than it allows, and none admits to creating an organization |
| Tenancy.InviteAdmitsOnce | src/auth/service_user.go:82-150 | a fresh single-use invite admits one account and no second one |
| Tenancy.CreateOrgKeeps | src/auth/service_org.go:26-98 | creating an organization keeps the invariant, also when the invite is spent and the name refused |
| Tenancy.RegisterKeeps | src/auth/service_user.go:61-168 | registering keeps the invariant, also when the invite can no longer be consumed |
| Tenancy.DeleteOrgKeeps | src/auth/service_org.go:144-162 | deleting an organization keeps the invariant |
| Tenancy.DeleteAccountKeeps | src/auth/service_user.go:561-586 | deleting an account that owns nothing keeps the invariant |
| Tenancy.NamesAreNeverReused | src/auth/service_user.go:37-57 | over every run each name is created once, live names are distinct, and a tombstoned name is never live again |
| TenancyEffects.CheckExactly | src/auth/service_user.go:37-57 | a name passes exactly if it has 2 to 39 lower-case letters, digits and single inner hyphens, is not blocked, and is neither live nor tombstoned |
| TenancyEffects.RegisterExactly | src/auth/service_user.go:61-168 | who gets an account: open mode by name and address; by invite also with an open, unbound or matching invite for accounts; else nobody |
| TenancyEffects.RegisteredAccount | src/auth/service_user.go:61-168 | the account made, the invite used once more, the seat it gives; a refusal changes nothing, except that an invite at its last second leaves the account |
| TenancyEffects.CreateOrgExactly | src/auth/service_org.go:26-98 | who may found an organization in each mode and within the quota; the founder is its recorded owner and has its one owner row |
| TenancyEffects.AddExactly | src/auth/service_org.go:220-250 | an existing user not seated yet is added at the end, as admin or member, exactly while there is room |
| TenancyEffects.SetRoleExactly | src/auth/service_org.go:270-302 | accepted exactly for a seated member other than the last owner; every row of theirs there takes the role, and nothing else changes |
| TenancyEffects.RemoveExactly | src/auth/service_org.go:306-334 | accepted exactly for a seated member other than the last owner; their rows there are gone, all others stay in order, and nothing else changes |
| TenancyEffects.TransferExactly | src/auth/service_org.go:337-359 | needs another, seated target; the target's rows say owner, the actor's admin, and the organization records the target |
| TenancyEffects.AcceptExactly | src/auth/service_org.go:434-475 | an invite seats a user exactly if it is for a live organization with room, open, and not bound to another address |
| TenancyEffects.InviteLife | src/auth/service_org.go:363-475 | an invitation admits one user of its address before its time, and nobody after that use or a revocation |
| TenancyEffects.RevokeExactly | src/auth/store_invite.go:101-105 | one invite of that organization is revoked, or nothing changes |
| TenancyEffects.UserInviteExactly | src/auth/service_org.go:478-510 | a registration invite for 1 to 1000 accounts, of its address and before its time |
| TenancyEffects.DeleteOrgExactly | src/auth/service_org.go:144-162 | needs the slug typed; the organization, its rows and invites go, its slug is tombstoned, and nothing else changes |
| TenancyEffects.DeleteAccountExactly | src/auth/service_user.go:561-586 | needs the password and no owned organization; the account and its rows go, its name is tombstoned, and nothing else changes |
| TenancyService.Directory.OrgRole | src/auth/store_org.go:146-157 | the role of the first matching row, or none |
| TenancyService.Directory.CountOrgOwners | src/auth/store_org.go:215-223 | counts the owner rows of an organization |
| TenancyService.Directory.UpdateRole | src/auth/store_org.go:168-172 | sets the role of every matching row and of no other |
| TenancyService.Directory.DeleteSeats | src/auth/store_org.go:175-179 | keeps exactly the rows the condition keeps, in order |
| TenancyService.Directory.Check | src/auth/service_user.go:37-57 | format, then blocklist, then taken or tombstoned, in that order |
| TenancyService.Directory.Register | src/auth/service_user.go:61-168 | a free, well-formed name becomes a user; the invite is spent after the account exists and may then seat it in its organization |
| TenancyService.Directory.Admit | src/auth/service_user.go:119-150 | creates the account, then spends the invite and seats the account; an invite that expired at this moment leaves the account without a seat |
| TenancyService.Directory.CreateOrg | src/auth/service_org.go:26-98 | spends the invite first, then seats the creator as owner under a free, well-formed slug within the quota |
| TenancyService.Directory.AddOrgMember | src/auth/service_org.go:220-250 | seats an existing user who is not a member yet, as admin or member, while there is room |
| TenancyService.Directory.SetOrgMemberRole | src/auth/service_org.go:270-302 | changes a member's role to admin or member unless that would demote the last owner |
| TenancyService.Directory.RemoveOrgMember | src/auth/service_org.go:306-334 | removes a member unless that is the last owner |
| TenancyService.Directory.TransferOrgOwnership | src/auth/store_org.go:88-105 | promotes the target, demotes the actor and records the new owner |
| TenancyService.Directory.InviteOrgMember | src/auth/service_org.go:363-411 | stores a single-use invite to a live organization |
| TenancyService.Directory.CreateUserInvite | src/auth/service_org.go:478-510 | stores a registration invite for 1 to 1000 uses, where 0 means 1 |
| TenancyService.Directory.RevokeOrgInvite | src/auth/store_invite.go:101-105 | revokes an invite of that organization and no other |
| TenancyService.Directory.AcceptOrgInvite | src/auth/service_org.go:434-475 | checks and consumes the invite, then adds one row |
| TenancyService.Directory.DeleteOrg | src/auth/store_org.go:117-142 | tombstones the slug and removes the organization, its rows and its invites |
| TenancyService.Directory.DeleteAccount | src/auth/store_user.go:216-241 | tombstones the username and removes the account and its rows, unless it owns an organization |

## Left out

- Archive files, tar, gzip, JSON, encryption, atomic writes and restore: library and file-system code, taken as the identity.
- Version strings: a version comes parsed, missing or malformed; how the text is parsed is not modelled.
- Verification.Reassemble: a manifest that records a negative size is refused here, where the code would panic on allocating it.
- Money.Prorate64LargeIff: with a denominator of 2^62 or more, a numerator that passes 2^64 is computed by the model and not characterised.
- Calendar arithmetic: a backup's year, month and weekday facts are read from its recorded date.
- Warnings, notifications, audit rows, logs, rate limits and response padding: they do not feed the modelled state.
- Database failures other than key conflicts: each would only add an early return.
- Ledger.RunInvariant: amounts are unbounded integers; 64-bit overflow is modelled in proration and amount text only.
- BillingService.Service.ChargeInvoice: answers accepted, replayed or refused; the attempt record it returns is not modelled, and the provider list with its health order is an input of each call.
- BillingService.Service.RefundPayment: the provider answers yes or no; pending refund states are not modelled.
- Metering.ChargedAtMostOnce: the draft of a run that is cut off leaves the model, where the code keeps it as a draft; issuing it later would charge its rows, flagged or billed again by then. `IssueInvoice` is called at src/billing/invoices.go:402 and :469 only, each time for the draft that call created, so no caller does.
- Metering.CutLosesIff: "in every continuation" rests on the same, that nobody issues the abandoned draft.
- Metering.Meters.PendingRollups: rows come in table order instead of by meter code, which changes only the order of lines.
- Metering.Meters.RollUpUsage: the totals per meter are given; the query that sums raw usage records is not modelled.
- Metering.Meters.GenerateInvoice: overage lines only; plan lines, issuing and account credit are in the ledger.
- Dunning.RunDunning: escalation of the subscription behind an unpaid invoice is not modelled.
- TenancyService.Directory.OrgRole: takes the first matching row, where the query leaves the order of duplicate rows open.
- Tenancy.ExactlyOneOwner: assumes what the routes check before a call, and that invites are redeemed by non-members.
- Text beyond ASCII: trimming and lower-casing are modelled for ASCII only.
- Webhooks, reconciliation, provider drivers, subscription transitions, plan changes, tax rates and quota lookup: parameters here.
- `PercentBasisPoints`, `SumMinor`, currency names and the dashboard percentages: only easy members.
- Sessions, tokens, passwords, TOTP, domains, HTTP handlers, templates and command lines: not part of the three cores.
