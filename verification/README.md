# Verified model of the personal-finance core

The model covers the money paths of a personal-finance API: the ledger that keeps the balances of
bank accounts, objectives, assets and liabilities in step with transaction records and objective
payments; the reader of bank statements and the import that turns its output into records; the
calendar of fixed transactions and their reminders; and the smaller protocols around them (financial
periods created by concurrent requests, the summary cache, cash reconciliation, interest accrual,
savings projections, automatic categorisation).

`dafny verify dfyconfig.toml` checks everything.

## How it is laid out

* **Ledger.** `LedgerModel` gives the tables and the outcome of each repository command on values
  (money in integer cents, encryption as the identity). `LedgerStore` is the repository itself: a class
  whose tables change in place, with the net-delta map filled and emptied by loops and a transaction that
  rolls back; each of its methods is proved to end where `LedgerModel` says. The theorems are about
  the outcome on values: the accounting law and the invariants over runs (`LedgerBooks`, `LedgerRuns`,
  `LedgerSafety`), completion dates (`LedgerStamps`), amounts and fields command by command
  (`LedgerNumbers`), plain records (`LedgerRecords`), transfers (`LedgerTransfers`), batches
  (`LedgerBatch`) and the calls that break the books (`LedgerExceptions`). `LedgerSums` holds the sums
  they share.
* **Statements.** `Amounts`, `CurrencyCodes`, `CreditMarks` and `DateTokens` read one word, `TextLines` groups words into
  lines, `StatementLines` turns lines into movements; `PrintedAmounts` says what a printed statement becomes.
* **Import.** `Fingerprints`, `StatementImport` (one file), `ImportJobs` (a job over files),
  `Reconciliation`, `Categories`.
* **Time.** `Calendar`, `Reminders`, `Interest`, `Compound`.
* **Protocols.** `Periods`, `SummaryCache`.

The pattern throughout is the same. Code that updates state is a method over fields, maps or
sequences, specified by a function or by a property; what the repository promises is a lemma about
that function for all inputs, runs or interleavings. An entity's opening value in the ledger is ghost:
it is what the balance was before the records counted, and a direct edit of the balance starts a new one.

## Where the code does not do what it says

These promises do not hold of the code. Each is kept as written, with the exact condition under which
it does hold and a case in which it fails.

* `update` of one leg of a transfer changes the amount but not the two accounts
  (`LedgerExceptions.LegUpdateKeepsBooksIff`, `LegUpdateBreaksBooks`).
* `softDeleteMany` never reverts the account ends of a transfer, and once one leg is selected it
  deletes only legs (`LedgerExceptions.BulkDeleteOfPairKeepsBooksIff`, `BulkDeleteBreaksBooks`,
  `MixedSelectionKeepsPlainRecords`, `MixedSelectionLeavesRecord`).
* Deleting a transfer-typed record outside any group leaves its account and asset links in place
  (`LedgerExceptions.LoneTransferDeleteKeepsBooksIff`, `LoneTransferDeleteBreaksBooks`).
* The accrual job says that saving its income record credits the account; it saves on the plain
  repository, which moves no balance: the books are off whenever the account is live
  (`LedgerExceptions.AccruedIncomeKeepsBooksIff`). It saves the income and the account one after the
  other: when the second save fails, the period is paid again (`Interest.PaidPeriodsContiguousIff`,
  `FailedSavePaysAgain`).
* `updateTransfer` posts the reversal and the new amount separately, so the completion date of an
  objective that stays completed can be reset (`LedgerStamps.TransferUpdateStamp`,
  `TransferUpdateResetsDate`).
* A batch whose records cancel out does not re-evaluate an objective that one-by-one creation would
  (`LedgerBatch.BatchFlagsMatchIff`, `BatchFlagsCanDiffer`).
* A whole amount n printed with exactly one thousands separator is read as n/10 cents, so 1.234 becomes
  1,23 (`Amounts.WholeAmountRoundTripIff`).
* Blanks go before currency codes, so a code is only recognised next to a sign or a parenthesis: a code in
  front of the figures makes the amount unreadable, and one behind a whole amount turns its last group
  into decimals (`CurrencyCodes.AmountWithCodeInFrontIff`, `WholeAmountWithCodeIff`).
* A credit or debit mark behind a whole amount does the same, and a single letter behind an ungrouped amount
  of a thousand or more makes it unreadable (`CreditMarks.MarkedWholeAmount`, `MarkedAmountIff`). The mark
  decides the side only as CR or DB with a blank before it; `C`, `D` and a glued `CR` are accepted but not
  seen (`CreditMarks.MarkIsSeenIff`, `CreditIsIncomeIff`).
* `parseAmount` reads amounts with a currency sign, inner blanks, a trailing minus or parentheses, but the
  generic statement loop takes them for words and never hands them over
  (`PrintedAmounts.PrintedAmountIsNumberIff`).
* A date with a two-digit year is read in the wrong century before 1970 and after 2069
  (`DateTokens.DateRoundTripIff`).
* The lines of all pages are sorted together by height, so the pages of a statement interleave as soon as a
  later page has, as grouped, a higher line (`TextLines.PagesStayInOrderIff`, `HigherPageComesFirst`).
* Under a debit and a credit heading, a row of two numbers is typed by the default and not by its column,
  wherever the numbers stand (`StatementLines.TwoNumbersTakeDefault`, `ColumnSideIff`,
  `CreditBecomesExpense`).
* A dated line without an amount does not end the movement before it, so the amount printed below it
  replaces that movement's amount and its own date is lost (`StatementLines.BlockEndsAtNextDateIff`,
  `AmountJoinsEarlierMovement`, `PrintedAmounts.PrintedMovementIsLost`).
* A term deposit that does not renew is paid again on every run day after its maturity
  (`Interest.NonRenewingTermPayments`).
* The quota in the answer is rounded to cents and, when rounded down, misses the target: 100 in three
  periods gives 99.99 (`Compound.ShownQuotaReachesIff`, `HundredInThree`).
* The stored totals of a retried job count the retried files only (`ImportJobs.RetryTotalsIff`,
  `RetryForgetsEarlierFile`), and a file imported with neither categories nor a default reports each
  uncategorised record twice (`StatementImport.ImportLedger.ProcessFile`).
* When the generation counter of a user's summaries has lapsed, the next write restarts it at one, and
  a summary of an earlier first generation may be served again, unless it is the same for every ledger (`SummaryCache.LapsedWriteIsSafeIff`,
  `ServeStale`).
* Only the writes of the transaction-record service move the generation on. Transfers, the batch of an import
  and accrued interest write records past it, and a summary can then be out of date for up to 51.75 seconds
  (`SummaryCache.UnnoticedWriteIsSafeIff`, `ServeUnnoticed`).
* The reminder query looks back 370 days, so a transaction that goes on for longer is no longer reminded
  (`Reminders.LateOccurrenceIsNotNotified`).
* "Apply to similar" misses records that the learnt rule would match when their text has extra blanks
  (`Categories.ChainedReachesIff`, `ChainedMissesBlank`).

## Model

| member | source | states |
|---|---|---|
| LedgerBooks.AccountingLaw | src/modules/finance/repositories/transaction-record.repository.ts:966-1074 | for every committed command in any state, the gap between a live balance and the full replay of live records and payments changes by an explicit drift, zero except for the generic update of a leg, bulk deletes that reach legs, and transfer-typed records outside groups |
| LedgerRuns.BooksIff | src/modules/finance/repositories/transaction-record.repository.ts:966-1074 | a committed command keeps balance = opening + replay for all live entities if and only if it drifts on none |
| LedgerRuns.RunKeepsBooks | src/modules/finance/repositories/transaction-record.repository.ts:118-1247 | after any run of creates, batches, updates and deletes outside groups, transfer operations, clones, payments and direct edits, every live balance is its opening value plus the replay |
| LedgerRuns.RunKeepsWholeGroups | src/modules/finance/repositories/transaction-record.repository.ts:493-563 | in every run of any commands the legs of a transfer group are all live or all deleted |
| LedgerRuns.SameKeys | src/modules/finance/repositories/transaction-record.repository.ts:999-1074 | no ledger command creates or drops a balance row, also when a link names a missing one |
| LedgerSafety.CommandSettles | src/modules/finance/repositories/transaction-record.repository.ts:1019-1052 | after a committed command every row is as it was or settled (an account not below zero, an objective completed exactly when a positive target is reached), and dates stand exactly on completed objectives |
| LedgerSafety.RunKeepsSound | src/shared/helpers/financial-objective.helper.ts:11-32 | no run takes an account below zero or separates the completed flag of an objective from its completion date |
| LedgerSafety.EditedGoalAgreesIff | src/modules/finance/repositories/financial-objective.repository.ts:76-116 | a direct edit of an objective leaves its flag in line with its balance if and only if no completion was forced or the forced one agrees; flag and date stay together |
| LedgerStamps.CommandRow | src/modules/finance/repositories/transaction-record.repository.ts:966-1074 | the row of any entity after a committed command is the row under an explicit list of postings, one after the other, and no account in that list ends below zero |
| LedgerStamps.AdjustedIsSettled | src/modules/finance/repositories/transaction-record.repository.ts:1019-1052 | whatever a committed command posts to, even if it ends as it was, is settled: an account is not below zero and an objective is completed exactly when a positive target is reached; every other row is left alone |
| LedgerStamps.StampLaw | src/shared/helpers/financial-objective.helper.ts:11-32 | for every committed command, an objective completed before and after keeps its completion date as far as every balance on the way reached the target; otherwise the date is the time of the command |
| LedgerStamps.StampKept | src/modules/finance/repositories/transaction-record.repository.ts:1043-1053 | every transaction, every transfer operation but the update, every payment and payment removal with valid amounts keeps the date of an objective that stays completed; a transfer clone needs its target to have been reached |
| LedgerStamps.TransferUpdateStamp | src/modules/finance/repositories/transaction-record.repository.ts:750-787 | an amount update of a transfer keeps the date as far as the balance without the transfer still reaches the target; otherwise the date becomes the current time |
| LedgerStamps.TransferUpdateResetsDate | src/modules/finance/repositories/transaction-record.repository.ts:750-787 | a transfer of 50 made by the create command completes an objective, and raised to 60 leaves it completed with its date reset |
| LedgerStamps.StepKeepsAmounts | src/modules/finance/dto/transaction-record/create-transaction-record.dto.ts:68-72 | with validated requests no stored amount is ever negative |
| LedgerStamps.RunKeepsStamp | src/shared/helpers/financial-objective.helper.ts:11-32 | over any run in which an objective stays completed, and no transfer update dips below its target, its completion date never changes |
| LedgerTransfers.CreatePreservesNetWorth | src/modules/finance/repositories/transaction-record.repository.ts:573-699 | creating a transfer never changes accounts + assets − liabilities |
| LedgerTransfers.NetWorthAdds | src/modules/finance/repositories/transaction-record.repository.ts:75-90 | net worth is the sum of accounts and assets less liabilities: a row more adds or takes off its balance, an objective changes nothing |
| LedgerTransfers.DeletePreservesNetWorthIff | src/modules/finance/repositories/transaction-record.repository.ts:790-802 | deleting preserves net worth if and only if both ends or neither are live, or nothing moved |
| LedgerTransfers.UpdatePreservesNetWorthIff | src/modules/finance/repositories/transaction-record.repository.ts:750-787 | the same for an amount update |
| LedgerTransfers.UpdateIsDeleteThenCreate | src/modules/finance/repositories/transaction-record.repository.ts:750-847 | delete and re-create with the new amount are accepted exactly when the amount update is and both ends still belong to the user, and leave the same balances, flags and dates |
| LedgerTransfers.DeleteUndoesCreate | src/modules/finance/repositories/transaction-record.repository.ts:790-847 | deleting a transfer just created, by either leg, is accepted exactly when its destination account did not start below zero; it restores every balance and row, an objective's flag and date exactly when the flag had matched the balance |
| LedgerTransfers.CreateAcceptedIff | src/modules/finance/repositories/transaction-record.repository.ts:573-699 | a transfer with one destination is accepted if and only if both ends belong to the user and neither would be left below zero |
| LedgerRecords.DeleteUndoesCreate | src/modules/finance/repositories/transaction-record.repository.ts:493-508 | deleting a record just created is accepted if and only if the accounts it moves did not start below zero, and then restores every balance |
| LedgerRecords.UpdateIsDeleteThenCreate | src/modules/finance/repositories/transaction-record.repository.ts:484-485 | outside groups, when deletion and re-creation commit so does the update, with the same balances; with solvent accounts and a deletion that commits, the update commits if and only if the creation does |
| LedgerRecords.CloneIsCreate | src/modules/finance/repositories/transaction-record.repository.ts:1081-1164 | corollary: cloning a plain record is creating it again, with the new amount if one is given |
| LedgerRecords.CloneTransferIsCreate | src/modules/finance/repositories/transaction-record.repository.ts:1166-1247 | cloning a transfer, by either leg, is making the same transfer again while its ends are the user's |
| LedgerNumbers.CreateMoves | src/modules/finance/repositories/transaction-record.repository.ts:75-90 | creating a record stores the request and moves exactly the rows it links: an account up by an income and down by anything else, an objective and an asset down by an expense and up by anything else, a liability down |
| LedgerNumbers.UpdateChanges | src/modules/finance/repositories/transaction-record.repository.ts:409-491 | an absent field of an update keeps the stored value, a present one replaces it, and no other record or field changes |
| LedgerNumbers.UpdateMoves | src/modules/finance/repositories/transaction-record.repository.ts:484-485 | it moves every row by what the new record books less what the old one booked |
| LedgerNumbers.DeleteMoves | src/modules/finance/repositories/transaction-record.repository.ts:493-508 | deleting a record outside groups marks it and takes back exactly what it booked |
| LedgerNumbers.CloneMoves | src/modules/finance/repositories/transaction-record.repository.ts:1081-1164 | a clone has the stored money fields and the new amount if given, and moves what they book |
| LedgerNumbers.BulkDeletes | src/modules/finance/repositories/transaction-record.repository.ts:515-557 | without a leg in the selection exactly the user's live records among the ids are deleted, with one exactly the user's live legs of the groups selected |
| LedgerNumbers.BulkDeleteRefused | src/modules/finance/repositories/transaction-record.repository.ts:515-530 | no ids do nothing; ids of which none is a live record of the user are refused |
| LedgerNumbers.TransferMoves | src/modules/finance/repositories/transaction-record.repository.ts:573-699 | a transfer adds its two legs under a fresh group, takes the amount out of the source and puts it into the destination account or off the liability, and onto the objective; no other row moves |
| LedgerNumbers.DestinationErrors | src/modules/finance/repositories/transaction-record.repository.ts:573-600 | a transfer without destination or with two is refused with its own error |
| LedgerNumbers.DeleteTransferMoves | src/modules/finance/repositories/transaction-record.repository.ts:790-802 | deleting a transfer by either leg marks both legs, and no other record, and takes back what it carried |
| LedgerNumbers.UpdateTransferMoves | src/modules/finance/repositories/transaction-record.repository.ts:750-787 | updating one by either leg leaves both legs with the new amount and the destination leg with the new objective, and moves the difference |
| LedgerNumbers.CloneAmountIs | src/modules/finance/repositories/transaction-record.repository.ts:1166-1190 | a clone of a transfer without a new amount has that of the first leg with an origin, else of the first with a destination |
| LedgerNumbers.CloneTransferMoves | src/modules/finance/repositories/transaction-record.repository.ts:1166-1247 | cloning a transfer copies each live leg under a fresh group with one amount and moves what the copies carry |
| LedgerNumbers.ForeignIsRefused | src/modules/finance/repositories/transaction-record.repository.ts:409-420 | a command on a record is refused unless the record is live, the user's and of the right kind |
| LedgerNumbers.OwnIsRefusedForMoneyOnly | src/modules/finance/repositories/transaction-record.repository.ts:999-1074 | otherwise it fails only because an account would end below zero |
| LedgerNumbers.PayMoves | src/modules/finance/repositories/objective-payment.repository.ts:26-59 | a payment needs the user's objective, is stored, and adds its amount to that objective and to nothing else |
| LedgerNumbers.RemovePaymentMoves | src/modules/finance/repositories/objective-payment.repository.ts:90-120 | removing one needs it live and the user's, marks it, and takes its amount off the objective if that still exists |
| LedgerNumbers.GoalEdited | src/modules/finance/repositories/financial-objective.repository.ts:76-116 | an edit takes the target and balance given; a completion given wins, with the date given or the current time; a date alone means completed; otherwise flag and date follow the balance |
| LedgerBatch.BatchMatchesInTurn | src/modules/finance/repositories/transaction-record.repository.ts:235-246 | a batch that succeeds one by one succeeds as a batch with the same records and balances |
| LedgerBatch.BatchFlagsMatchIff | src/modules/finance/repositories/transaction-record.repository.ts:240-246 | the completion flag of an objective is the same both ways if and only if the batch moves it, no record touches it, or its flag already matched |
| LedgerBatch.InTurnAcceptedIff | src/modules/finance/repositories/transaction-record.repository.ts:118-252 | one-by-one creation succeeds if and only if every prefix leaves each touched account at or above zero |
| LedgerBatch.BatchAcceptsMore | src/modules/finance/repositories/transaction-record.repository.ts:235-246 | some batch is accepted that one-by-one creation refuses |
| LedgerBatch.BatchFlagsCanDiffer | src/modules/finance/repositories/transaction-record.repository.ts:240-246 | a batch that leaves an objective marked completed which one-by-one creation clears |
| LedgerExceptions.LegUpdateKeepsBooksIff | src/modules/finance/repositories/transaction-record.repository.ts:409-491 | the generic update keeps the books if and only if the amount stays or no account end of the record is live |
| LedgerExceptions.BulkDeleteOfPairKeepsBooksIff | src/modules/finance/repositories/transaction-record.repository.ts:530-557 | a bulk delete that reaches one transfer keeps the books if and only if nothing moved, both ends are one account, or no account end is live |
| LedgerExceptions.MixedSelectionKeepsPlainRecords | src/modules/finance/repositories/transaction-record.repository.ts:530-544 | corollary of the selection rule: a selected record outside groups is deleted if and only if the selection reaches no leg |
| LedgerExceptions.LoneTransferDeleteKeepsBooksIff | src/modules/finance/repositories/transaction-record.repository.ts:701-728 | deleting a transfer-typed record outside groups keeps the books if and only if nothing moved or its account and asset links are absent or gone |
| LedgerExceptions.AccruedIncomeKeepsBooksIff | src/modules/banking/service/interest-accrual.scheduler.ts:78-90 | the accrued income record keeps the books if and only if the account is gone |
| LedgerExceptions.BulkDeleteBreaksBooks | src/modules/finance/repositories/transaction-record.repository.ts:546-557 | two accounts, a transfer between them made by the create command, and a bulk delete of its origin leg after which a balance is no longer explained by the records |
| LedgerExceptions.LegUpdateBreaksBooks | src/modules/finance/repositories/transaction-record.repository.ts:409-491 | the same after that transfer for the generic update of a leg |
| LedgerExceptions.LoneTransferDeleteBreaksBooks | src/modules/finance/repositories/transaction-record.repository.ts:701-728 | a transfer-typed record created on an account and deleted through the transfer route leaves its amount off the account |
| LedgerExceptions.MixedSelectionLeavesRecord | src/modules/finance/repositories/transaction-record.repository.ts:530-544 | a selection of a leg and a plain record whose plain record survives |
| LedgerStore.Repository.ApplyToEntity | src/modules/finance/repositories/transaction-record.repository.ts:999-1074 | moves one row in place, skips a missing row, refuses a negative account |
| LedgerStore.Repository.CollectContributions | src/modules/finance/repositories/transaction-record.repository.ts:984-997 | adds the signed contribution of a record to the net delta of exactly the keys it links |
| LedgerStore.Repository.ApplyNet | src/modules/finance/repositories/transaction-record.repository.ts:975-981 | posts every non-zero delta; in whatever order the keys come, it succeeds if and only if no touched account would end below zero, with the same tables |
| LedgerStore.Repository.ApplyLinkAdjustments | src/modules/finance/repositories/transaction-record.repository.ts:966-982 | moves every row once by the net of the old and the new record |
| LedgerStore.Repository.Create | src/modules/finance/repositories/transaction-record.repository.ts:118-159 | commits the specified outcome or restores the tables, and keeps the books |
| LedgerStore.Repository.CreateMany | src/modules/finance/repositories/transaction-record.repository.ts:169-252 | the same with one aggregated net delta |
| LedgerStore.Repository.Update | src/modules/finance/repositories/transaction-record.repository.ts:409-491 | reverts the stored links and applies the merged ones, or restores the tables; keeps the books for a record outside groups |
| LedgerStore.Repository.SoftDelete | src/modules/finance/repositories/transaction-record.repository.ts:493-508 | deletes a record and reverts its links, or its whole pair; keeps the books |
| LedgerStore.Repository.SoftDeleteMany | src/modules/finance/repositories/transaction-record.repository.ts:515-563 | deletes the expanded selection with one net delta; keeps the books when no leg is reached |
| LedgerStore.Repository.CreateTransfer | src/modules/finance/repositories/transaction-record.repository.ts:573-699 | appends both legs and posts them one after the other, or restores the tables; keeps the books |
| LedgerStore.Repository.UpdateTransfer | src/modules/finance/repositories/transaction-record.repository.ts:750-787 | reverts both legs, rewrites them and posts them again, or restores the tables |
| LedgerStore.Repository.DeleteTransfer | src/modules/finance/repositories/transaction-record.repository.ts:790-802 | reverts and deletes every leg, or restores the tables |
| LedgerStore.Repository.Clone | src/modules/finance/repositories/transaction-record.repository.ts:1081-1164 | appends a copy outside groups and posts it; refuses a leg; keeps the books |
| LedgerStore.Repository.CloneTransfer | src/modules/finance/repositories/transaction-record.repository.ts:1166-1247 | appends copies of the legs under a fresh group and posts them, or restores the tables |
| LedgerStore.Repository.Pay | src/modules/finance/repositories/objective-payment.repository.ts:26-59 | records the payment, moves the objective and re-evaluates it; keeps the books |
| LedgerStore.Repository.RemovePayment | src/modules/finance/repositories/objective-payment.repository.ts:90-120 | takes the payment back, also when the objective is gone; keeps the books |
| LedgerStore.Repository.EditGoal | src/modules/finance/repositories/financial-objective.repository.ts:76-116 | an explicit completion wins, otherwise it is re-evaluated; the objective gets a new opening value |
| Amounts.AmountRoundTrip | src/modules/finance/service/bank-statement-parser.ts:191-257 | every amount with two decimals, of any size, in CO or US style, grouped or not, with any sign mark, blanks and currency signs, is read back exactly |
| Amounts.WholeAmountRoundTripIff | src/modules/finance/service/bank-statement-parser.ts:231-252 | a grouped whole amount is read back if and only if it has no separator or at least two; with one it reads as its tenth in cents |
| Amounts.OneDecimalRoundTrip | src/modules/finance/service/bank-statement-parser.ts:191-257 | an amount with one decimal is read back, the figure counting tens of cents |
| Amounts.NoFiguresNoAmount | src/modules/finance/service/bank-statement-parser.ts:191-257 | a text without figures is no amount |
| Amounts.MeasuredIff | src/modules/finance/service/bank-statement-parser.ts:246-256 | the part before the decimals must be figures and the first two decimals figures or an exponent, which is worth nothing; further decimals are ignored |
| Amounts.ClassesAre | src/modules/finance/service/bank-statement-parser.ts:192-215 | blanks, currency, minus and separator characters, by code point |
| CurrencyCodes.AmountWithCodeBehind | src/modules/finance/service/bank-statement-parser.ts:191-257 | an amount with two decimals is read right with COP, USD or EUR behind it, whatever its sign mark |
| CurrencyCodes.AmountWithCodeInFrontIff | src/modules/finance/service/bank-statement-parser.ts:191-257 | with the code in front it is read right when a plus, a minus or a parenthesis parts the two, and not at all otherwise |
| CurrencyCodes.WholeAmountWithCodeIff | src/modules/finance/service/bank-statement-parser.ts:191-257 | a whole amount with a code behind it is read right if and only if a trailing minus or a parenthesis parts the two and the amount alone would be |
| PrintedAmounts.PrintedAmountIsNumberIff | src/modules/finance/service/bank-statement-parser.ts:485-487 | an amount printed with any blanks and currency signs is a number of the statement, with its exact value, if and only if its sign stands in front, no currency sign is there and, outer blanks aside, no blank follows a figure |
| PrintedAmounts.PrintedMovementIsLost | src/modules/finance/service/bank-statement-parser.ts:1128-1152 | three printed lines, for any dates and amounts, of which one movement is lost |
| CreditMarks.MarkedAmountIff | src/modules/finance/service/bank-statement-parser.ts:191-257 | an amount with two decimals and CR, DB, C or D behind it is read exactly if and only if the mark has two letters, the amount is grouped or it is below a thousand; otherwise it is not read |
| CreditMarks.MarkedWholeAmount | src/modules/finance/service/bank-statement-parser.ts:191-257 | a whole amount with such a mark is never read right: nothing below a thousand, the tenth in cents from there on |
| CreditMarks.MarkedIsNumber | src/modules/finance/service/bank-statement-parser.ts:485-487 | printed with a sign in front or none, with or without blanks before the mark, it is a number of the statement with its exact value, but for that exception |
| CreditMarks.IsFlagIff | src/modules/finance/service/bank-statement-parser.ts:220 | the marks are CR, DB, C and D, letter case aside |
| CreditMarks.MarkIsSeenIff | src/modules/finance/service/bank-statement-parser.ts:378-381 | the classification sees a credit or debit mark behind an amount if and only if it has two letters and a blank before it |
| CreditMarks.MarkedMovement | src/modules/finance/service/bank-statement-parser.ts:456-480 | without columns a row with one such number is a movement of that amount, with its side from the sign, the mark if seen, the words of the description and the default, in that order |
| CreditMarks.CreditIsIncomeIff | src/modules/finance/service/bank-statement-parser.ts:456-480 | with nothing else to go by, a credit is income if and only if it is marked CR with a blank before it |
| DateTokens.ParseDate | src/modules/finance/service/bank-statement-parser.ts:264-320 | a date that is read exists in the calendar and lies between 1900 and 2100 |
| DateTokens.DateRoundTripIff | src/modules/finance/service/bank-statement-parser.ts:259-320 | every such date printed year first, day first or with a month word, with one or two digits for day and month, any separators and any text behind it, is read back with that text if and only if its year has four digits or lies between 1970 and 2069 |
| DateTokens.MonthNamedIff | src/modules/finance/service/bank-statement-parser.ts:79-97 | a month word names the month with one of whose Spanish or English beginnings it starts, letter case aside, and no month otherwise |
| DateTokens.YearIs | src/modules/finance/service/bank-statement-parser.ts:259-261 | a year not written in four digits means 2000 on up to 69 and 1900 on from 70 |
| DateTokens.NoDigitNoDate | src/modules/finance/service/bank-statement-parser.ts:264-320 | a word that starts with no digit is no date |
| DateTokens.WordLengthMatters | src/modules/finance/service/bank-statement-parser.ts:298-301 | a day with a word of fewer than three or more than nine letters behind it is no date |
| DateTokens.LineEndNoDate | src/modules/finance/service/bank-statement-parser.ts:268-312 | a date with a line end in the text behind it is not read |
| TextLines.ExtractTextLines | src/modules/finance/service/bank-statement-parser.ts:144-185 | scales by the widest position, groups, sorts words and lines, and cuts at 20000 lines |
| TextLines.WidestX | src/modules/finance/service/bank-statement-parser.ts:144-147 | the largest position, at least 1 |
| TextLines.ScaledIs | src/modules/finance/service/bank-statement-parser.ts:144-148 | a position becomes its share of the widest one, one at most, and nothing else of a word changes |
| TextLines.LinesPartitionTokens | src/modules/finance/service/bank-statement-parser.ts:149-183 | before the cut the multiset of words is preserved, each line has one page and an anchor within 1.5 of all its words, anchors of a page are more than 1.5 apart, words run rightwards and lines downwards |
| TextLines.RowsAreLevelsIff | src/modules/finance/service/bank-statement-parser.ts:150-154 | two words share a line exactly when they are level, if and only if levelness never drifts through a third word |
| TextLines.PagesStayInOrderIff | src/modules/finance/service/bank-statement-parser.ts:183 | the sorted lines are in page order if and only if, as they were grouped, no line stands higher than a line of an earlier page |
| TextLines.HigherPageComesFirst | src/modules/finance/service/bank-statement-parser.ts:183 | any two words of two pages, the later one higher, are read in the wrong order |
| StableSort.SortIsStable | src/modules/finance/service/bank-statement-parser.ts:180-183 | the sort of words and lines is ordered, keeps the elements and keeps the order of equal keys |
| StatementLines.ClassifyMovement | src/modules/finance/service/bank-statement-parser.ts:368-480 | columns first, each pick spliced out; then three amounts; then the last amount by sign, mark and words |
| StatementLines.Pick | src/modules/finance/service/bank-statement-parser.ts:385-398 | takes the closest remaining number out of the candidates |
| StatementLines.NearestIsFirstClosest | src/modules/finance/service/bank-statement-parser.ts:387-395 | no number is closer to the column, and no earlier one is as close |
| StatementLines.ThreeWithoutHeadings | src/modules/finance/service/bank-statement-parser.ts:430-449 | without headings a row of three numbers is debit, credit and balance: a debit alone is an expense, a credit alone an income, and of both the debit counts, on the default side |
| StatementLines.LastWithoutHeadings | src/modules/finance/service/bank-statement-parser.ts:451-480 | without headings any other row is its last number: an expense when negative or marked DB, an income when marked CR, else what the words say, expenses first, and the default at last |
| StatementLines.MarkInIff | src/modules/finance/service/bank-statement-parser.ts:378-381 | CR or DB counts where it stands as a word of its own |
| StatementLines.OneHeading | src/modules/finance/service/bank-statement-parser.ts:383-429 | under a debit heading alone the nearest number is an expense, under a credit heading alone an income, unless it is zero |
| StatementLines.ClassifiedIsGrounded | src/modules/finance/service/bank-statement-parser.ts:368-480 | a classified amount is positive and is the magnitude of a number of the row; the balance is that of a different one |
| StatementLines.FullRowIsReadAsHeaded | src/modules/finance/service/bank-statement-parser.ts:383-429 | a row of three numbers, one of the first two zero, gets the side, amount and balance of its columns as long as the first is nearest to the debit heading and the second nearer to the credit heading than the third |
| StatementLines.TwoNumbersTakeDefault | src/modules/finance/service/bank-statement-parser.ts:383-429 | under a debit and a credit heading every row of two non-zero numbers, at any positions, is read as the number nearer to the debit heading, on the default side, without a balance |
| StatementLines.ColumnSideIff | src/modules/finance/service/bank-statement-parser.ts:383-429 | such a row is read with the amount of its movement on the side of the nearer heading if and only if the debit heading takes an amount of that size and the default type says that side |
| StatementLines.CreditBecomesExpense | src/modules/finance/service/bank-statement-parser.ts:383-429 | a credit and its balance, each under its heading, become an expense |
| StatementLines.DetectColumnLayout | src/modules/finance/service/bank-statement-parser.ts:340-358 | each column stands where its first heading in reading order stands, date headings aside |
| StatementLines.ReadLine | src/modules/finance/service/bank-statement-parser.ts:1064-1152 | tells a summary, a dated line with or without amounts, and a continuation apart, with the numbers and words each contributes |
| StatementLines.DateIndexIs | src/modules/finance/service/bank-statement-parser.ts:1076-1078 | the date of a line is its first word in the left six tenths that starts with a date |
| StatementLines.LeftmostXIs | src/modules/finance/service/bank-statement-parser.ts:1107-1108 | the column of amounts starts at the leftmost number |
| StatementLines.LeftOfIs | src/modules/finance/service/bank-statement-parser.ts:1108 | the words left of it make the description, in their order |
| StatementLines.DescribedIs | src/modules/finance/service/bank-statement-parser.ts:547-549 | a description is its words with one blank between them, cut at 300 characters |
| StatementLines.DescriptionIs | src/modules/finance/service/bank-statement-parser.ts:1183-1186 | the description of a movement is the words of its lines and then of the continuation, with one blank between them, cut at 300 characters |
| StatementLines.VisibleIff | src/modules/finance/service/bank-statement-parser.ts:1143 | a word without a character but blanks is left out of a continuation |
| StatementLines.LegibleIff | src/modules/finance/service/bank-statement-parser.ts:1156-1160 | a continuation line counts when it has a letter or a figure |
| StatementLines.ParseStatementLines | src/modules/finance/service/bank-statement-parser.ts:1034-1170 | the loop over lines yields exactly one block per dated line with amounts, each closed by the next one, cut at 5000 |
| StatementLines.FinalizeTransaction | src/modules/finance/service/bank-statement-parser.ts:1172-1207 | adds the classified movement of the block, or nothing |
| StatementLines.MovementsAreTraced | src/modules/finance/service/bank-statement-parser.ts:1048-1207 | every movement has a valid date and a positive amount shown by a word of its own dated line or of a line before the next dated line with an amount; movements follow the dated lines, one at most for each, and no printed number serves two |
| StatementLines.BlockEndsAtNextDateIff | src/modules/finance/service/bank-statement-parser.ts:1125-1152 | a movement takes no number from behind its next dated line if and only if no line with amounts follows a dated line without amounts inside its block |
| StatementLines.AmountJoinsEarlierMovement | src/modules/finance/service/bank-statement-parser.ts:1125-1152 | a dated amount, a date without an amount and an amount below: one movement, with the first date and the second amount |
| StatementLines.NoMovementIsLost | src/modules/finance/service/bank-statement-parser.ts:1048-1207 | a dated line with its block yields exactly one movement unless there is nothing to read in it: no number, or a last number of zero that neither the headed columns nor the first two of three make up for |
| StatementLines.ClassifiedIff | src/modules/finance/service/bank-statement-parser.ts:368-480 | a row is classified as a movement if and only if there is something to read in that sense, whatever its description |
| Fingerprints.NormalizeIdempotent | src/modules/finance/repositories/transaction-record.repository.ts:97-102 | normalising a description twice changes nothing |
| Fingerprints.NormalizeIsWords | src/modules/finance/repositories/transaction-record.repository.ts:97-102 | a normalised description is its words in lower case with one blank between them |
| Fingerprints.LowerIs | src/modules/finance/repositories/transaction-record.repository.ts:97-102 | lower case by code point, on the Latin-1 letters |
| Fingerprints.FingerprintInjective | src/modules/finance/repositories/transaction-record.repository.ts:259-269 | fingerprints are equal if and only if date, amount and normalised description are |
| StatementImport.NewPositionsAre | src/modules/finance/service/statement-import.service.ts:498-532 | the movements kept are exactly the first occurrences of unknown fingerprints, in file order |
| StatementImport.ChosenIff | src/modules/finance/service/statement-import.service.ts:484-533 | a movement becomes a record if and only if it repeats no earlier one of the file and, where duplicates are skipped, no live record of the user |
| StatementImport.EveryPrintCovered | src/modules/finance/service/statement-import.service.ts:498-532 | every unknown fingerprint of the file is kept once |
| StatementImport.ImportLedger.Deduplicate | src/modules/finance/service/statement-import.service.ts:484-533 | the loop keeps those movements and skips all the others |
| StatementImport.MatchCompany | src/modules/finance/service/statement-import.service.ts:514-525 | the first company in the list that resembles the description, letter case aside; none exactly when none resembles it |
| StatementImport.ResemblesIff | src/modules/finance/service/statement-import.service.ts:514-525 | in lower case the name stands in the description or the description in the name |
| StatementImport.MadeIs | src/modules/finance/service/statement-import.service.ts:571-596 | the record made of a movement has the default category of the job, else that of a rule for its text if categories are assigned, else that of its company: the one the job names or the one captured |
| StatementImport.ImportLedger.ProcessFile | src/modules/finance/service/statement-import.service.ts:446-569 | creates the kept movements and no others, with the company and the category that matching and batch creation give them; posts them to the ledger as one batch; parsed = created + skipped; fails without any change exactly on an empty list or when the ledger refuses the batch; the reported number of uncategorised records is right if and only if categories are assigned, a default is given or nothing was created |
| StatementImport.BatchAcceptedIff | src/modules/finance/service/statement-import.service.ts:551-596 | the ledger refuses the batch of a file if and only if its account is live, the movements do not cancel out and the account would end below zero; otherwise the account moves by income less the rest |
| StatementImport.LedgerMatchesRecords | src/modules/finance/service/statement-import.service.ts:551-596 | the ledger gets one record for each record added, with its amount and side, on the account and the liability of the job |
| StatementImport.BatchMovesOthers | src/modules/finance/service/statement-import.service.ts:571-596 | besides the account the batch takes its amounts off the linked liability and moves nothing else |
| StatementImport.CreatedAreDistinct | src/modules/finance/service/statement-import.service.ts:484-533 | no two records made of a file are the same movement, and none was known |
| StatementImport.FileAddsNothingTwice | src/modules/finance/service/statement-import.service.ts:484-533 | importing one more file, duplicates skipped, creates no movement that any earlier live record of the user is |
| StatementImport.KnownIffLive | src/modules/finance/repositories/transaction-record.repository.ts:275-303 | looking only at the dates of the file, a movement counts as known if and only if the user has a live record with its date, amount and normalised text |
| StatementImport.ReimportCreatesNothing | src/modules/finance/service/statement-import.service.ts:484-533 | importing the same list again, duplicates skipped, creates nothing |
| ImportJobs.ImportJob.Pass | src/modules/finance/service/statement-import.service.ts:268-333 | processes the pending files in order, each against exactly what the files before it left, and marks each by how it ended; stores the totals of the pass with processed = success + failed; the job has failed without a success, is complete without a failure and partial otherwise; creates as many records as the totals say and, duplicates skipped, no movement that was there or that an earlier file of the job brought |
| ImportJobs.ProcessUpload | src/modules/finance/service/statement-import.service.ts:446-569 | one file of the job: an unreadable, empty or refused one changes nothing, any other adds the records it counts and no movement twice |
| ImportJobs.ImportJob.ResetFailed | src/modules/finance/repositories/statement-import.repository.ts:216-241 | failed files become pending without counts, the others keep theirs |
| ImportJobs.FirstPassTotals | src/modules/finance/service/statement-import.service.ts:242-333 | in the first pass the totals are the sums over all files and parsed = created + skipped |
| ImportJobs.SumIs | src/modules/finance/service/statement-import.service.ts:286-297 | every counter of the totals is the sum of that counter over the files |
| ImportJobs.RetryTotalsIff | src/modules/finance/service/statement-import.service.ts:347-432 | after a retry the totals are the sums over all files if and only if the files that were not retried carry no counts |
| ImportJobs.RetryForgetsEarlierFile | src/modules/finance/service/statement-import.service.ts:347-432 | the totals of a retry leave out a file that had succeeded with records |
| ImportJobs.ImportAndRetry | src/modules/finance/service/statement-import.service.ts:229-432 | after a first pass and a retry no movement of the job was created twice, nor one that was there before |
| Reconciliation.GetReconciliation | src/modules/finance/repositories/cash-arqueo.repository.ts:131-193 | bucket totals, matched and one-sided counts and amounts of the distinct fingerprints, and the expected amount |
| Reconciliation.BucketAddsUp | src/modules/finance/repositories/cash-arqueo.repository.ts:136-144 | each side counts its records outside transfers and adds up its incomes and its other amounts |
| Reconciliation.ExpectedIs | src/modules/finance/repositories/cash-arqueo.repository.ts:159-183 | the expected amount is income less the rest of the imported records or, without any, of the typed ones |
| Reconciliation.ReportPartitions | src/modules/finance/repositories/cash-arqueo.repository.ts:159-181 | matched and one-sided figures partition each side's distinct fingerprints in number and amount |
| Reconciliation.SwapExchangesSides | src/modules/finance/repositories/cash-arqueo.repository.ts:159-181 | swapping the sources keeps the matched figures and exchanges the others |
| Reconciliation.SidesAgree | src/modules/finance/repositories/cash-arqueo.repository.ts:146-153 | both sides give a common fingerprint the same amount |
| Reconciliation.MatchedIff | src/modules/finance/repositories/cash-arqueo.repository.ts:136-175 | a record typed in the application is matched if and only if some imported record has its date, amount and normalised text |
| Calendar.NextEvery | src/modules/finance/service/fixed-reminder.scheduler.ts:78-109 | the quarterly and yearly loops end on the first clamped due day on or after today, counted in months so that a short month never shifts the day |
| Calendar.OffsetIsModulo | src/modules/finance/service/fixed-reminder.scheduler.ts:49-76 | the double remainder is the mathematical modulus, also for an anchor in the future |
| Calendar.DueGrows | src/modules/finance/service/fixed-reminder.scheduler.ts:23-25 | clamped due days of later months come later and stay in their month |
| Calendar.DueIs | src/modules/finance/service/fixed-reminder.scheduler.ts:19-25 | the due day of a month is its day of that number, or its last one when it has fewer |
| Calendar.MonthTable | src/modules/finance/service/fixed-reminder.scheduler.ts:19-21 | the lengths of the twelve months, February by the leap year rule |
| Calendar.YearStart | src/modules/finance/service/fixed-reminder.scheduler.ts:19-21 | years start 365 days apart, and one more for each leap year between them |
| Calendar.FourCenturies | src/modules/finance/service/fixed-reminder.scheduler.ts:19-21 | 400 years have 146097 days |
| Calendar.NextOccurrenceIsLeast | src/modules/finance/service/fixed-reminder.scheduler.ts:111-130 | for each frequency the next occurrence is the least scheduled day on or after today, and is missing exactly when nothing is scheduled |
| Calendar.NextOccurrenceIsStable | src/modules/finance/service/fixed-reminder.scheduler.ts:27-130 | the next occurrence stays the same until it has passed |
| Reminders.NotificationTable.CreateIfMissing | src/modules/notification/service/notification.service.ts:85-96 | adds a notification exactly when its reference is new |
| Reminders.NotificationTable.HandleDailyReminders | src/modules/finance/service/fixed-reminder.scheduler.ts:158-201 | of the transactions with a due day that are at most 370 days old, adds exactly the notifications due in their window that are not there, except where saving one fails, and goes on after a failure |
| Reminders.NotificationTable.RunDays | src/modules/finance/service/fixed-reminder.scheduler.ts:158-201 | the same over any sequence of run days, with transactions edited between them |
| Reminders.OccurrenceNotifiedIff | src/modules/finance/service/fixed-reminder.scheduler.ts:158-201 | an occurrence has at most one notification after any runs, and one if and only if on some run day the transaction, as it was then and at most 370 days old, had it as the next within its window and the notification could be saved |
| Reminders.ScheduledDayIsNotified | src/modules/finance/service/fixed-reminder.scheduler.ts:158-201 | a scheduled day on which the job runs with the transaction, at most 370 days after its creation, and can save is notified exactly once |
| Reminders.LateOccurrenceIsNotNotified | src/modules/finance/service/fixed-reminder.scheduler.ts:159-181 | an occurrence later than 370 days and the notice period after the creation is never notified |
| Periods.EveryCallerGetsTheOneRow | src/modules/finance/repositories/financial-period.repository.ts:24-104 | under any interleaving of any callers, four turns finish a find-or-create without conflict, its key has exactly one row, later lookups find it, and all finished callers of the key hold that row |
| Periods.InterleaveKeepsFine | src/modules/finance/repositories/financial-period.repository.ts:87-104 | at every moment keys are unique and each caller's position agrees with the table |
| Periods.RankFalls | src/modules/finance/repositories/financial-period.repository.ts:87-104 | each turn of a caller brings it closer to its end |
| Periods.RowsStay | src/modules/finance/repositories/financial-period.repository.ts:62-77 | closing and creating never lose a row or change the key of an id |
| Periods.HappenIs | src/modules/finance/repositories/financial-period.repository.ts:62-104 | a statement adds at most one period, open, under the caller's key, at the end; closing marks one period and changes nothing else |
| Periods.TakenKey | src/modules/finance/repositories/financial-period.repository.ts:62-104 | a creation that finds its key taken is a conflict for a plain create and another lookup for find-or-create |
| Periods.PeriodDatabase.Proceed | src/modules/finance/repositories/financial-period.repository.ts:24-104 | runs one statement of a caller on the shared table |
| SummaryCache.KeyInjective | src/modules/finance/service/transaction-record.service.ts:29-31 | equal summary keys come from the same user, request and generation |
| SummaryCache.KeysApart | src/modules/finance/service/transaction-record.service.ts:29-44 | no summary is stored under a generation key |
| SummaryCache.PartsAre | src/modules/finance/service/transaction-record.service.ts:29-31 | a request without grouping means `day`, one without a type means all |
| SummaryCache.InvalidatedIs | src/modules/finance/service/transaction-record.service.ts:33-38 | an invalidation makes the next generation current for a day and touches no other entry |
| SummaryCache.HitIsFresh | src/modules/finance/service/transaction-record.service.ts:56-69 | a hit equals the summary of the current ledger, unless a write past the service less than one summary life ago may still show |
| SummaryCache.StoreKeepsAgreement | src/modules/finance/service/transaction-record.service.ts:61-68 | storing a fresh summary keeps every possible hit right |
| SummaryCache.WriteKeepsAgreement | src/modules/finance/service/transaction-record.service.ts:33-38 | a write followed by the invalidation makes every possible hit right, also after writes past the service, unless the counter lapsed less than the longest summary life ago |
| SummaryCache.UnnoticedWriteKeepsAgreement | src/modules/finance/service/transfer.service.ts:20-81 | a write past the service can show for one summary life at most and only to its user |
| SummaryCache.UnnoticedWriteIsSafeIff | src/modules/finance/service/transfer.service.ts:20-81 | whatever the new ledger is, such a write leaves hits right if and only if no summary that some ledger would change is alive under the current generation |
| SummaryCache.LapsedWriteIsSafeIff | src/modules/finance/service/transaction-record.service.ts:33-44 | whatever the new ledger is, a write on a lapsed counter keeps hits right if and only if no first-generation summary that some ledger would change is alive; one that is always the same, as for a reversed range of dates, does no harm |
| SummaryCache.SummaryService.GetSummary | src/modules/finance/service/transaction-record.service.ts:56-69 | returns what the cache holds or a fresh summary, which it stores; in agreement it is the summary of the current ledger either way once no write past the service can show |
| SummaryCache.SummaryService.Write | src/modules/finance/service/transaction-record.service.ts:33-50 | changes one user's ledger and moves the generation on; brings agreement for every guarded write and ends what earlier writes past the service could show |
| SummaryCache.SummaryService.WriteUnnoticed | src/modules/finance/service/transfer.service.ts:20-81 | changes one user's ledger and leaves the generation; keeps agreement with a deadline one summary life away |
| SummaryCache.ServeStale | src/modules/finance/service/transaction-record.service.ts:33-69 | a run of two writes a day apart after which a request gets the summary of the first ledger |
| SummaryCache.ServeUnnoticed | src/modules/finance/service/transfer.service.ts:20-81 | a run with a live counter in which a request after a write past the service gets the summary of the ledger before it |
| Interest.RegularPeriods | src/modules/banking/service/interest-accrual.service.ts:86-136 | over any runs in date order the periods of a regular account are contiguous and disjoint and cover the time up to the last application |
| Interest.EachDayIsPaidOnce | src/modules/banking/service/interest-accrual.service.ts:86-136 | no day belongs to two periods of a regular account, and at most one period ends on a day |
| Interest.RegularAccrualIff | src/modules/banking/service/interest-accrual.service.ts:72-136 | a regular account is paid by a run if and only if 1, 28 or 350 days have passed since its last application, else its start, else its opening, for daily, monthly and annual interest, and something is earned over them |
| Interest.TermAccrualIff | src/modules/banking/service/interest-accrual.service.ts:72-111 | a term deposit is paid its term's interest by a run on or after its maturity, unless applied that day or earning nothing; if it renews, its maturity moves on by the term |
| Interest.PeriodsAreLongEnough | src/modules/banking/service/interest-accrual.service.ts:113-136 | each period ends on a run day and is at least 1, 28 or 350 days long |
| Interest.RegularRunCatchesUp | src/modules/banking/service/interest-accrual.service.ts:113-136 | after a run that earns over its threshold of 1, 28 or 350 days and over any longer time, fewer days than that are unpaid |
| Interest.PeriodsEndWhenDue | src/modules/banking/service/interest-accrual.service.ts:113-136 | a period ends on the first run day that reaches the threshold: no earlier run that earns over the threshold and longer had reached it |
| Interest.CompoundEarnsIff | src/modules/banking/utils/compound.util.ts:94-103 | with daily compounding a run earns over the threshold and any longer time if and only if it earns over the threshold |
| Interest.RenewingTermPaysEachTermOnce | src/modules/banking/service/interest-accrual.service.ts:96-166 | an auto-renewing deposit pays its k-th term, for the maturity m0 + k·term and never before it, at most once and on strictly later days than the one before, and pays it if and only if from the maturity of every term up to the k-th there were as many earning days as terms to pay, so it catches up one term a day; it then waits for the first maturity not yet paid |
| Interest.TermIsPaidIff | src/modules/banking/service/interest-accrual.service.ts:96-166 | that condition, for every k and any runs in date order, several on one day included |
| Interest.TermIsPaidInTime | src/modules/banking/service/interest-accrual.service.ts:96-166 | the k-th term is paid by the (k+1)-th earning day on or after its own maturity |
| Interest.NonRenewingTermPayments | src/modules/banking/service/interest-accrual.service.ts:96-166 | a deposit that does not renew pays once for every earning day from its maturity on |
| Interest.PaidPeriodsContiguousIff | src/modules/banking/service/interest-accrual.scheduler.ts:62-107 | the periods the job pays to a regular account are contiguous and disjoint if and only if after an income whose account could not be saved every later visit finds nothing due or cannot save its income |
| Interest.FailedSavePaysAgain | src/modules/banking/service/interest-accrual.scheduler.ts:90-107 | corollary: after such a failure the next payment starts on the same day |
| Interest.PaidIsHistory | src/modules/banking/service/interest-accrual.scheduler.ts:62-107 | as long as accounts can be saved, the job pays exactly the history of the account over the runs whose income could be saved |
| Interest.AccrualJob.RunAccrual | src/modules/banking/service/interest-accrual.scheduler.ts:51-111 | every account moves by its own visit, failures included, and nothing else is recorded; the three counters count the accounts paid and saved, with nothing due, and failing |
| Interest.AccrualJob.RunDays | src/modules/banking/service/interest-accrual.scheduler.ts:51-111 | over any days every account stands where its visits leave it and was paid what they pay |
| Interest.JobPaysEachTermOnce | src/modules/banking/service/interest-accrual.scheduler.ts:51-111 | in the table of incomes the job leaves after any days, an auto-renewing deposit whose account could always be saved has its terms paid in order, the k-th if and only if there were days enough |
| Compound.SplitAccrual | src/modules/banking/utils/compound.util.ts:94-103 | accruing in two steps with capitalisation differs from one step by at most half a cent times 2 + (1 + r)^d2 |
| Compound.AccruedDailyGrows | src/modules/banking/utils/compound.util.ts:94-103 | more days never accrue less, after rounding and from no days on |
| Compound.ClosedForm | src/modules/finance/service/financial-objective.service.ts:222-231 | the closed form is n steps of balance·(1 + i) + quota |
| Compound.MonthlyPeriodsAreDates | src/modules/finance/service/financial-objective.service.ts:183-195 | a monthly plan has one period for each monthly date from its first to its last day |
| Compound.PeriodsCoverDays | src/modules/finance/service/financial-objective.service.ts:191-195 | any other plan has the fewest periods that cover its days |
| Compound.PeriodsInDays | src/modules/finance/service/financial-objective.service.ts:183-195 | the same in days: 1, 7, 14, 91.31 or 365.25 a period |
| Compound.PeriodicRateIs | src/modules/finance/service/financial-objective.service.ts:198-232 | a percentage a year is a hundredth of it spread over 365, 52, 26, 12, 4 or 1 periods |
| Compound.RateIs | src/modules/finance/service/financial-objective.service.ts:126-232 | a positive stated rate counts, else that of the account if there is one |
| Compound.CalculateQuota | src/modules/finance/service/financial-objective.service.ts:126-232 | no plan without target or end, an error for an empty range; otherwise the amount missing, the periods, the exact and the shown quota, and the rounded step-by-step balance as projection |
| Compound.ShownQuotaReachesIff | src/modules/finance/service/financial-objective.service.ts:284 | the shown quota reaches the amount if and only if it was not rounded down, and misses it by half a cent a period at most |
| Compound.HundredInThree | src/modules/finance/service/financial-objective.service.ts:284 | three times the quota shown for 100 is 99.99 |
| Compound.ProjectionReachesTarget | src/modules/finance/service/financial-objective.service.ts:198-232 | following the quota, the rounded projection reaches the target |
| Categories.BatchMatchesInTurn | src/modules/finance/repositories/transaction-record.repository.ts:183-233 | without explicit categories the preloaded rules and the company cache give each record what single creation gives it |
| Categories.DirectIs | src/modules/finance/repositories/transaction-record.repository.ts:118-159 | an explicit category stays; else the rule for the text decides category and subcategory; else the default of the company gives the category; nothing else of the record changes |
| Categories.MergeIs | src/modules/finance/repositories/transaction-record.repository.ts:409-426 | an absent field keeps the stored value and a present one replaces it; a category taken away is still used for learning and categorising |
| Categories.CreationTeaches | src/modules/finance/repositories/transaction-record.repository.ts:943-963 | a creation with a category and a text teaches that text, no other does |
| Categories.UpdateTeaches | src/modules/finance/repositories/transaction-record.repository.ts:426-440 | an update that leaves a category and a text teaches that text, no other does |
| Categories.ChainedIff | src/modules/finance/repositories/transaction-record.repository.ts:441-455 | the chained update changes exactly the user's other live records whose text in lower case is the normalised text taught |
| Categories.CopyIs | src/modules/finance/repositories/transaction-record.repository.ts:1081-1155 | a clone takes the fields given and keeps the others |
| Categories.TaughtRuleIsFound | src/modules/finance/repositories/transaction-record.repository.ts:426-465 | corollary: a category given by hand is given to any later uncategorised record with the same normalised description |
| Categories.ChainedReachesIff | src/modules/finance/repositories/transaction-record.repository.ts:441-455 | the chained update reaches a matching record if and only if its text is already single-spaced and trimmed |
| Categories.ChainedMissesBlank | src/modules/finance/repositories/transaction-record.repository.ts:441-455 | a record with a leading blank that the rule matches and the chained update misses |
| Categories.CategoryStore.Create | src/modules/finance/repositories/transaction-record.repository.ts:118-159 | rule, then company default; learns from an explicit category; every record is CATEGORIZED exactly when it has a category |
| Categories.CategoryStore.CategorizeBatch | src/modules/finance/repositories/transaction-record.repository.ts:183-208 | the preloaded map gives the same as a direct lookup |
| Categories.CategoryStore.FillCompanies | src/modules/finance/repositories/transaction-record.repository.ts:210-233 | the cache gives the same as a direct lookup |
| Categories.CategoryStore.CreateMany | src/modules/finance/repositories/transaction-record.repository.ts:169-235 | both together; learns nothing; keeps the status invariant |
| Categories.CategoryStore.Update | src/modules/finance/repositories/transaction-record.repository.ts:409-484 | learns the rule, spreads it to similar records, re-categorises the record; keeps the status invariant |
| Categories.CategoryStore.Clone | src/modules/finance/repositories/transaction-record.repository.ts:1081-1155 | copies with optional description, category and company, and categorises the copy; refuses a leg; keeps the status invariant |
| Categories.CategoryStore.AppendLegs | src/modules/finance/repositories/transaction-record.repository.ts:638-686 | the legs of a transfer are CATEGORIZED without a category, outside the invariant |
| Categories.CategoryStore.Remove | src/modules/finance/repositories/transaction-record.repository.ts:493-563 | marks records as deleted and keeps the status invariant |

## Left out

- Floating point: amounts are integer cents and rates and coordinates exact reals, so rounding noise,
  values beyond 2^53 and infinity are not modelled.
- Encryption, decimal columns and date columns are the identity; identifiers are positions in their
  table, so the gaps a rollback leaves in a sequence do not show; random group ids are a counter.
- A soft-deleted account, objective, asset or liability is a row that is no longer in the table, since
  every lookup of the source passes over it.
- Fields of a record that move no balance (dates, texts, recurrence) are not in the ledger state;
  categories are kept in `Categories` beside it and not together with the balances.
- Ledger commands run one after the other. The source reads and saves balances without row locks, so two
  requests at once can lose an update; no result here speaks about that.
- Each module keeps the columns of a transaction record that its code reads, so there is no single record
  type: money fields in `LedgerModel`, category columns in `Categories` (and with them in
  `StatementImport`), date, amount and text in `Reconciliation`.
- Time zones and daylight saving: a day is a day number, and the live fixed transactions are a list given to each
  run of the reminders.
- LedgerRuns.RunKeepsBooks: stated for the calls its guard admits, because the others break the books
  as `LedgerExceptions` shows; accrued interest is not a ledger step.
- LedgerBatch.BatchMatchesInTurn: completion dates are compared nowhere, since both ways read the clock
  at different moments; flags have their own lemma.
- DateTokens.ParseDate: month words are compared without regard to case on Latin letters only.
- Fingerprints.NormalizeIdempotent: lower-casing covers the Latin-1 letters.
- Keyword, heading and reference expressions of the statement reader are parameters; bank detection and
  the three bank-specific readers, instalments, and PDF extraction are not part of this model.
- TextLines.ExtractTextLines: starts from the words, without the cap on the number of words read.
- StatementImport.KnownIffLive: the query also leaves out records created before 2020; there are none in
  this model.
- StatementImport.ImportLedger.ProcessFile: currency, reference and instalments of the records are left out; the
  records keep their categories here and their money in the ledger state, side by side.
- Progress events, mail, storage clean-up, error texts and the queue that serialises jobs.
- Reconciliation.GetReconciliation: starts from the rows of the month; the query and the check of the
  month text are left out.
- SummaryCache.SummaryService.GetSummary: requests and writes are serial, the summary is an abstract function
  of the ledger, and entries leave the cache only by expiring.
- Reminders.NotificationTable.HandleDailyReminders: a notice whose saving fails is not in the table; a failing
  query is a run without transactions; the age of a transaction is counted in days.
- Interest.AccrualJob.RunAccrual: the interest earned in a period is given, as fractional powers are not
  modelled, and only the two saves can fail.
- Compound.CalculateQuota: the advice on income and the texts are left out; the no-plan answer is one value.
- TextLines.PagesStayInOrderIff: speaks about the order of lines; which page a movement's date and amount come
  from is not followed further.
- Catalogues, news, support, audit, sessions and the web layer: they keep no balance and read no statement.
- Recording a cash count: its difference and status are one subtraction and one comparison.
