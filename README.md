# Computational economy: banking, reserves, statistics and the order book

A Dafny model of the monetary core of the ComputationalEconomy agent-based
simulation (jtferson/computational-economy, Java). The model covers five parts.

- **The market's order book** (`order_book.dfy`, `price_function.dfy`,
  `fulfillment.dfy`, `market_service.dfy`, `market_scenarios.dfy`). The model
  has what the market test asserts:
  - a book kept in (price, sequence number) order, with the spot price;
  - the average price ("getPrice") and the marginal price of x units;
  - selling offers withdrawn by owner, with or without a filter;
  - the best fulfillment set under an amount limit, a total-price limit and a
    per-unit price cap;
  - `buy` and its settlement;
  - the analytical parameters of the average-price function, with the test's
    interval-checking loop.

  The four market tests are replayed as lemmas on concrete books.
- **The central bank** (`central_bank.dfy`, `statistical_office.dfy`):
  - the statistical office, meaning marginal-price snapshots in fixed-length
    buffers, age-weighted averages and the price index;
  - the key-rate rule;
  - the guarded internal transfer and the routed transfer;
  - closing a customer's accounts, which evens them up to zero;
  - daily interest, with profits paid to the state.
- **The credit bank** (`credit_bank.dfy`):
  - the central-bank accounts it opens lazily;
  - the password and currency checks;
  - the guarded transfer, internal or through the central bank;
  - deposits and withdrawals on a central bank's order;
  - the sum of borrowings;
  - the minimum-reserve check, which issues one bond per short currency and
    tenders it;
  - the balance-sheet publication, which also drops deconstructed bonds.
- **The bank-account index** (`bank_account_dao.dfy`): accounts listed per
  managing bank, kept in step with the list per owner.
- **The budgeting rule** (`budgeting.dfy`): the remembered maximum credit
  scaled by the key rate, and the non-negative budget it allows.

Shared pieces:
- `numbers.dfy` holds a real number or an explicit undefined value (`Num`). It
  stands in for IEEE doubles.
- `banking.dfy` holds accounts as immutable records with a unique id. A single
  `Ledger` object maps each account to its balance.

Account aliasing (`from == to`) is handled by the map keys. Java `assert`
statements become preconditions. Thrown exceptions become `Fail` results, and
nothing changes when a result is `Fail`.

Where the market's general description and the market test differ in detail,
the model follows the test. For example, `findBestFulfillmentSet` takes its
arguments as (maximum amount, maximum total price, maximum price per unit).
The credit bank comes from an older package than the central bank, and the
calls between the two do not line up. The credit bank's transfer to another
bank is therefore modelled as two ledger moves through its own account at the
central bank of the currency. These are the two hops that
CreditBank.java:238-252 asks the central bank to make.

## Model

| member | source | states |
|---|---|---|
| Numbers.Max | src/main/java/compecon/economy/sectors/financial/impl/CentralBankImpl.java:573 | Math.max: the result is at least both arguments and is one of them |
| Banking.Moved | src/main/java/compecon/economy/sectors/financial/impl/CentralBankImpl.java:408-417 | moving x lowers `from` by x and raises `to` by x, leaves every other balance alone, and changes nothing when `from` and `to` are the same account |
| Banking.MovedPreservesSum | src/main/java/compecon/economy/sectors/financial/impl/CentralBankImpl.java:415-417 | the two balances keep their sum, also when `from` and `to` are the same account |
| Banking.TwoHopsAsOne | src/main/java/compecon/culture/sectors/financial/CreditBank.java:245-252 | two hops through an intermediate account leave every balance as the direct move does |
| Banking.Ledger.Withdraw | src/main/java/compecon/culture/sectors/financial/CreditBank.java:235 | withdraw lowers the one balance by the amount, all else unchanged |
| Banking.Ledger.Deposit | src/main/java/compecon/culture/sectors/financial/CreditBank.java:236 | deposit raises the one balance by the amount, all else unchanged |
| Banking.Ledger.Move | src/main/java/compecon/economy/sectors/financial/impl/CentralBankImpl.java:412-413 | the balances become those of `Moved`, a withdrawal followed by a deposit |
| BankAccountIndex.RemoveFirst | src/main/java/compecon/engine/dao/inmemory/impl/BankAccountDAOImpl.java:57-58 | List.remove drops exactly one occurrence of the account from the multiset of the list |
| BankAccountIndex.RemoveFirstDistinct | src/main/java/compecon/engine/dao/inmemory/impl/BankAccountDAOImpl.java:57-58 | in a list without repetitions, removal keeps it repetition-free and removes exactly that account |
| BankAccountIndex.Without | src/main/java/compecon/engine/dao/inmemory/impl/BankAccountDAOImpl.java:57-58 | the result holds exactly the listed accounts that are not in the removed set |
| BankAccountIndex.RemoveFirstIsWithout | src/main/java/compecon/engine/dao/inmemory/impl/BankAccountDAOImpl.java:57-58 | on a list without repetitions, removing one account is the same as filtering it out |
| BankAccountIndex.WithoutTwice | src/main/java/compecon/engine/dao/inmemory/impl/BankAccountDAOImpl.java:65-69 | filtering out one set and then another equals filtering out their union |
| BankAccountIndex.RemoveStep | src/main/java/compecon/engine/dao/inmemory/impl/BankAccountDAOImpl.java:54-61 | deleting an account listed only under its own key extends the pruned map by that account |
| BankAccountIndex.Where | src/main/java/compecon/engine/dao/inmemory/impl/BankAccountDAOImpl.java:110-133 | the filtered list holds exactly the listed accounts the filter (bank, or bank and currency) selects |
| BankAccountIndex.WhereDistinct | src/main/java/compecon/engine/dao/inmemory/impl/BankAccountDAOImpl.java:110-133 | filtering a list without repetitions gives a list without repetitions |
| BankAccountIndex.BankAccountDAO.constructor | src/main/java/compecon/engine/dao/inmemory/impl/BankAccountDAOImpl.java:38 | both indexes start empty and consistent |
| BankAccountIndex.BankAccountDAO.Save | src/main/java/compecon/engine/dao/inmemory/impl/BankAccountDAOImpl.java:135-141 | the account is appended to its bank's list (created if missing) and to its owner's list; exactly this account becomes stored; the indexes stay consistent |
| BankAccountIndex.BankAccountDAO.Delete | src/main/java/compecon/engine/dao/inmemory/impl/BankAccountDAOImpl.java:54-61 | the account leaves its bank's list if that bank is registered and its owner's list; exactly this account stops being stored |
| BankAccountIndex.BankAccountDAO.DeleteAllBankAccounts | src/main/java/compecon/engine/dao/inmemory/impl/BankAccountDAOImpl.java:63-72 | every account managed by the bank is deleted, no other, and the bank's list is dropped; each owner's list loses exactly the bank's former accounts and keeps the rest in order |
| BankAccountIndex.BankAccountDAO.DeleteAllBankAccountsOf | src/main/java/compecon/engine/dao/inmemory/impl/BankAccountDAOImpl.java:74-88 | for a registered bank, exactly the owner's accounts at that bank are deleted and every list of both indexes loses exactly those accounts, the rest in order; other banks' and other owners' lists are untouched; for an unknown bank nothing changes |
| BankAccountIndex.BankAccountDAO.DeleteEach | src/main/java/compecon/engine/dao/inmemory/impl/BankAccountDAOImpl.java:65-69 | deleting each account on the bank's list leaves that list empty, every other bank entry as it was, and every owner list stripped of exactly those accounts in order |
| BankAccountIndex.BankAccountDAO.DeleteEachAt | src/main/java/compecon/engine/dao/inmemory/impl/BankAccountDAOImpl.java:78-85 | an account stays stored exactly when it was stored and is not one of the listed accounts managed by the bank; both indexes lose exactly those accounts from every list, the rest in order |
| BankAccountIndex.BankAccountDAO.FindAllBankAccountsManagedByBank | src/main/java/compecon/engine/dao/inmemory/impl/BankAccountDAOImpl.java:90-98 | returns the bank's list, registering an empty one for an unknown bank; it holds exactly the stored accounts of that bank |
| BankAccountIndex.BankAccountDAO.FindAllBankAccountsOfAgent | src/main/java/compecon/engine/dao/inmemory/impl/BankAccountDAOImpl.java:100-108 | the owner's list, or empty; exactly the stored accounts of that owner |
| BankAccountIndex.BankAccountDAO.FindAll | src/main/java/compecon/engine/dao/inmemory/impl/BankAccountDAOImpl.java:110-133 | the owner's accounts at the bank (and in the currency), in the owner's order: exactly the stored ones the filter selects |
| Budgeting.TransmissionFactor | src/main/java/compecon/culture/BudgetingBehaviour.java:60-61 | the factor 1 + (0.05 - key rate)/50 is above 1 below the internal rate of return, 1 at it, below 1 above it |
| Budgeting.Scaled | src/main/java/compecon/culture/BudgetingBehaviour.java:60-61 | the adjusted credit is undefined exactly when the credit was |
| Budgeting.Seeded | src/main/java/compecon/culture/BudgetingBehaviour.java:54-56 | an undefined credit is replaced by the reference credit; a remembered one is kept |
| Budgeting.CreditBasedBudget | src/main/java/compecon/culture/BudgetingBehaviour.java:67-68 | the budget is never negative, is at least balance + credit, is one of 0 and balance + credit, and is undefined exactly when the credit is |
| Budgeting.BudgetingBehaviour.constructor | src/main/java/compecon/culture/BudgetingBehaviour.java:37 | lastMaxCredit starts undefined |
| Budgeting.BudgetingBehaviour.CalculateTransmissionBasedBudgetForPeriod | src/main/java/compecon/culture/BudgetingBehaviour.java:47-80 | lastMaxCredit becomes the seeded credit scaled by the key rate, and the budget returned is the credit-based budget on the new value |
| Budgeting.NeutralRateKeepsCredit | src/main/java/compecon/culture/BudgetingBehaviour.java:60-61 | at a key rate of 0.05 a remembered credit is unchanged |
| Budgeting.CheapMoneyRaisesCredit | src/main/java/compecon/culture/BudgetingBehaviour.java:60-61 | a key rate below 0.05 makes a positive credit grow |
| Budgeting.DearMoneyLowersCredit | src/main/java/compecon/culture/BudgetingBehaviour.java:60-61 | a key rate above 0.05 makes a positive credit shrink |
| Budgeting.ReferenceIgnoredOnceSeeded | src/main/java/compecon/culture/BudgetingBehaviour.java:54-56 | once a credit is remembered, the reference credit passed in does not matter |
| Budgeting.RememberedCreditCompounds | src/main/java/compecon/culture/BudgetingBehaviour.java:54-61 | over any run of calls a remembered credit is multiplied by the product of the factors of the key rates, whatever references are passed |
| Budgeting.FirstReferenceSeedsCredit | src/main/java/compecon/culture/BudgetingBehaviour.java:37-61 | from a fresh behaviour, a finite first reference is compounded over the run and all later references are ignored |
| CentralBanking.EffectiveKeyInterestRate | src/main/java/compecon/economy/sectors/financial/impl/CentralBankImpl.java:560-578 | an undefined 0.03 + ((index - target)/index)/10 keeps the previous rate; otherwise it is the new rate, clamped at 0 unless negative rates are allowed, so it is never negative then |
| CentralBanking.KeyRateOnTarget | src/main/java/compecon/economy/sectors/financial/impl/CentralBankImpl.java:565 | an index on target gives 0.03 |
| CentralBanking.KeyRateRisesWithIndex | src/main/java/compecon/economy/sectors/financial/impl/CentralBankImpl.java:565-574 | with a non-negative target, a higher positive index never gives a lower rate |
| CentralBanking.KeyRateCeiling | src/main/java/compecon/economy/sectors/financial/impl/CentralBankImpl.java:565-574 | with a positive index and a non-negative target the rate is at most 0.13 |
| CentralBanking.SnapshotsPerDayAsWrittenIsOne | src/main/java/compecon/economy/sectors/financial/impl/CentralBankImpl.java:122-127 | counting snapshot events in the bank's own event list gives 1 |
| CentralBanking.SnapshotsPerDayIsFour | src/main/java/compecon/economy/sectors/financial/impl/CentralBankImpl.java:90-111 | the snapshot event is registered with the time system four times a day |
| CentralBanking.SnapshotCountAsWritten | src/main/java/compecon/economy/sectors/financial/impl/CentralBankImpl.java:122-127 | with the count as written, a buffer cannot hold even one day of snapshots: after one day it has lost that day's first price |
| CentralBanking.BufferHoldsLoggedPeriods | src/main/java/compecon/economy/sectors/financial/impl/CentralBankImpl.java:661-665 | with the count taken from the schedule, the 12-entry buffer holds exactly the last three days of usable snapshots, newest first |
| CentralBanking.CentralBank.constructor | src/main/java/compecon/economy/sectors/financial/impl/CentralBankImpl.java:67-131 | the office's buffers have 3 x (snapshots per day) entries, using the corrected count of four snapshots a day (see Findings), the transactions account is not yet open, and the key rate starts at 0.1 |
| CentralBanking.CentralBank.AssureBankAccountTransactions | src/main/java/compecon/economy/sectors/financial/impl/CentralBankImpl.java:180-197 | afterwards the transactions account is open, whether or not it was before |
| CentralBanking.CentralBank.MarginalPriceSnapshotEvent | src/main/java/compecon/economy/sectors/financial/impl/CentralBankImpl.java:533-539 | every good's buffer takes its snapshot of the current price |
| CentralBanking.CentralBank.KeyInterestRateCalculationEvent | src/main/java/compecon/economy/sectors/financial/impl/CentralBankImpl.java:541-557 | the averages, then the price index, then the key rate are recomputed from the new index; the statistical office stays consistent and the transactions-account flag is kept |
| CentralBanking.CentralBank.TransferMoneyInternally | src/main/java/compecon/economy/sectors/financial/impl/CentralBankImpl.java:397-418 | under the asserted guards, `from` loses and `to` gains the amount and the two keep their sum |
| CentralBanking.CentralBank.TransferMoney | src/main/java/compecon/economy/sectors/financial/impl/CentralBankImpl.java:363-395 | a transfer between the covered kinds of banks moves the amount (from down, to up); the uncovered case fails and changes nothing |
| CentralBanking.CentralBank.EvenedUpOne | src/main/java/compecon/economy/sectors/financial/impl/CentralBankImpl.java:230-262 | evening up brings the account to zero and the bank's own account of the same money type receives its balance, except that a DEPOSITS account is left as it is while the transactions account is not open; nothing else changes |
| CentralBanking.CentralBank.EvenedUpAllSettles | src/main/java/compecon/economy/sectors/financial/impl/CentralBankImpl.java:225-264 | after closing, each customer account stands at zero (a DEPOSITS account only once the transactions account is open, otherwise it keeps its balance), the bank's two own accounts absorb the DEPOSITS and CENTRALBANK_MONEY sums, and no other account changes |
| CentralBanking.CentralBank.EvenUp | src/main/java/compecon/economy/sectors/financial/impl/CentralBankImpl.java:230-262 | the transfer whose direction follows the sign of the balance gives exactly the evened-up balances |
| CentralBanking.CentralBank.EvenUpAll | src/main/java/compecon/economy/sectors/financial/impl/CentralBankImpl.java:226-264 | the loop gives the evened-up balances of all the customer's accounts |
| CentralBanking.CentralBank.CloseCustomerAccount | src/main/java/compecon/economy/sectors/financial/impl/CentralBankImpl.java:221-267 | the customer's accounts at this bank are evened up: each stands at zero (a DEPOSITS account only once the transactions account is open), the bank's own accounts gain their sums and no other balance changes; then exactly those accounts are deleted from the index: both index maps become the old ones with those accounts pruned from every list, the rest in order; for a bank absent from the index both maps are unchanged |
| CentralBanking.CentralBank.AccruedOne | src/main/java/compecon/economy/sectors/financial/impl/CentralBankImpl.java:491-514 | one account's daily interest moves balance x rate between it and the transactions account, in the direction of its sign; the bank's own accounts earn nothing |
| CentralBanking.CentralBank.AccruedAllAt | src/main/java/compecon/economy/sectors/financial/impl/CentralBankImpl.java:488-516 | after the loop each customer account has gained its interest, the transactions account has paid the sum, and other accounts are unchanged |
| CentralBanking.CentralBank.PaidOut | src/main/java/compecon/economy/sectors/financial/impl/CentralBankImpl.java:518-529 | a positive transactions balance goes in full to the state's account; otherwise nothing moves |
| CentralBanking.CentralBank.AccrueInterest | src/main/java/compecon/economy/sectors/financial/impl/CentralBankImpl.java:495-514 | the two internal transfers give the balances of one account's accrual |
| CentralBanking.CentralBank.AccrueAll | src/main/java/compecon/economy/sectors/financial/impl/CentralBankImpl.java:488-516 | the loop over the bank's accounts gives the accrued balances |
| CentralBanking.CentralBank.DailyInterestCalculationEvent | src/main/java/compecon/economy/sectors/financial/impl/CentralBankImpl.java:479-531 | the transactions account is opened first; the balances after the event are the accrual over the bank's listed accounts followed by the state payout; the owner index is unchanged and the bank index differs only by the bank's own (possibly empty) list being registered |
| Statistics.Snapshot | src/main/java/compecon/economy/sectors/financial/impl/CentralBankImpl.java:685-691 | a snapshot never changes the buffer's length |
| Statistics.Snapshots | src/main/java/compecon/economy/sectors/financial/impl/CentralBankImpl.java:672-693 | repeated snapshots keep the buffer length |
| Statistics.SnapshotsKeepNewest | src/main/java/compecon/economy/sectors/financial/impl/CentralBankImpl.java:685-691 | after snapshots, the buffer is the usable prices newest first followed by the old contents, cut to its length |
| Statistics.SnapshotsForget | src/main/java/compecon/economy/sectors/financial/impl/CentralBankImpl.java:685-691 | once it has seen as many usable prices as it holds, the buffer holds only the newest of them |
| Statistics.TotalWeightZero | src/main/java/compecon/economy/sectors/financial/impl/CentralBankImpl.java:705-717 | the total age weight is non-negative, and zero exactly when all entries are 0.0 |
| Statistics.WeightedSumBounds | src/main/java/compecon/economy/sectors/financial/impl/CentralBankImpl.java:705-717 | entries between lo and hi give a weighted sum between lo and hi times the total weight |
| Statistics.WeightedSumAtLeast | src/main/java/compecon/economy/sectors/financial/impl/CentralBankImpl.java:705-717 | entries of at least lo give a weighted sum of at least lo times the total weight |
| Statistics.WeightedSumAtMost | src/main/java/compecon/economy/sectors/financial/impl/CentralBankImpl.java:705-717 | entries of at most hi give a weighted sum of at most hi times the total weight |
| Statistics.AverageBounds | src/main/java/compecon/economy/sectors/financial/impl/CentralBankImpl.java:705-724 | the age-weighted average is undefined exactly when no entry is used, and otherwise lies between the smallest and largest entry |
| Statistics.AverageOfConstant | src/main/java/compecon/economy/sectors/financial/impl/CentralBankImpl.java:705-724 | a buffer of one price p, apart from unused zeros, averages p |
| Statistics.PriceIndexUndefined | src/main/java/compecon/economy/sectors/financial/impl/CentralBankImpl.java:728-756 | the price index is undefined exactly when no good has a defined average |
| Statistics.PriceIndexOfEqualPrices | src/main/java/compecon/economy/sectors/financial/impl/CentralBankImpl.java:728-756 | when every average is p, the index is the weight sum times p, hence p for weights summing to 1 |
| Statistics.StatisticalOffice.constructor | src/main/java/compecon/economy/sectors/financial/impl/CentralBankImpl.java:661-669 | each buffer has 3 x (snapshots per day) zeros, every average is undefined, and the index starts at 0 |
| Statistics.StatisticalOffice.ShiftIn | src/main/java/compecon/economy/sectors/financial/impl/CentralBankImpl.java:688-690 | the array copy in place: the new price at the front, the old entries after it, the last dropped |
| Statistics.StatisticalOffice.TakeSnapshotOfMarginalPrices | src/main/java/compecon/economy/sectors/financial/impl/CentralBankImpl.java:672-693 | each good's buffer becomes its snapshot of that good's price |
| Statistics.StatisticalOffice.AverageOf | src/main/java/compecon/economy/sectors/financial/impl/CentralBankImpl.java:699-724 | the loop computes the age-weighted average of the buffer |
| Statistics.StatisticalOffice.RecalculateAveragePrices | src/main/java/compecon/economy/sectors/financial/impl/CentralBankImpl.java:695-726 | every good's stored average becomes the age-weighted average of its buffer; the index is untouched |
| Statistics.StatisticalOffice.RecalculatePriceIndex | src/main/java/compecon/economy/sectors/financial/impl/CentralBankImpl.java:728-757 | the index becomes the weighted sum over goods with a defined average; the averages are untouched |
| CreditBanking.PasswordCheck | src/main/java/compecon/culture/sectors/financial/CreditBank.java:156-163 | passes exactly when a password is stored for the party and it is the one given; a missing password and a different one are distinct errors |
| CreditBanking.TransferCheck | src/main/java/compecon/culture/sectors/financial/CreditBank.java:219-220 | a negative amount without the negative-amount flag is refused first |
| CreditBanking.TransferCheckPasses | src/main/java/compecon/culture/sectors/financial/CreditBank.java:219-230 | a transfer passes exactly when the amount is allowed, the currencies match, the password matches and there is no forbidden overdraft |
| CreditBanking.TransferCheckErrors | src/main/java/compecon/culture/sectors/financial/CreditBank.java:222-230 | mismatched currencies report the currency error; an overdraft past good guards reports the overdraft error |
| CreditBanking.BorrowingsBounds | src/main/java/compecon/culture/sectors/financial/CreditBank.java:256-265 | the sum of borrowings is non-negative and covers every positive balance in the currency |
| CreditBanking.BorrowingsFrame | src/main/java/compecon/culture/sectors/financial/CreditBank.java:256-265 | borrowings depend only on the balances of the listed accounts |
| CreditBanking.NetPosition | src/main/java/compecon/culture/sectors/financial/CreditBank.java:420-429 | borrowings and loans are both non-negative and differ by the sum of the customer balances |
| CreditBanking.TopUpIsMax | src/main/java/compecon/culture/sectors/financial/CreditBank.java:370-375 | topping reserves up by a positive gap reaches the larger of reserves and requirement |
| CreditBanking.LiveBonds | src/main/java/compecon/culture/sectors/financial/CreditBank.java:434-443 | the bonds kept are exactly the issued bonds not deconstructed |
| CreditBanking.LiveFaceValueOfLive | src/main/java/compecon/culture/sectors/financial/CreditBank.java:433-443 | the liabilities published are the face values of the bonds kept, and cleaning up is idempotent |
| CreditBanking.IssuedFor | src/main/java/compecon/culture/sectors/financial/CreditBank.java:375-395 | one bond when the gap is positive, none otherwise |
| CreditBanking.NewBonds | src/main/java/compecon/culture/sectors/financial/CreditBank.java:379-404 | each bond issued by the check is this bank's, in a currency with a gap and a key rate |
| CreditBanking.NewBondsCoverGaps | src/main/java/compecon/culture/sectors/financial/CreditBank.java:386-394 | each bond's face value is its currency's positive gap and its coupon is the key rate plus 0.02 |
| CreditBanking.NewBondsCurrencies | src/main/java/compecon/culture/sectors/financial/CreditBank.java:360-405 | bonds are issued only in handled currencies whose reserves fall short |
| CreditBanking.BondIssuedIffShort | src/main/java/compecon/culture/sectors/financial/CreditBank.java:370-405 | a handled currency gets a bond exactly when its gap is positive |
| CreditBanking.NewBondsHas | src/main/java/compecon/culture/sectors/financial/CreditBank.java:370-404 | a handled currency short of reserves gets a bond in that currency |
| CreditBanking.TenderedElsewhere | src/main/java/compecon/culture/sectors/financial/CreditBank.java:399-401 | the tenders change no account but the handled currencies' reserve accounts |
| CreditBanking.TenderedReserve | src/main/java/compecon/culture/sectors/financial/CreditBank.java:399-401 | each handled reserve account gains its gap when positive, else nothing |
| CreditBanking.ReservesCovered | src/main/java/compecon/culture/sectors/financial/CreditBank.java:366-401 | after the check each handled currency's reserves are the larger of their old value and borrowings x reserve ratio |
| CreditBanking.GapUnchangedSoFar | src/main/java/compecon/culture/sectors/financial/CreditBank.java:360-372 | a currency's gap computed when its turn comes equals the gap on the balances before the check |
| CreditBanking.CreditBank.constructor | src/main/java/compecon/culture/sectors/financial/CreditBank.java:59-69 | the central-bank accounts are not initialized, and no bond is issued |
| CreditBanking.CreditBank.CurrencyCheck | src/main/java/compecon/culture/sectors/financial/CreditBank.java:165-170 | passes exactly for an offered currency, else reports the currency as not offered |
| CreditBanking.CreditBank.OfferedCurrencyHasReserveAccount | src/main/java/compecon/culture/sectors/financial/CreditBank.java:138-154 | once initialized, every offered currency has a reserve account in that currency |
| CreditBanking.CreditBank.AssertCentralBankAccount | src/main/java/compecon/culture/sectors/financial/CreditBank.java:138-154 | the first call opens an account at each offered currency's central bank and keeps the password; later calls change nothing |
| CreditBanking.CreditBank.TransferMoney | src/main/java/compecon/culture/sectors/financial/CreditBank.java:211-254 | the result is the guards' verdict on the old balances; a refusal changes nothing; a transfer moves the money internally or by two hops via the reserve account, with the net effect of the direct move; the central-bank accounts and bank passwords are kept once set, or set from the opening results otherwise |
| CreditBanking.CreditBank.Deposit | src/main/java/compecon/culture/sectors/financial/CreditBank.java:267-277 | the password error comes first, then a negative amount; otherwise only the account gains the amount |
| CreditBanking.CreditBank.Withdraw | src/main/java/compecon/culture/sectors/financial/CreditBank.java:279-289 | the password error comes first, then a negative amount; otherwise only the account loses the amount |
| CreditBanking.CreditBank.SumOfBorrowings | src/main/java/compecon/culture/sectors/financial/CreditBank.java:256-265 | the loop adds up the positive balances in the currency, a non-negative sum |
| CreditBanking.CreditBank.TopUpReserve | src/main/java/compecon/culture/sectors/financial/CreditBank.java:366-401 | the gap is borrowings x ratio minus reserves; a positive gap issues one bond and credits it to the reserves |
| CreditBanking.CreditBank.ReserveStep | src/main/java/compecon/culture/sectors/financial/CreditBank.java:360-405 | handling one currency adds its bond, if any, to those issued so far and tenders it over the gap known before the check |
| CreditBanking.CreditBank.TenderAll | src/main/java/compecon/culture/sectors/financial/CreditBank.java:360-405 | walking the handled currencies issues exactly the bonds the gaps known before the walk call for and tenders each over its gap |
| CreditBanking.CreditBank.CheckReserves | src/main/java/compecon/culture/sectors/financial/CreditBank.java:360-407 | the issued bonds grow by the bonds over the original gaps and the reserves are topped up by them |
| CreditBanking.CreditBank.CheckMoneyReservesEvent | src/main/java/compecon/culture/sectors/financial/CreditBank.java:354-409 | after ensuring the central-bank accounts, every offered currency's reserves are checked and topped up by bonds; the central-bank accounts and bank passwords are kept once set, or set from the opening results otherwise; the bond counter advances by the number of bonds issued for the gaps |
| CreditBanking.CreditBank.BalanceSheetPublicationEvent | src/main/java/compecon/culture/sectors/financial/CreditBank.java:411-448 | positive balances add to borrowings, the others negated to loans, the live bonds' face values to liabilities; the deconstructed bonds are dropped; the central-bank accounts and bank passwords are kept once set, or set from the opening results otherwise; the offered currencies, customer passwords and bond counter are kept |
| CreditBanking.CreditBank.CustomerBalances | src/main/java/compecon/culture/sectors/financial/CreditBank.java:420-429 | the basic sheet plus the sum of positive customer balances as borrowings and of negated negative ones as loans |
| CreditBanking.KeepLiveBonds | src/main/java/compecon/culture/sectors/financial/CreditBank.java:433-443 | the kept bonds are the live ones in order and the face value is the sum over them |
| OrderBook.Filter | src/test/java/compecon/economy/markets/MarketTest.java:125-146 | the filtered book holds exactly the offers the selector keeps |
| OrderBook.FilterSorted | src/test/java/compecon/economy/markets/MarketTest.java:125-146 | removal keeps the book in price order |
| OrderBook.FilterKeepsAll | src/test/java/compecon/economy/markets/MarketTest.java:136-140 | a removal that matches none of the offers leaves the book as it was |
| OrderBook.FilterKeepsNone | src/test/java/compecon/economy/markets/MarketTest.java:209-212 | removing the only owner's offers empties the book |
| OrderBook.Insert | src/test/java/compecon/economy/markets/MarketTest.java:78-81 | placing adds exactly the new offer |
| OrderBook.InsertSorted | src/test/java/compecon/economy/markets/MarketTest.java:78-85 | placing keeps the book in (price, sequence number) order |
| OrderBook.ConsumeKeepsBounds | src/test/java/compecon/economy/markets/MarketTest.java:158-167 | drawing on an offer keeps the bounds, numbering and liveness of the rest |
| OrderBook.ConsumeSorted | src/test/java/compecon/economy/markets/MarketTest.java:158-167 | after a purchase the book is still ordered and holds no empty offer |
| OrderBook.SpotIsCheapest | src/test/java/compecon/economy/markets/MarketTest.java:74-85 | the spot price is undefined exactly for an empty book, else the lowest unit price |
| OrderBook.SpotOrderIndependent | src/test/java/compecon/economy/markets/MarketTest.java:78-85 | books with the same prices have the same spot price, whatever order the offers came in |
| OrderBook.WithdrawalLeavesOthers | src/test/java/compecon/economy/markets/MarketTest.java:125-140 | removing an owner's offers, filtered or not, leaves exactly the others' offers, and the spot price reverts to the cheapest of them or becomes undefined |
| OrderBook.CheaperOfferSetsSpot | src/test/java/compecon/economy/markets/MarketTest.java:130-134 | a new offer cheaper than all others becomes the spot price at once |
| Fulfillment.SelectShape | src/test/java/compecon/economy/markets/MarketTest.java:148-156 | the fulfillment set draws positive amounts on the book's offers in order, within the price cap, all but the last taken whole |
| Fulfillment.TakeWhole | src/test/java/compecon/economy/markets/MarketTest.java:148-156 | an offer followed by another fill is taken whole |
| Fulfillment.TakeShortStopsNext | src/test/java/compecon/economy/markets/MarketTest.java:148-156 | an offer cut short by a limit leaves nothing for the next offer |
| Fulfillment.TakeWithin | src/test/java/compecon/economy/markets/MarketTest.java:158-160 | the amount taken from an offer is within the offer, the amount limit and the budget |
| Fulfillment.SelectWithinLimits | src/test/java/compecon/economy/markets/MarketTest.java:148-160 | the set's total amount and total price stay within the requested limits |
| Fulfillment.SelectIsMaximal | src/test/java/compecon/economy/markets/MarketTest.java:148-156 | the selection stops only when the book is exhausted, the next offer is above the cap, or a limit is used up |
| MarketService.PlaceCheck | src/test/java/compecon/economy/markets/MarketTest.java:78-81 | in the modelled market, an offer is accepted exactly with a positive amount, a non-negative price, an account of the owner and, for currencies, a commodity account; these refusals are the model's own (see Left out) |
| MarketService.ConsumeKeepsAccounts | src/test/java/compecon/economy/markets/MarketTest.java:303-311 | after a purchase every currency offer still names its commodity account |
| MarketService.ConsumeAll | src/test/java/compecon/economy/markets/MarketTest.java:158-160 | drawing the fills never lengthens the book |
| MarketService.BuyerPays | src/test/java/compecon/economy/markets/MarketTest.java:158-167 | the buyer's account pays exactly the set's total price |
| MarketService.ForeignAccountReceives | src/test/java/compecon/economy/markets/MarketTest.java:303-316 | in a currency trade the buyer's foreign account receives exactly the amount bought |
| MarketService.BuyerReceives | src/test/java/compecon/economy/markets/MarketTest.java:162-165 | the buyer of a good or property holds exactly the amount bought more |
| MarketService.FillsFromBook | src/test/java/compecon/economy/markets/MarketTest.java:148-160 | every fill is drawn on an offer of the requested commodity in the buyer's currency |
| MarketService.Market.constructor | src/test/java/compecon/economy/markets/MarketTest.java:74-76 | the market starts with no offers |
| MarketService.Market.PlaceSellingOffer | src/test/java/compecon/economy/markets/MarketTest.java:78-81 | a checked offer joins the book in order under a fresh number; a refused one changes nothing |
| MarketService.PlaceKeepsBook | src/test/java/compecon/economy/markets/MarketTest.java:78-85 | inserting a positive, priced offer under the next number keeps the book ordered, live, numbered below the counter and with commodity accounts where needed |
| MarketService.Market.RemoveAllSellingOffers | src/test/java/compecon/economy/markets/MarketTest.java:125 | the owner's offers of every commodity leave the book |
| MarketService.Market.RemoveAllSellingOffersOf | src/test/java/compecon/economy/markets/MarketTest.java:136-137 | only the owner's offers of that currency and commodity leave |
| MarketService.Market.Buy | src/test/java/compecon/economy/markets/MarketTest.java:158-160 | the fulfillment set is settled (money, commodity, offers drawn) and the book stays valid |
| MarketService.Market.SettleFill | src/test/java/compecon/economy/markets/MarketTest.java:158-167 | one fill pays the seller, hands over the commodity and draws the offer down, and the book stays valid |
| PriceFunction.CostAtBoundary | src/test/java/compecon/economy/markets/MarketTest.java:97-104 | at a boundary of cumulative amounts the average price is the weighted average of the offers consumed |
| PriceFunction.MarginalStep | src/test/java/compecon/economy/markets/MarketTest.java:105-114 | the marginal price is the price of offer k on (boundary k, boundary k+1], right end included |
| PriceFunction.MarginalBeyondDepth | src/test/java/compecon/economy/markets/MarketTest.java:115-119 | no marginal price beyond the book's depth |
| PriceFunction.AverageNearZeroIsSpot | src/test/java/compecon/economy/markets/MarketTest.java:86-95 | getPrice(0), and getPrice(1) when the cheapest offer holds a unit, are the spot price |
| PriceFunction.ConfigBounds | src/test/java/compecon/economy/markets/MarketTest.java:363-364 | each interval is proper, lies inside the book, and starts where the previous one ends |
| PriceFunction.MemberBounds | src/test/java/compecon/economy/markets/MarketTest.java:363-364 | every interval lies inside the book |
| PriceFunction.ConfigCost | src/test/java/compecon/economy/markets/MarketTest.java:366-384 | within an interval the cost is the linear function c0 x + c1 |
| PriceFunction.ConfigSlope | src/test/java/compecon/economy/markets/MarketTest.java:396-398 | with strictly increasing prices every interval past 0 has c1 < 0, so its price increases |
| PriceFunction.AnalyticIsAverage | src/test/java/compecon/economy/markets/MarketTest.java:377-384 | c0 + c1/x equals getPrice(x) throughout each interval |
| PriceFunction.AnalyticalParametersValid | src/test/java/compecon/economy/markets/MarketTest.java:355-410 | the parameters pass every check of the test: one interval per offer the budget reaches, proper intervals, agreement at left, middle and right, no jumps, strict increase |
| PriceFunction.IntervalPerAffordableOffer | src/test/java/compecon/economy/markets/MarketTest.java:355-357 | there is one interval for each offer whose cheaper predecessors cost less than the budget |
| PriceFunction.ConfigsReachAffordable | src/test/java/compecon/economy/markets/MarketTest.java:355-357 | an offer gets an interval exactly when the offers before it cost less than the budget, and the intervals stop at the first offer the budget does not reach |
| PriceFunction.AffordableOffersUpTo | src/test/java/compecon/economy/markets/MarketTest.java:355-357 | among the first n offers, the affordable ones are the first min(n, number of intervals) |
| PriceFunction.CheckPriceFunctionConfigs | src/test/java/compecon/economy/markets/MarketTest.java:359-410 | the checking loop reports success exactly when the parameters are valid |
| PriceFunction.CheckInterval | src/test/java/compecon/economy/markets/MarketTest.java:361-405 | one interval passes exactly when it meets the test's boundary, continuity and price checks |
| MarketScenarios.GoodTypePlacements | src/test/java/compecon/economy/markets/MarketTest.java:78-85 | offers at 5 then 4 give the book [4, 5] and spot price 4 |
| MarketScenarios.GoodTypePrices | src/test/java/compecon/economy/markets/MarketTest.java:86-123 | getPrice(0) = getPrice(1) = 4, getPrice(20) = 4.5, getPrice(15) = 13/3, marginal 4 at 10 and 5 at 11, undefined at 21 |
| MarketScenarios.GoodTypeWithdrawals | src/test/java/compecon/economy/markets/MarketTest.java:125-146 | the withdrawals and re-offers give spot prices 5, 3, 5, 3 |
| MarketScenarios.GoodTypeFulfillment | src/test/java/compecon/economy/markets/MarketTest.java:148-160 | caps 3 and 5 give one and two offers; 5 units at cap 8 come from the offer at 3 |
| MarketScenarios.GoodTypeSettlement | src/test/java/compecon/economy/markets/MarketTest.java:158-167 | the buyer holds 5 units and its account stands at -15 |
| MarketScenarios.ShareScenario | src/test/java/compecon/economy/markets/MarketTest.java:179-212 | shares at 0 give spot 0; buying one takes exactly one share; withdrawal leaves an undefined spot |
| MarketScenarios.CurrencyBooks | src/test/java/compecon/economy/markets/MarketTest.java:227-272 | the first currency offers, a withdrawal and a new offer give spot prices 2, 3 and 1 |
| MarketScenarios.CurrencyReoffers | src/test/java/compecon/economy/markets/MarketTest.java:274-291 | withdrawing the owner's offers and reoffering gives a book of the new offer before the old one at spot price 1 |
| MarketScenarios.CurrencyFulfillment | src/test/java/compecon/economy/markets/MarketTest.java:293-311 | caps 1 and 5 give one and two offers; 5 dollars at cap 8 come from the offer at 1 |
| MarketScenarios.CurrencySettlement | src/test/java/compecon/economy/markets/MarketTest.java:303-316 | the euro account pays 5 and the dollar account receives 5 |
| MarketScenarios.FirstPriceFunction | src/test/java/compecon/economy/markets/MarketTest.java:333-341 | with budget 150 the three offers give three valid intervals |
| MarketScenarios.SecondPriceFunction | src/test/java/compecon/economy/markets/MarketTest.java:343-349 | with budget 1500 the five offers give five valid intervals |

## Left out

- Floating point: every double is a real, and NaN and both infinities are one
  undefined value. Overflow to infinity, rounding and the epsilon of the
  market test's comparisons are not modelled. The exact-equality asserts of
  the central bank hold over reals.
- Budgeting.CreditBasedBudget: Java's Math.max(0, -infinity) is 0. Since
  infinities are not distinct from NaN here, an infinite negative credit is
  modelled as an undefined budget.
- The market's internals (MarketOrder, the sorted map, MarketPriceFunction)
  are not part of this model. The book is a sequence kept in (price, sequence
  number) order, and its price functions are the functions the test's
  assertions pin down.
- The property and hard-cash registers. Holdings are a map from
  (owner, commodity) to an amount. For that reason `depositCash` and
  `withdrawCash` of the credit bank are not modelled, and neither is the
  registration of a reserve bond with the property register.
- The bank base class and the `assertIsClientAtThisBank` and
  `assertBankAccountIsManagedByThisBank` checks. They become preconditions
  (the account's managing bank is this bank).
- The credit bank's lazily created transactions account. It is fixed at
  construction.
- The central bank's central-bank-money account is treated as always open.
  The source creates it lazily (CentralBankImpl.java:199-215) and
  closeCustomerAccount assures it first (line 223), so evening-up always has
  it. The transactions account is modelled as a flag: it is opened by
  assureBankAccountTransactions and starts closed. Opening an own account
  does not file it in the account index.
- The central bank's `onBankCloseBankAccount` (CentralBankImpl.java:348-354),
  which forgets the central-bank-money account when it is closed, and the
  `customer.onBankCloseBankAccount` callback of closeCustomerAccount
  (line 263): the customer's side is not part of this model. The
  `isDeconstructed` guards of the two assure methods are not modelled either.
- CentralBanking.CentralBank.CloseCustomerAccount: the balance clauses are
  stated for a customer other than the central bank itself. Only then are the
  bank's own accounts outside the list being evened up.
- CentralBanking.CentralBank.constructor: it sizes the buffers with the
  corrected count of four snapshots a day (12 entries), not the count of 1
  that the code as written computes (3 entries); see Findings.
- MarketService.PlaceCheck: the market's implementation is not part of this
  model, and the test places only valid offers. The four refusals
  (non-positive amount, negative price, account of another owner, currency
  offer without a commodity account) are the model's own assumption about the
  abstract market. They keep every offer in the book live.
- The credit bank's DailyInterestCalculationEvent: not modelled. It depends on
  `calculateMonthlyNominalInterestRate`, which is not part of this model.
- On a credit bank's transfer to another bank, the central bank's own
  preconditions of its two hops are not modelled. The two hops are modelled
  as plain moves.
- Passwords: Java compares them by reference. Here they are opaque values
  compared by equality.
- Issued bonds: Java holds them in a set. Here they are a sequence in issue
  order, and a bond is deconstructed when its id is in the given set.
- Hash-set iteration order: the order in which the reserve check visits the
  offered currencies comes in as a parameter (`order`).
- The central bank's `obtainTender` is not part of this model. The tender is
  modelled as the central bank crediting the bond's face value to the
  reserve account.
- Time-system registration: the event bodies are methods, and their hours are
  used only to count snapshots per day.
- Logging, the dashboard panels and the utility function factory.
- `calculateTargetPriceIndexForPeriod` and the monthly and daily interest
  rates: these are inputs.
- Configuration lookups (price-index weights, the allow-negative flag, the
  reserve ratio, the key rate): these are parameters.
- Synchronisation of the account index: the model is sequential.
- The account index deletes from a hash-set copy of a list. The model walks
  the list itself in its order. The list has no repetitions, so the accounts
  deleted are the same.
- The abstract indexed DAO base class is not part of this model. Its
  owner-to-accounts index is modelled as a second map kept in step.
- BankAccountIndex.BankAccountDAO.Save: it requires that the account is not
  already stored; Java would list it twice.
- CreditBanking.CreditBank.TransferMoney: it requires that the sender's owner
  is a customer with a password, and that a transfer to another bank is in an
  offered currency.

## Findings

| source | as written | input that shows it | evidently intended | confidence | as-written member | corrected member |
|---|---|---|---|---|---|---|
| src/main/java/compecon/economy/sectors/financial/impl/CentralBankImpl.java:122-127 | NUMBER_OF_MARGINAL_PRICE_SNAPSHOTS_PER_DAY counts the snapshot event objects in the bank's own event list. That object is added once, though it is scheduled at hours 3, 9, 15 and 21 (lines 90-111). The count is 1, so each buffer gets 3 entries. | one day of four usable snapshots: a 3-entry buffer keeps only the last three, and the day's first price is already lost | one entry per scheduled snapshot: 3 days x 4 snapshots = 12 entries, holding the last three days of prices | not executed | CentralBanking.SnapshotCountAsWritten | CentralBanking.BufferHoldsLoggedPeriods |
