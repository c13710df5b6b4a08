# Wallet-Service token ledger, in Dafny

This project models the token-wallet ledger of Wallet-Service, a Spring Boot
service that sells tokens through Stripe Checkout. Students spend the tokens
on tutoring bookings, and tutors refund them when a booking is cancelled.

The model has two layers, which it keeps apart:

- **The in-memory objects** the service loads, changes and returns. These are
  `class Wallet` and `class Transaction`. Their methods update fields in
  place, as `addTokens`, `useTokens`, `complete` and `fail` do.
- **The persisted store.** This is `Persistence.Store`: the wallet documents
  in insertion order, the ledger of transaction documents, and the counter
  the store draws ids from. Only the repositories' `save` and `delete`
  change it.

`WalletService` is a class whose fields hold the store and a clock. The clock
stands for `LocalDateTime.now()`. Each public operation moves it forward once
and stamps everything it creates with that reading.

Every service method is proved to leave exactly the store described by a
function in `ServiceSpec`, and to keep the store invariant
`Persistence.Consistent`. That invariant says:

- wallet ids are distinct and below the counter;
- ledger entries carry ids, and were written in clock order;
- no stored balance is negative.

The lemmas in `ServiceProperties` state what the operations mean for the
stored balances and the ledger:

- conservation on transfer;
- no writes on a replayed payment session;
- no writes before a failed check;
- one wallet per key after `getOrCreateWallet`;
- the unique index on the wallet key (`UniqueKeys`) kept by every write.

The repositories' derived queries are filter functions over the two
sequences. A single-result query returns the first match, and the history
queries return newest first. Wallets are a sequence, not a map, so that
several legacy wallets under one key can be represented; that is the case
`getOrCreateWallet` cleans up. A store whose keys are unique stays so under
every operation.

The model follows the code as written, including the two refund paths that
store less than they compute (see Findings). Beside those paths it defines
the evidently intended versions and proves their properties.

Two points of the code fix how errors and ranges are modelled:

- **Refund errors.** `refundTokensByBooking` throws `InsufficientTokensException`
  both for a non-positive recorded amount and for a tutor balance that cannot
  cover it (WalletService.java:572-580), so the model has the one error kind
  `InsufficientTokens` for both.
- **Date-range bounds.** `findByUserIdAndCreatedAtBetweenOrderByCreatedAtDesc`
  is Spring Data MongoDB's two-parameter `Between`, which excludes both bounds
  (TransactionRepository.java:60-61), so the model uses `start < createdAt < end`.

## Model

| member | source | states |
|---|---|---|
| Wallets.RoleKeys | src/main/java/wallet_service/eci/edu/co/service/WalletService.java:27-28 | the role key of "STUDENT" / "TUTOR" is exactly the fixed suffix `-student` / `-tutor` that transfer and refund append |
| Wallets.StudentAndTutorKeysDiffer | src/main/java/wallet_service/eci/edu/co/service/WalletService.java:428-429 | a student wallet key never equals a tutor wallet key, whatever the raw user ids |
| Wallets.Wallet.Create | src/main/java/wallet_service/eci/edu/co/model/Wallet.java:39-48 | a new wallet has key `actualUserId + "-" + role.toLowerCase()`, balance 0, total spent 0 and no id |
| Wallets.Wallet.Legacy | src/main/java/wallet_service/eci/edu/co/model/Wallet.java:51-60 | the legacy wallet keeps the given user id as key, role STUDENT, balance 0, total spent 0 |
| Wallets.Wallet.Load | src/main/java/wallet_service/eci/edu/co/repository/WalletRepository.java:18 | a wallet object read from the store holds exactly the stored document |
| Wallets.Wallet.AddTokens | src/main/java/wallet_service/eci/edu/co/model/Wallet.java:63-68 | a positive amount raises the balance by exactly that amount; otherwise the wallet is unchanged |
| Wallets.Wallet.UseTokens | src/main/java/wallet_service/eci/edu/co/model/Wallet.java:71-78 | answers true iff amount > 0 and balance >= amount, then subtracts exactly the amount; on false nothing changes |
| Wallets.Wallet.AddToTotalSpent | src/main/java/wallet_service/eci/edu/co/model/Wallet.java:81-86 | total spent never decreases; a positive amount is added, otherwise nothing changes |
| Wallets.BalanceStaysNonNegative | src/main/java/wallet_service/eci/edu/co/model/Wallet.java:63-78 | from a non-negative balance, neither addTokens nor a successful useTokens can reach a negative one |
| Wallets.UseThenAddRestores | src/main/java/wallet_service/eci/edu/co/model/Wallet.java:63-78 | a successful useTokens(n) followed by addTokens(n) gives the original wallet back, up to the update time |
| Wallets.TotalSpentNeverDecreases | src/main/java/wallet_service/eci/edu/co/model/Wallet.java:81-86 | addToTotalSpent never lowers the total and is the identity for amounts <= 0 |
| Transactions.Transaction.Purchase | src/main/java/wallet_service/eci/edu/co/model/Transaction.java:63-77 | createPurchase: type PURCHASE, status PENDING, the given tokens, money and session id, no completion time, no booking |
| Transactions.Transaction.Usage | src/main/java/wallet_service/eci/edu/co/model/Transaction.java:80-93 | createUsage: type USAGE, status COMPLETED, no money, no session id, completion time set, no booking |
| Transactions.Transaction.Settled | src/main/java/wallet_service/eci/edu/co/service/WalletService.java:452-462 | the entry built with `new Transaction()` and setters is the completed, money-free entry of the given type, tokens and booking |
| Transactions.Transaction.Complete | src/main/java/wallet_service/eci/edu/co/model/Transaction.java:96-99 | status becomes COMPLETED and completion time is set; type, amounts, ids, session and booking are unchanged |
| Transactions.Transaction.Fail | src/main/java/wallet_service/eci/edu/co/model/Transaction.java:102-105 | status becomes FAILED and completion time is set; nothing else changes |
| Transactions.Transaction.SetBookingId | src/main/java/wallet_service/eci/edu/co/model/Transaction.java:42 | attaching a booking changes only the booking field |
| Transactions.CompleteIsIdempotent | src/main/java/wallet_service/eci/edu/co/model/Transaction.java:96-99 | completing twice equals completing once at the later time; completion changes only status and completion time |
| WalletRepository.FindAllByUserId | src/main/java/wallet_service/eci/edu/co/repository/WalletRepository.java:24 | exactly the stored wallets whose key is k |
| WalletRepository.FindByUserId | src/main/java/wallet_service/eci/edu/co/repository/WalletRepository.java:18 | present iff some stored wallet has key k, and then a stored wallet with key k |
| WalletRepository.FindByIsFirstOfFindAll | src/main/java/wallet_service/eci/edu/co/repository/WalletRepository.java:18-24 | findByUserId is present iff findAllByUserId is non-empty, and then returns that list's head |
| WalletRepository.UniqueKeyFindAll | src/main/java/wallet_service/eci/edu/co/model/Wallet.java:21-22 | under the unique index on userId, findAllByUserId is empty or exactly findByUserId's wallet |
| WalletRepository.ExistsByUserId | src/main/java/wallet_service/eci/edu/co/repository/WalletRepository.java:31 | true iff some stored wallet has key k |
| WalletRepository.ExistsIffFound | src/main/java/wallet_service/eci/edu/co/repository/WalletRepository.java:31 | existsByUserId agrees with findByUserId being present |
| WalletRepository.FindByEmail | src/main/java/wallet_service/eci/edu/co/repository/WalletRepository.java:38 | a stored wallet with that email, or empty exactly when none has it |
| TransactionRepository.FindByUserIdOrderByCreatedAtDesc | src/main/java/wallet_service/eci/edu/co/repository/TransactionRepository.java:21 | exactly the entries of user u |
| TransactionRepository.FindByWalletIdOrderByCreatedAtDesc | src/main/java/wallet_service/eci/edu/co/repository/TransactionRepository.java:28 | exactly the entries of the wallet |
| TransactionRepository.FindByUserIdAndTypeOrderByCreatedAtDesc | src/main/java/wallet_service/eci/edu/co/repository/TransactionRepository.java:36 | exactly the entries of user u with type t |
| TransactionRepository.FindByUserIdAndStatusOrderByCreatedAtDesc | src/main/java/wallet_service/eci/edu/co/repository/TransactionRepository.java:44 | exactly the entries of user u with status s |
| TransactionRepository.FindByStripeSessionId | src/main/java/wallet_service/eci/edu/co/repository/TransactionRepository.java:51 | a stored entry with that session id, or empty exactly when none has it |
| TransactionRepository.FindByUserIdAndCreatedAtBetweenOrderByCreatedAtDesc | src/main/java/wallet_service/eci/edu/co/repository/TransactionRepository.java:60-61 | exactly the entries of u created strictly between the two instants |
| TransactionRepository.FindByBookingId | src/main/java/wallet_service/eci/edu/co/repository/TransactionRepository.java:68 | exactly the entries tagged with the booking |
| TransactionRepository.FindFirstByBookingIdAndUserIdAndType | src/main/java/wallet_service/eci/edu/co/repository/TransactionRepository.java:73 | present iff some entry matches booking, user and type, and the result matches all three |
| TransactionRepository.NewestFirstWhenChronological | src/main/java/wallet_service/eci/edu/co/repository/TransactionRepository.java:21 | on a ledger written in clock order, every OrderByCreatedAtDesc query is sorted newest first |
| TransactionRepository.TypeHistoryIsFilteredHistory | src/main/java/wallet_service/eci/edu/co/repository/TransactionRepository.java:36 | the per-type history is the user's full history filtered to the type, order preserved |
| TransactionRepository.StatusHistoryIsFilteredHistory | src/main/java/wallet_service/eci/edu/co/repository/TransactionRepository.java:44 | the per-status history is the user's full history filtered to the status, order preserved |
| TransactionRepository.DateRangeIsFilteredHistory | src/main/java/wallet_service/eci/edu/co/repository/TransactionRepository.java:60-61 | the date-range query is the user's full history restricted to the open interval, order preserved |
| Persistence.SaveWallet | src/main/java/wallet_service/eci/edu/co/service/WalletService.java:88 | save returns the document with an id (a fresh one when it had none) and leaves the ledger alone |
| Persistence.SaveEntry | src/main/java/wallet_service/eci/edu/co/service/WalletService.java:191 | save returns the entry with an id (a fresh one when it had none) and leaves the wallets alone |
| Persistence.SaveNewEntry | src/main/java/wallet_service/eci/edu/co/service/WalletService.java:191 | saving an entry without id appends it under the next id |
| Persistence.DeleteWallet | src/main/java/wallet_service/eci/edu/co/service/WalletService.java:111-117 | delete leaves the ledger and the id counter alone |
| Persistence.SaveLoadedWallet | src/main/java/wallet_service/eci/edu/co/service/WalletService.java:199 | saving a loaded wallet back replaces it in place: its key finds the new document, every other key what it found before |
| Persistence.SaveFreshWallet | src/main/java/wallet_service/eci/edu/co/service/WalletService.java:86-90 | saving a new wallet under an absent key appends it under the next id; other keys are unaffected |
| Persistence.CleanupKeepsFirst | src/main/java/wallet_service/eci/edu/co/service/WalletService.java:69-78 | deleting all but the first wallet of a key leaves exactly that first wallet under the key and every other key as it was |
| Persistence.DeleteWalletsRemovesIds | src/main/java/wallet_service/eci/edu/co/service/WalletService.java:74-76 | the clean-up loop removes exactly the wallets whose ids it was given |
| Persistence.SaveUnderKeepsUniqueKeys | src/main/java/wallet_service/eci/edu/co/model/Wallet.java:21-22 | replacing a key's stored wallet, or inserting one for a key that has none, keeps the unique index on userId |
| Persistence.FilterKeepsUniqueKeys | src/main/java/wallet_service/eci/edu/co/model/Wallet.java:21-22 | deleting wallets keeps the unique index on userId |
| Persistence.SaveTwoKeepsUniqueKeys | src/main/java/wallet_service/eci/edu/co/service/WalletService.java:466-467 | two wallet saves under two different keys keep the unique index on userId |
| Persistence.SaveTwoWallets | src/main/java/wallet_service/eci/edu/co/service/WalletService.java:466-467 | two wallet saves under two keys: each key finds its saved document, other keys are untouched |
| Persistence.SaveTwoEntries | src/main/java/wallet_service/eci/edu/co/service/WalletService.java:468-469 | two entry saves append both under the next two ids |
| ServiceSpec.TokenBalance | src/main/java/wallet_service/eci/edu/co/service/WalletService.java:287-304 | the stored balance under the key, 0 when there is no wallet |
| ServiceSpec.HasEnoughTokens | src/main/java/wallet_service/eci/edu/co/service/WalletService.java:262-278 | true iff a wallet exists under the key and its balance covers the amount |
| ServiceSpec.GetOrCreateWallet | src/main/java/wallet_service/eci/edu/co/service/WalletService.java:56-104 | never touches the ledger; returns a wallet under the role key, the first stored one when any exists |
| ServiceSpec.ProcessPurchase | src/main/java/wallet_service/eci/edu/co/service/WalletService.java:164-203 | a known session returns its entry and writes nothing; a missing wallet is the only error, with nothing written |
| ServiceSpec.UseTokens | src/main/java/wallet_service/eci/edu/co/service/WalletService.java:226-252 | error iff no wallet; true iff the wallet can pay; on anything but true nothing is written |
| ServiceSpec.TransferTokens | src/main/java/wallet_service/eci/edu/co/service/WalletService.java:425-477 | succeeds iff the student wallet exists and can pay; otherwise fails with wallet-not-found for a missing student wallet, else insufficient tokens, and nothing is written |
| ServiceSpec.RefundTokens | src/main/java/wallet_service/eci/edu/co/service/WalletService.java:489-546 | succeeds iff both wallets exist and the tutor can pay; reports the requested tokens; otherwise fails with wallet-not-found naming the student key, then the tutor key, else insufficient tokens, and nothing is written |
| ServiceSpec.RefundTokensByBooking | src/main/java/wallet_service/eci/edu/co/service/WalletService.java:553-622 | succeeds iff both wallets exist, the student's USAGE entry for the booking exists and the tutor can pay its positive amount; refunds that amount; otherwise fails, checked in that order, with wallet-not-found (student, then tutor), usage-not-found for the booking, else insufficient tokens, and nothing is written |
| ServiceSpec.RefundPersisted | src/main/java/wallet_service/eci/edu/co/service/WalletService.java:533-537 | the intended refundTokens, which also stores the tutor wallet; same success condition, reported amount and error kinds |
| ServiceSpec.RefundByBookingPersisted | src/main/java/wallet_service/eci/edu/co/service/WalletService.java:612-613 | the intended refundTokensByBooking, which stores both wallets and both entries; same success condition, amount and error kinds |
| ServiceProperties.FoundBalanceNonNegative | src/main/java/wallet_service/eci/edu/co/service/WalletService.java:287-292 | in a store without negative balances, a balance lookup is never negative |
| ServiceProperties.GetOrCreateLeavesOne | src/main/java/wallet_service/eci/edu/co/service/WalletService.java:66-90 | afterwards the key holds exactly the returned wallet, which has an id; other keys are unchanged; with no prior wallet it is a new wallet with balance 0 |
| ServiceProperties.GetOrCreateIdempotent | src/main/java/wallet_service/eci/edu/co/service/WalletService.java:66-83 | a second getOrCreateWallet for the same key returns the same wallet and writes nothing |
| ServiceProperties.PurchaseReplayWritesNothing | src/main/java/wallet_service/eci/edu/co/service/WalletService.java:172-177 | once a session is processed, any later call for it returns the same entry and leaves the store as it is |
| ServiceProperties.PurchaseCredits | src/main/java/wallet_service/eci/edu/co/service/WalletService.java:180-202 | a new session appends one COMPLETED PURCHASE entry and credits tokens (when > 0) and amount (when > 0); other keys are unchanged |
| ServiceProperties.UseTokensDebits | src/main/java/wallet_service/eci/edu/co/service/WalletService.java:236-247 | a successful useTokens lowers the stored balance by exactly the amount, appends one USAGE entry, touches no other key |
| ServiceProperties.TransferMovesTokens | src/main/java/wallet_service/eci/edu/co/service/WalletService.java:439-476 | the student's stored balance falls and the tutor's rises by the amount, so their sum is conserved; the reported balances are the stored ones; other keys are unchanged |
| ServiceProperties.TransferRecordsUsage | src/main/java/wallet_service/eci/edu/co/service/WalletService.java:445-469 | a transfer appends exactly two COMPLETED USAGE entries, student's then tutor's, for the amount and tagged with the booking |
| ServiceProperties.TransferLeavesTutorAbleToRepay | src/main/java/wallet_service/eci/edu/co/service/WalletService.java:439-443 | after a transfer both wallets are stored and the tutor's can pay the same amount back |
| ServiceProperties.RefundLeavesTutorStored | src/main/java/wallet_service/eci/edu/co/service/WalletService.java:533-537 | refundTokens as written raises the student's stored balance but leaves the tutor's, and reports a tutor balance that is not the stored one |
| ServiceProperties.RefundPersistedMovesTokens | src/main/java/wallet_service/eci/edu/co/service/WalletService.java:502-507 | the intended refund moves the tokens from tutor to student, conserving their sum, with the stored balances reported |
| ServiceProperties.RefundByBookingStoresNoWallet | src/main/java/wallet_service/eci/edu/co/service/WalletService.java:612-613 | refundTokensByBooking as written stores no wallet and only the student's REFUND entry, while reporting moved balances |
| ServiceProperties.RefundByBookingPersistedMovesTokens | src/main/java/wallet_service/eci/edu/co/service/WalletService.java:573-610 | the intended booking refund moves the usage entry's tokens from tutor to student, with the stored balances reported |
| ServiceProperties.TransferUsageIsFound | src/main/java/wallet_service/eci/edu/co/service/WalletService.java:568-573 | the student USAGE entry a transfer records is the one a later booking refund finds, with the transferred amount |
| ServiceProperties.RefundByBookingOfFoundUsage | src/main/java/wallet_service/eci/edu/co/service/WalletService.java:568-584 | a booking refund whose usage entry carries an amount the tutor can pay moves exactly that amount back |
| ServiceProperties.TransferThenRefundRestores | src/main/java/wallet_service/eci/edu/co/service/WalletService.java:425-546 | transfer then the intended refund of the same amount gives both stored balances back |
| ServiceProperties.TransferThenRefundAsWritten | src/main/java/wallet_service/eci/edu/co/service/WalletService.java:533-537 | transfer then refundTokens as written: the student is restored but the tutor keeps the tokens |
| ServiceProperties.TransferThenRefundByBookingRestores | src/main/java/wallet_service/eci/edu/co/service/WalletService.java:553-622 | transfer then the intended booking refund returns exactly the transferred tokens and restores both balances |
| ServiceProperties.TransferThenRefundByBookingAsWritten | src/main/java/wallet_service/eci/edu/co/service/WalletService.java:612-613 | transfer then refundTokensByBooking as written succeeds, yet the student stays poorer and the tutor richer by the amount |
| ServiceProperties.GetOrCreateKeepsConsistent | src/main/java/wallet_service/eci/edu/co/service/WalletService.java:56-104 | getOrCreateWallet keeps the store invariant |
| ServiceProperties.PurchaseKeepsConsistent | src/main/java/wallet_service/eci/edu/co/service/WalletService.java:164-203 | processPurchase keeps the store invariant |
| ServiceProperties.UseTokensKeepsConsistent | src/main/java/wallet_service/eci/edu/co/service/WalletService.java:226-252 | useTokens keeps the store invariant |
| ServiceProperties.TransferKeepsConsistent | src/main/java/wallet_service/eci/edu/co/service/WalletService.java:425-477 | transferTokens keeps the store invariant |
| ServiceProperties.RefundKeepsConsistent | src/main/java/wallet_service/eci/edu/co/service/WalletService.java:489-546 | refundTokens as written keeps the store invariant |
| ServiceProperties.RefundByBookingKeepsConsistent | src/main/java/wallet_service/eci/edu/co/service/WalletService.java:553-622 | refundTokensByBooking as written keeps the store invariant |
| ServiceProperties.GetOrCreateKeepsUniqueKeys | src/main/java/wallet_service/eci/edu/co/service/WalletService.java:56-104 | getOrCreateWallet keeps the unique index on userId: it inserts only under a key with no wallet, and its clean-up only deletes |
| ServiceProperties.PurchaseKeepsUniqueKeys | src/main/java/wallet_service/eci/edu/co/service/WalletService.java:164-203 | processPurchase keeps the unique index on userId |
| ServiceProperties.UseTokensKeepsUniqueKeys | src/main/java/wallet_service/eci/edu/co/service/WalletService.java:226-252 | useTokens keeps the unique index on userId |
| ServiceProperties.TransferKeepsUniqueKeys | src/main/java/wallet_service/eci/edu/co/service/WalletService.java:425-477 | transferTokens keeps the unique index on userId, also when it creates the tutor wallet |
| ServiceProperties.RefundKeepsUniqueKeys | src/main/java/wallet_service/eci/edu/co/service/WalletService.java:489-546 | refundTokens as written keeps the unique index on userId |
| ServiceProperties.RefundPersistedKeepsUniqueKeys | src/main/java/wallet_service/eci/edu/co/service/WalletService.java:533-537 | the refund that stores both wallets keeps the unique index on userId |
| ServiceProperties.RefundByBookingKeepsUniqueKeys | src/main/java/wallet_service/eci/edu/co/service/WalletService.java:553-622 | refundTokensByBooking as written stores no wallet, so it keeps the unique index on userId |
| ServiceProperties.RefundByBookingPersistedKeepsUniqueKeys | src/main/java/wallet_service/eci/edu/co/service/WalletService.java:612-613 | the booking refund that stores both wallets keeps the unique index on userId |
| Service.WalletService.DeleteDuplicateWallet | src/main/java/wallet_service/eci/edu/co/service/WalletService.java:111-117 | the store after delete, with a failing delete changing nothing |
| Service.WalletService.DeleteDuplicates | src/main/java/wallet_service/eci/edu/co/service/WalletService.java:74-76 | the loop deletes each listed wallet in turn |
| Service.WalletService.GetOrCreateWallet | src/main/java/wallet_service/eci/edu/co/service/WalletService.java:56-104 | leaves the store and returns the wallet that ServiceSpec.GetOrCreateWallet describes, keeping the invariant |
| Service.WalletService.GetOrCreateStudentWallet | src/main/java/wallet_service/eci/edu/co/service/WalletService.java:127-129 | the role-aware call with role STUDENT, keyed `userId + "-student"` |
| Service.WalletService.GetWalletByKey | src/main/java/wallet_service/eci/edu/co/service/WalletService.java:149-151 | present iff a wallet is stored under the raw key, and then that wallet |
| Service.WalletService.GetWallet | src/main/java/wallet_service/eci/edu/co/service/WalletService.java:138-141 | the stored wallet under the role key, if any |
| Service.WalletService.ProcessPurchase | src/main/java/wallet_service/eci/edu/co/service/WalletService.java:164-203 | leaves the store and answer ServiceSpec.ProcessPurchase describes, keeping the invariant |
| Service.WalletService.RecordPurchase | src/main/java/wallet_service/eci/edu/co/service/WalletService.java:185-202 | for a new session and a found wallet, the entry then the credited wallet are stored as ServiceSpec.ProcessPurchase says |
| Service.WalletService.ProcessStudentPurchase | src/main/java/wallet_service/eci/edu/co/service/WalletService.java:214-216 | the role-aware purchase with role STUDENT |
| Service.WalletService.UseTokens | src/main/java/wallet_service/eci/edu/co/service/WalletService.java:226-252 | leaves the store and answer ServiceSpec.UseTokens describes, keeping the invariant |
| Service.WalletService.DebitWallet | src/main/java/wallet_service/eci/edu/co/service/WalletService.java:236-251 | once the wallet is found: debit it if it can pay, then store the entry and the wallet |
| Service.WalletService.HasEnoughTokensByKey | src/main/java/wallet_service/eci/edu/co/service/WalletService.java:275-278 | true iff a wallet is stored under the key with balance >= required |
| Service.WalletService.HasEnoughTokens | src/main/java/wallet_service/eci/edu/co/service/WalletService.java:262-266 | the same under the role key |
| Service.WalletService.GetTokenBalanceByKey | src/main/java/wallet_service/eci/edu/co/service/WalletService.java:300-304 | the stored balance, never negative, 0 without a wallet |
| Service.WalletService.GetTokenBalance | src/main/java/wallet_service/eci/edu/co/service/WalletService.java:287-292 | the same under the role key |
| Service.WalletService.GetTransactionHistoryByKey | src/main/java/wallet_service/eci/edu/co/service/WalletService.java:324-326 | the repository's newest-first query: exactly the key's entries, newest first |
| Service.WalletService.GetTransactionHistory | src/main/java/wallet_service/eci/edu/co/service/WalletService.java:313-316 | the repository's newest-first query for the role key: exactly that key's entries, newest first |
| Service.WalletService.GetPurchaseHistoryByKey | src/main/java/wallet_service/eci/edu/co/service/WalletService.java:347-350 | the repository's per-type query for PURCHASE: exactly the key's PURCHASE entries, newest first |
| Service.WalletService.GetPurchaseHistory | src/main/java/wallet_service/eci/edu/co/service/WalletService.java:335-339 | the repository's per-type query for the role key and PURCHASE: exactly those entries, newest first |
| Service.WalletService.GetUsageHistoryByKey | src/main/java/wallet_service/eci/edu/co/service/WalletService.java:371-374 | the repository's per-type query for USAGE: exactly the key's USAGE entries, newest first |
| Service.WalletService.GetUsageHistory | src/main/java/wallet_service/eci/edu/co/service/WalletService.java:359-363 | the repository's per-type query for the role key and USAGE: exactly those entries, newest first |
| Service.WalletService.GetTransactionsByDateRangeByKey | src/main/java/wallet_service/eci/edu/co/service/WalletService.java:400-403 | the repository's date-range query: exactly the key's entries created strictly inside the range, newest first |
| Service.WalletService.GetTransactionsByDateRange | src/main/java/wallet_service/eci/edu/co/service/WalletService.java:385-390 | the repository's date-range query for the role key: exactly its entries created strictly inside the range, newest first |
| Service.WalletService.FindTransactionByStripeSession | src/main/java/wallet_service/eci/edu/co/service/WalletService.java:411-413 | a stored entry with the session id, or empty exactly when none has it |
| Service.WalletService.TransferTokens | src/main/java/wallet_service/eci/edu/co/service/WalletService.java:425-477 | leaves the store and answer ServiceSpec.TransferTokens describes, keeping the invariant |
| Service.WalletService.RunTransferTokens | src/main/java/wallet_service/eci/edu/co/service/WalletService.java:428-436 | the steps of transferTokens: look up the student wallet and debit the object, failing before any save |
| Service.WalletService.PayTutor | src/main/java/wallet_service/eci/edu/co/service/WalletService.java:438-469 | once the student object is debited: credit the stored or new tutor wallet and store everything as ServiceSpec.TransferTokens says |
| Service.WalletService.SettleTransfer | src/main/java/wallet_service/eci/edu/co/service/WalletService.java:445-469 | builds both USAGE entries from the wallet objects and saves the two wallets then the two entries, in that order |
| Service.WalletService.RefundTokens | src/main/java/wallet_service/eci/edu/co/service/WalletService.java:489-546 | leaves the store and answer ServiceSpec.RefundTokens (as written) describes, keeping the invariant |
| Service.WalletService.RunRefundTokens | src/main/java/wallet_service/eci/edu/co/service/WalletService.java:492-501 | the steps of refundTokens: look up both wallets, failing before any save |
| Service.WalletService.SettleRefund | src/main/java/wallet_service/eci/edu/co/service/WalletService.java:502-507 | debit the tutor object (or fail), credit the student object, then store as refundTokens does |
| Service.WalletService.StoreRefund | src/main/java/wallet_service/eci/edu/co/service/WalletService.java:509-537 | builds the REFUND and USAGE entries, saves the student wallet and both entries, and not the tutor wallet |
| Service.WalletService.RefundTokensByBooking | src/main/java/wallet_service/eci/edu/co/service/WalletService.java:553-622 | leaves the store and answer ServiceSpec.RefundTokensByBooking (as written) describes, keeping the invariant |
| Service.WalletService.RunRefundTokensByBooking | src/main/java/wallet_service/eci/edu/co/service/WalletService.java:558-571 | the steps of refundTokensByBooking: look up both wallets and the booking's USAGE entry, failing before any save |
| Service.WalletService.RefundUsage | src/main/java/wallet_service/eci/edu/co/service/WalletService.java:573-613 | checks the amount and the tutor balance, adjusts both objects, and stores only the student's REFUND entry |
| Stripe.BuildFinalSuccessUrl | src/main/java/wallet_service/eci/edu/co/service/StripeService.java:85-89 | keeps a URL that carries the placeholder; otherwise appends `session_id=` and the placeholder after `&` or `?`; the result extends the URL and always carries the placeholder |
| Stripe.SuccessUrlIdempotent | src/main/java/wallet_service/eci/edu/co/service/StripeService.java:85-89 | building the success URL twice equals building it once |
| Stripe.BuildMetadata | src/main/java/wallet_service/eci/edu/co/service/StripeService.java:47-50 | the metadata holds exactly userId, tokens and tokenPrice; the tokens string parses back to the quantity and the price to 2000; the confirmation reads back user, quantity and amount when the quantity fits in an `int`, and rejects the metadata when it does not |
| Stripe.ReadMetadata | src/main/java/wallet_service/eci/edu/co/controller/StripeController.java:101-112 | the confirmation side: succeeds iff all three keys are present, the token count parses as a 32-bit `int` and the price as a number, and then amount = tokens * price |
| Stripe.CreateCheckoutSession | src/main/java/wallet_service/eci/edu/co/service/StripeService.java:35-68 | quantity defaults to 1, currency to "cop" (else lower-cased), name to "Token"; unit amount 2000; the confirmation reads back the user, the quantity and the amount the line item charges when the quantity fits in an `int`, and rejects the session otherwise |
| Text.ToLower | src/main/java/wallet_service/eci/edu/co/service/WalletService.java:57 | the lower-cased role has the same length, each character lower-cased on its own, and no upper-case letter left |
| Text.ParseInt | src/main/java/wallet_service/eci/edu/co/controller/StripeController.java:110 | Integer.parseInt: accepts exactly the signed decimal numerals whose value lies in -2^31 .. 2^31 - 1, and yields that value |
| Text.ParseIntOfIntToString | src/main/java/wallet_service/eci/edu/co/controller/StripeController.java:110 | what String.valueOf wrote reads back as the same number, and Integer.parseInt accepts it exactly when it lies in the 32-bit `int` range |

## Left out

- The per-key lock table `walletLocks` in `getOrCreateWallet` (WalletService.java:35, 61-63, 101) is concurrency. Each operation is one sequential step here.
- The `DuplicateKeyException` retry (WalletService.java:92-98) is not modelled: the store has no index that could reject an insert. Sequentially it cannot fire. ServiceProperties.GetOrCreateKeepsUniqueKeys proves that getOrCreateWallet inserts only under a key with no wallet, and the other `*KeepsUniqueKeys` lemmas prove that no write of the service puts a second wallet under a key.
- Single-result repository queries return the first match. Spring Data would throw when several documents match. Duplicates arise only for legacy wallets, which `getOrCreateWallet` cleans up.
- Thrown `RuntimeException`/`InsufficientTokensException` are `Err` results, and the store is left as it was. The model has no transaction rollback because the source has none: every check precedes every save.
- Null arguments are not modelled, except the null fields of a checkout request, which are `Option`s. Java would throw a NullPointerException on a null argument.
- Wallets.Wallet.AddTokens: 32-bit `Integer` overflow of `tokenBalance += tokens` is not modelled; balances are unbounded integers.
- Service.WalletService.TransferTokens: the tutor's credit is unbounded, so a balance the 32-bit `Integer` would wrap is not modelled.
- Text.ParseInt: only the ASCII digits `0`-`9` are accepted. Java's `Integer.parseInt` also accepts other Unicode decimal digits.
- Text.ToLower: only ASCII `A`-`Z` are lower-cased. Java's locale-aware `toLowerCase` also maps other letters.
- Descriptions, logging and human-readable messages are left out, because they do not affect balances or the ledger.
- `LocalDateTime.now()` is a natural-number clock that each operation moves forward once. Java reads the clock several times per call, and the model stamps one reading.
- `Double` money (`moneyAmount`, `totalSpent`, `amount`) is `real`, with no rounding.
- Stripe.ReadMetadata: `tokenPrice` is parsed as an integer of any size, whereas the controller uses `Double.parseDouble`, which also accepts fractions and exponents.
- The Stripe SDK calls are not modelled: `Stripe.apiKey`, `Session.create`, `Session.retrieve` and the `StripeResponse` built from the session. Nor are the product description string, confirmPayment's session-id normalisation, or its payment-status check.
- The HTTP controllers and their response maps are not part of this model: WalletController.java and StripeController.java beyond the metadata read. The same goes for the Cognito token classes (JWT decoding), the DTOs and the Mongo configuration.
- WalletController calls a 4-argument `transferTokens` that the service does not define. The model has the service's 5-argument signature (WalletService.java:425).
- `refundTokens` and `refundTokensByBooking` return the balances of the in-memory objects. The model reports those, even where they differ from the stored balances (see Findings).

## Findings

| source | as written | input that shows it | evidently intended | confidence | as-written member | corrected member |
|---|---|---|---|---|---|---|
| src/main/java/wallet_service/eci/edu/co/service/WalletService.java:533-537 | refundTokens debits the tutor object but saves only the student wallet and the two entries; the debited tutor wallet is never saved | transfer 5 tokens from a student with 10 to a tutor with 0, then refundTokens of 5: the student is back at 10, yet the tutor's stored balance stays 5 while the call reports 0 | the tutor wallet is saved too, so tokens move back rather than being created | not executed | ServiceProperties.TransferThenRefundAsWritten | ServiceProperties.TransferThenRefundRestores |
| src/main/java/wallet_service/eci/edu/co/service/WalletService.java:612-613 | refundTokensByBooking saves only the student's REFUND entry; neither wallet and not the tutor's USAGE entry is saved | transfer 5 tokens for booking b, then refundTokensByBooking for b: the call succeeds and reports 5 refunded, yet the stored balances stay 5 and 5 | both wallets and both entries are saved, as in refundTokens | not executed | ServiceProperties.TransferThenRefundByBookingAsWritten | ServiceProperties.TransferThenRefundByBookingRestores |
