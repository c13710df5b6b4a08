/**
 * service/WalletService.java: the service object over the two repositories.
 *
 * The persisted state lives in the fields `wallets`, `ledger` and `nextId`,
 * which only the repository writes below change. `clock` stands for
 * LocalDateTime.now(): each public operation reads it once, after moving it
 * forward, and stamps everything it creates with that reading. Every
 * operation is proved to leave exactly the state its `ServiceSpec` function
 * describes and to keep the invariant `Valid`.
 */
module Service {
  import opened Wrappers
  import opened Wallets
  import opened Transactions
  import opened WalletRepository
  import opened TransactionRepository
  import opened Persistence
  import opened ServiceSpec
  import opened ServiceProperties

  /** The writes of a successful transfer, in the order the service makes them. */
  lemma TransferSteps(s: Store, fromUserId: string, toUserId: string, tokens: int, bookingId: string, now: nat,
                      sw: WalletRecord)
    requires FindByUserId(s.wallets, StudentKey(fromUserId)) == Some(sw) && CanUse(sw, tokens)
    ensures var tw := TutorWalletFor(s, toUserId, now);
      var s1 := SaveWallet(s, UsedTokens(sw, tokens, now)).0;
      var s2 := SaveWallet(s1, AddedTokens(tw, tokens, now)).0;
      var s3 := SaveEntry(s2, NewUsage(StudentKey(fromUserId), sw.id, tokens, now).(bookingId := Some(bookingId))).0;
      ServiceSpec.TransferTokens(s, fromUserId, toUserId, tokens, bookingId, now) ==
        (SaveEntry(s3, NewSettled(TutorKey(toUserId), tw.id, USAGE, tokens, Some(bookingId), now)).0,
         Ok(Transferred(UsedTokens(sw, tokens, now).tokenBalance, AddedTokens(tw, tokens, now).tokenBalance)))
  {
  }

  /** The writes of a successful refundTokens, in the order the service makes them. */
  lemma RefundWrites(s: Store, studentUserId: string, tutorUserId: string, tokens: int, now: nat,
                     sw: WalletRecord, tw: WalletRecord)
    requires FindByUserId(s.wallets, StudentKey(studentUserId)) == Some(sw)
    requires FindByUserId(s.wallets, TutorKey(tutorUserId)) == Some(tw) && CanUse(tw, tokens)
    ensures var s1 := SaveWallet(s, AddedTokens(sw, tokens, now)).0;
      var s2 := SaveEntry(s1, NewSettled(StudentKey(studentUserId), sw.id, REFUND, tokens, None, now)).0;
      ServiceSpec.RefundTokens(s, studentUserId, tutorUserId, tokens, now) ==
        (SaveEntry(s2, NewSettled(TutorKey(tutorUserId), tw.id, USAGE, tokens, None, now)).0,
         Ok(Refunded(tokens, AddedTokens(sw, tokens, now).tokenBalance, UsedTokens(tw, tokens, now).tokenBalance)))
  {
  }

  class WalletService {
    var wallets: seq<WalletRecord>
    var ledger: seq<Entry>
    var nextId: nat
    var clock: nat

    /** The persisted state. */
    function State(): Store
      reads this
    {
      Store(wallets, ledger, nextId)
    }

    predicate Valid()
      reads this
    {
      Consistent(State(), clock)
    }

    /** A service over empty collections. */
    constructor ()
      ensures State() == Store([], [], 0) && clock == 0
      ensures Valid()
    {
      wallets, ledger, nextId, clock := [], [], 0, 0;
    }

    /** Read the clock once for an operation. */
    method Tick() returns (now: nat)
      modifies this
      ensures now == clock == old(clock) + 1
      ensures State() == old(State())
    {
      clock := clock + 1;
      now := clock;
    }

    /** walletRepository.save(w): the object receives the id it was stored under. */
    method SaveWalletObject(w: Wallet)
      modifies this, w
      ensures State() == SaveWallet(old(State()), old(w.Record())).0
      ensures w.Record() == SaveWallet(old(State()), old(w.Record())).1
      ensures clock == old(clock)
    {
      var r := SaveWallet(State(), w.Record());
      wallets, ledger, nextId := r.0.wallets, r.0.ledger, r.0.nextId;
      w.id := r.1.id;
    }

    /** transactionRepository.save(t): the object receives the id it was stored under. */
    method SaveTransactionObject(t: Transaction)
      modifies this, t
      ensures State() == SaveEntry(old(State()), old(t.Record())).0
      ensures t.Record() == SaveEntry(old(State()), old(t.Record())).1
      ensures clock == old(clock)
    {
      var r := SaveEntry(State(), t.Record());
      wallets, ledger, nextId := r.0.wallets, r.0.ledger, r.0.nextId;
      t.id := r.1.id;
    }

    /** deleteDuplicateWallet: walletRepository.delete with any failure swallowed. */
    method DeleteDuplicateWallet(w: WalletRecord)
      modifies this
      ensures State() == DeleteWallet(old(State()), w)
      ensures clock == old(clock)
    {
      var s := DeleteWallet(State(), w);
      wallets, ledger, nextId := s.wallets, s.ledger, s.nextId;
    }

    /** The clean-up loop of getOrCreateWallet: delete each listed wallet in turn. */
    method DeleteDuplicates(ds: seq<WalletRecord>)
      modifies this
      ensures State() == DeleteWallets(old(State()), ds)
      ensures clock == old(clock)
    {
      for i := 0 to |ds|
        invariant State() == DeleteWallets(old(State()), ds[..i])
        invariant clock == old(clock)
      {
        DeleteDuplicateWallet(ds[i]);
        assert ds[..i + 1][..i] == ds[..i];
      }
      assert ds[..|ds|] == ds;
    }

    /**
     * getOrCreateWallet(actualUserId, role, email): keep the first wallet
     * stored under the role key and delete the others, or create the wallet.
     */
    method GetOrCreateWallet(actualUserId: string, role: string, email: string) returns (w: Wallet)
      requires Valid()
      modifies this
      ensures (State(), w.Record()) == ServiceSpec.GetOrCreateWallet(old(State()), actualUserId, role, email, clock)
      ensures clock == old(clock) + 1 && Valid() && fresh(w)
    {
      var s0 := State();
      var now := Tick();
      GetOrCreateKeepsConsistent(s0, old(clock), actualUserId, role, email, now);
      var k := WalletKey(actualUserId, role);
      var all := FindAllByUserId(wallets, k);
      if all != [] {
        if |all| > 1 {
          DeleteDuplicates(all[1..]);
        }
        w := new Wallet.Load(all[0]);
        return;
      }
      w := new Wallet.Create(actualUserId, role, email, now);
      SaveWalletObject(w);
    }

    /** The legacy getOrCreateWallet(userId, email): the STUDENT wallet. */
    method GetOrCreateStudentWallet(userId: string, email: string) returns (w: Wallet)
      requires Valid()
      modifies this
      ensures (State(), w.Record()) == ServiceSpec.GetOrCreateWallet(old(State()), userId, "STUDENT", email, clock)
      ensures w.Record().userId == userId + StudentSuffix
      ensures clock == old(clock) + 1 && Valid() && fresh(w)
    {
      RoleKeys(userId);
      w := GetOrCreateWallet(userId, "STUDENT", email);
    }

    /** getWallet(userId): the wallet stored under a raw key. */
    method GetWalletByKey(userId: string) returns (r: Option<WalletRecord>)
      ensures r.Some? <==> exists i :: 0 <= i < |wallets| && wallets[i].userId == userId
      ensures r.Some? ==> r.value in wallets && r.value.userId == userId
      ensures r == FindByUserId(wallets, userId)
    {
      r := FindByUserId(wallets, userId);
    }

    /** getWallet(actualUserId, role). */
    method GetWallet(actualUserId: string, role: string) returns (r: Option<WalletRecord>)
      ensures r == FindByUserId(wallets, WalletKey(actualUserId, role))
      ensures r.Some? ==> r.value in wallets && r.value.userId == WalletKey(actualUserId, role)
    {
      r := GetWalletByKey(WalletKey(actualUserId, role));
    }

    /**
     * processPurchase(actualUserId, role, tokens, amount, sessionId): record
     * and credit a payment once per session.
     */
    method ProcessPurchase(actualUserId: string, role: string, tokens: int, amount: real, sessionId: string)
      returns (r: Result<Entry, Error>)
      requires Valid()
      modifies this
      ensures (State(), r) == ServiceSpec.ProcessPurchase(old(State()), actualUserId, role, tokens, amount, sessionId, clock)
      ensures clock == old(clock) + 1 && Valid()
    {
      var s0 := State();
      var now := Tick();
      PurchaseKeepsConsistent(s0, old(clock), actualUserId, role, tokens, amount, sessionId, now);
      var k := WalletKey(actualUserId, role);
      var existing := FindByStripeSessionId(ledger, sessionId);
      if existing.Some? {
        return Ok(existing.value);
      }
      var found := FindByUserId(wallets, k);
      if found.None? {
        return Err(WalletNotFound(k));
      }
      r := RecordPurchase(actualUserId, role, tokens, amount, sessionId, now, found.value);
    }

    /**
     * The writes of processPurchase for a new session: store the completed
     * PURCHASE entry, then the credited wallet.
     */
    method RecordPurchase(actualUserId: string, role: string, tokens: int, amount: real, sessionId: string,
                          now: nat, ghost w: WalletRecord)
      returns (r: Result<Entry, Error>)
      requires FindByStripeSessionId(ledger, sessionId).None?
      requires FindByUserId(wallets, WalletKey(actualUserId, role)) == Some(w)
      modifies this
      ensures (State(), r) == ServiceSpec.ProcessPurchase(old(State()), actualUserId, role, tokens, amount, sessionId, now)
      ensures clock == old(clock)
    {
      var k := WalletKey(actualUserId, role);
      var wallet := new Wallet.Load(FindByUserId(wallets, k).value);
      var t := new Transaction.Purchase(k, wallet.id, tokens, amount, sessionId, now);
      t.Complete(now);
      SaveTransactionObject(t);
      wallet.AddTokens(tokens, now);
      wallet.AddToTotalSpent(amount, now);
      SaveWalletObject(wallet);
      r := Ok(t.Record());
    }

    /** The legacy processPurchase(userId, tokens, amount, sessionId): a STUDENT purchase. */
    method ProcessStudentPurchase(userId: string, tokens: int, amount: real, sessionId: string)
      returns (r: Result<Entry, Error>)
      requires Valid()
      modifies this
      ensures (State(), r) == ServiceSpec.ProcessPurchase(old(State()), userId, "STUDENT", tokens, amount, sessionId, clock)
      ensures clock == old(clock) + 1 && Valid()
    {
      r := ProcessPurchase(userId, "STUDENT", tokens, amount, sessionId);
    }

    /** useTokens(userId, tokens, description): debit a wallet under a raw key. */
    method UseTokens(userId: string, tokens: int) returns (r: Result<bool, Error>)
      requires Valid()
      modifies this
      ensures (State(), r) == ServiceSpec.UseTokens(old(State()), userId, tokens, clock)
      ensures clock == old(clock) + 1 && Valid()
    {
      var s0 := State();
      var now := Tick();
      UseTokensKeepsConsistent(s0, old(clock), userId, tokens, now);
      var found := FindByUserId(wallets, userId);
      if found.None? {
        return Err(WalletNotFound(userId));
      }
      r := DebitWallet(userId, tokens, now, found.value);
    }

    /** The rest of useTokens once the wallet is found: debit it if it can pay, then store the entry and the wallet. */
    method DebitWallet(userId: string, tokens: int, now: nat, ghost w: WalletRecord) returns (r: Result<bool, Error>)
      requires FindByUserId(wallets, userId) == Some(w)
      modifies this
      ensures (State(), r) == ServiceSpec.UseTokens(old(State()), userId, tokens, now)
      ensures clock == old(clock)
    {
      var wallet := new Wallet.Load(FindByUserId(wallets, userId).value);
      var ok := wallet.UseTokens(tokens, now);
      if ok {
        var t := new Transaction.Usage(userId, wallet.id, tokens, now);
        SaveTransactionObject(t);
        SaveWalletObject(wallet);
        return Ok(true);
      }
      r := Ok(false);
    }

    /** hasEnoughTokens(userId, required). */
    method HasEnoughTokensByKey(userId: string, required: int) returns (b: bool)
      ensures b <==> FindByUserId(wallets, userId).Some? && FindByUserId(wallets, userId).value.tokenBalance >= required
    {
      var found := FindByUserId(wallets, userId);
      b := found.Some? && found.value.tokenBalance >= required;
    }

    /** hasEnoughTokens(actualUserId, role, required). */
    method HasEnoughTokens(actualUserId: string, role: string, required: int) returns (b: bool)
      ensures b == ServiceSpec.HasEnoughTokens(State(), WalletKey(actualUserId, role), required)
    {
      b := HasEnoughTokensByKey(WalletKey(actualUserId, role), required);
    }

    /** getTokenBalance(userId): the stored balance, 0 without a wallet. */
    method GetTokenBalanceByKey(userId: string) returns (b: int)
      requires Valid()
      ensures b == TokenBalance(State(), userId)
      ensures b >= 0
      ensures FindByUserId(wallets, userId).None? ==> b == 0
    {
      var found := FindByUserId(wallets, userId);
      if found.Some? {
        FoundBalanceNonNegative(wallets, userId);
      }
      b := if found.Some? then found.value.tokenBalance else 0;
    }

    /** getTokenBalance(actualUserId, role). */
    method GetTokenBalance(actualUserId: string, role: string) returns (b: int)
      requires Valid()
      ensures b == TokenBalance(State(), WalletKey(actualUserId, role)) && b >= 0
    {
      b := GetTokenBalanceByKey(WalletKey(actualUserId, role));
    }

    /** getTransactionHistory(userId): the key's entries, newest first. */
    method GetTransactionHistoryByKey(userId: string) returns (r: seq<Entry>)
      requires Valid()
      ensures r == FindByUserIdOrderByCreatedAtDesc(ledger, userId)
      ensures forall e :: e in r <==> e in ledger && e.userId == userId
      ensures NewestFirst(r)
    {
      NewestFirstWhenChronological(ledger, OfUser(userId));
      r := FindByUserIdOrderByCreatedAtDesc(ledger, userId);
    }

    /** getTransactionHistory(actualUserId, role). */
    method GetTransactionHistory(actualUserId: string, role: string) returns (r: seq<Entry>)
      requires Valid()
      ensures r == FindByUserIdOrderByCreatedAtDesc(ledger, WalletKey(actualUserId, role))
      ensures forall e :: e in r <==> e in ledger && e.userId == WalletKey(actualUserId, role)
      ensures NewestFirst(r)
    {
      r := GetTransactionHistoryByKey(WalletKey(actualUserId, role));
    }

    /** getPurchaseHistory(userId): the key's PURCHASE entries, newest first. */
    method GetPurchaseHistoryByKey(userId: string) returns (r: seq<Entry>)
      requires Valid()
      ensures r == FindByUserIdAndTypeOrderByCreatedAtDesc(ledger, userId, PURCHASE)
      ensures forall e :: e in r <==> e in ledger && e.userId == userId && e.kind == PURCHASE
      ensures NewestFirst(r)
    {
      NewestFirstWhenChronological(ledger, OfUserAndType(userId, PURCHASE));
      r := FindByUserIdAndTypeOrderByCreatedAtDesc(ledger, userId, PURCHASE);
    }

    /** getPurchaseHistory(actualUserId, role). */
    method GetPurchaseHistory(actualUserId: string, role: string) returns (r: seq<Entry>)
      requires Valid()
      ensures r == FindByUserIdAndTypeOrderByCreatedAtDesc(ledger, WalletKey(actualUserId, role), PURCHASE)
      ensures forall e :: e in r <==> e in ledger && e.userId == WalletKey(actualUserId, role) && e.kind == PURCHASE
      ensures NewestFirst(r)
    {
      r := GetPurchaseHistoryByKey(WalletKey(actualUserId, role));
    }

    /** getUsageHistory(userId): the key's USAGE entries, newest first. */
    method GetUsageHistoryByKey(userId: string) returns (r: seq<Entry>)
      requires Valid()
      ensures r == FindByUserIdAndTypeOrderByCreatedAtDesc(ledger, userId, USAGE)
      ensures forall e :: e in r <==> e in ledger && e.userId == userId && e.kind == USAGE
      ensures NewestFirst(r)
    {
      NewestFirstWhenChronological(ledger, OfUserAndType(userId, USAGE));
      r := FindByUserIdAndTypeOrderByCreatedAtDesc(ledger, userId, USAGE);
    }

    /** getUsageHistory(actualUserId, role). */
    method GetUsageHistory(actualUserId: string, role: string) returns (r: seq<Entry>)
      requires Valid()
      ensures r == FindByUserIdAndTypeOrderByCreatedAtDesc(ledger, WalletKey(actualUserId, role), USAGE)
      ensures forall e :: e in r <==> e in ledger && e.userId == WalletKey(actualUserId, role) && e.kind == USAGE
      ensures NewestFirst(r)
    {
      r := GetUsageHistoryByKey(WalletKey(actualUserId, role));
    }

    /** getTransactionsByDateRange(userId, start, end): entries strictly between the two instants, newest first. */
    method GetTransactionsByDateRangeByKey(userId: string, start: nat, end: nat) returns (r: seq<Entry>)
      requires Valid()
      ensures r == FindByUserIdAndCreatedAtBetweenOrderByCreatedAtDesc(ledger, userId, start, end)
      ensures forall e :: e in r <==> e in ledger && e.userId == userId && start < e.createdAt < end
      ensures NewestFirst(r)
    {
      NewestFirstWhenChronological(ledger, OfUserCreatedBetween(userId, start, end));
      r := FindByUserIdAndCreatedAtBetweenOrderByCreatedAtDesc(ledger, userId, start, end);
    }

    /** getTransactionsByDateRange(actualUserId, role, start, end). */
    method GetTransactionsByDateRange(actualUserId: string, role: string, start: nat, end: nat) returns (r: seq<Entry>)
      requires Valid()
      ensures r == FindByUserIdAndCreatedAtBetweenOrderByCreatedAtDesc(ledger, WalletKey(actualUserId, role), start, end)
      ensures forall e :: e in r <==> e in ledger && e.userId == WalletKey(actualUserId, role) && start < e.createdAt < end
      ensures NewestFirst(r)
    {
      r := GetTransactionsByDateRangeByKey(WalletKey(actualUserId, role), start, end);
    }

    /** findTransactionByStripeSession. */
    method FindTransactionByStripeSession(sessionId: string) returns (r: Option<Entry>)
      ensures r.Some? ==> r.value in ledger && r.value.stripeSessionId == Some(sessionId)
      ensures r.None? <==> forall e :: e in ledger ==> e.stripeSessionId != Some(sessionId)
    {
      r := FindByStripeSessionId(ledger, sessionId);
    }

    /**
     * The second half of transferTokens: build both USAGE entries from the
     * wallet objects as they stand, then save both wallets and both entries.
     */
    method SettleTransfer(sk: string, tk: string, student: Wallet, tutor: Wallet, tokens: int, bookingId: string,
                          now: nat)
      requires student != tutor
      modifies this, student, tutor
      ensures var s1 := SaveWallet(old(State()), old(student.Record())).0;
        var s2 := SaveWallet(s1, old(tutor.Record())).0;
        var s3 := SaveEntry(s2, NewUsage(sk, old(student.id), tokens, now).(bookingId := Some(bookingId))).0;
        State() == SaveEntry(s3, NewSettled(tk, old(tutor.id), USAGE, tokens, Some(bookingId), now)).0
      ensures student.tokenBalance == old(student.tokenBalance) && tutor.tokenBalance == old(tutor.tokenBalance)
      ensures clock == old(clock)
    {
      var studentEntry := new Transaction.Usage(sk, student.id, tokens, now);
      studentEntry.SetBookingId(bookingId);
      var tutorEntry := new Transaction.Settled(tk, tutor.id, USAGE, tokens, Some(bookingId), now);
      ghost var s1 := SaveWallet(State(), student.Record()).0;
      ghost var s2 := SaveWallet(s1, tutor.Record()).0;
      SaveWalletObject(student);
      assert State() == s1;
      SaveWalletObject(tutor);
      assert State() == s2;
      SaveTransactionObject(studentEntry);
      SaveTransactionObject(tutorEntry);
    }

    /**
     * transferTokens(fromUserId, toUserId, tokens, description, bookingId):
     * pay a tutor from a student wallet for a booking.
     */
    method TransferTokens(fromUserId: string, toUserId: string, tokens: int, bookingId: string)
      returns (r: Result<Transferred, Error>)
      requires Valid()
      modifies this
      ensures (State(), r) == ServiceSpec.TransferTokens(old(State()), fromUserId, toUserId, tokens, bookingId, clock)
      ensures clock == old(clock) + 1 && Valid()
    {
      var s0 := State();
      r := RunTransferTokens(fromUserId, toUserId, tokens, bookingId);
      TransferKeepsConsistent(s0, old(clock), fromUserId, toUserId, tokens, bookingId, clock);
    }

    /** The steps of transferTokens, which `TransferTokens` runs and proves invariant-preserving. */
    method RunTransferTokens(fromUserId: string, toUserId: string, tokens: int, bookingId: string)
      returns (r: Result<Transferred, Error>)
      modifies this
      ensures (State(), r) == ServiceSpec.TransferTokens(old(State()), fromUserId, toUserId, tokens, bookingId, clock)
      ensures clock == old(clock) + 1
    {
      var now := Tick();
      var sk := fromUserId + StudentSuffix;
      var foundStudent := FindByUserId(wallets, sk);
      if foundStudent.None? {
        return Err(WalletNotFound(sk));
      }
      var student := new Wallet.Load(foundStudent.value);
      var ok := student.UseTokens(tokens, now);
      if !ok {
        return Err(InsufficientTokens);
      }
      r := PayTutor(fromUserId, toUserId, tokens, bookingId, now, student, foundStudent.value);
    }

    /**
     * The rest of transferTokens once the student wallet object has been
     * debited: credit the tutor's wallet (a new one when none is stored) and
     * store everything.
     */
    method PayTutor(fromUserId: string, toUserId: string, tokens: int, bookingId: string, now: nat,
                    student: Wallet, ghost sw: WalletRecord)
      returns (r: Result<Transferred, Error>)
      requires FindByUserId(wallets, StudentKey(fromUserId)) == Some(sw) && CanUse(sw, tokens)
      requires student.Record() == UsedTokens(sw, tokens, now)
      modifies this, student
      ensures (State(), r) == ServiceSpec.TransferTokens(old(State()), fromUserId, toUserId, tokens, bookingId, now)
      ensures clock == old(clock)
    {
      var sk, tk := fromUserId + StudentSuffix, toUserId + TutorSuffix;
      var foundTutor := FindByUserId(wallets, tk);
      var tutor: Wallet;
      if foundTutor.Some? {
        tutor := new Wallet.Load(foundTutor.value);
      } else {
        tutor := new Wallet.Create(toUserId, "TUTOR", "", now);
      }
      tutor.AddTokens(tokens, now);
      TransferSteps(State(), fromUserId, toUserId, tokens, bookingId, now, sw);
      SettleTransfer(sk, tk, student, tutor, tokens, bookingId, now);
      r := Ok(Transferred(student.tokenBalance, tutor.tokenBalance));
    }

    /**
     * refundTokens(studentUserId, tutorUserId, tokens, description), as
     * written: the debited tutor wallet is not saved.
     */
    method RefundTokens(studentUserId: string, tutorUserId: string, tokens: int)
      returns (r: Result<Refunded, Error>)
      requires Valid()
      modifies this
      ensures (State(), r) == ServiceSpec.RefundTokens(old(State()), studentUserId, tutorUserId, tokens, clock)
      ensures clock == old(clock) + 1 && Valid()
    {
      var s0 := State();
      r := RunRefundTokens(studentUserId, tutorUserId, tokens);
      RefundKeepsConsistent(s0, old(clock), studentUserId, tutorUserId, tokens, clock);
    }

    /** The steps of refundTokens, which `RefundTokens` runs and proves invariant-preserving. */
    method RunRefundTokens(studentUserId: string, tutorUserId: string, tokens: int)
      returns (r: Result<Refunded, Error>)
      modifies this
      ensures (State(), r) == ServiceSpec.RefundTokens(old(State()), studentUserId, tutorUserId, tokens, clock)
      ensures clock == old(clock) + 1
    {
      var s0 := State();
      var now := Tick();
      var sk, tk := studentUserId + StudentSuffix, tutorUserId + TutorSuffix;
      var foundStudent := FindByUserId(wallets, sk);
      if foundStudent.None? {
        return Err(WalletNotFound(sk));
      }
      var foundTutor := FindByUserId(wallets, tk);
      if foundTutor.None? {
        return Err(WalletNotFound(tk));
      }
      r := SettleRefund(studentUserId, tutorUserId, tokens, now, foundStudent.value, foundTutor.value);
    }

    /**
     * The rest of refundTokens once both wallets are found: debit the tutor
     * object, credit the student object, and store the student wallet and
     * both entries (not the tutor wallet).
     */
    method SettleRefund(studentUserId: string, tutorUserId: string, tokens: int, now: nat,
                        ghost sw: WalletRecord, ghost tw: WalletRecord)
      returns (r: Result<Refunded, Error>)
      requires FindByUserId(wallets, StudentKey(studentUserId)) == Some(sw)
      requires FindByUserId(wallets, TutorKey(tutorUserId)) == Some(tw)
      modifies this
      ensures (State(), r) == ServiceSpec.RefundTokens(old(State()), studentUserId, tutorUserId, tokens, now)
      ensures clock == old(clock)
    {
      ghost var s0 := State();
      var sk, tk := studentUserId + StudentSuffix, tutorUserId + TutorSuffix;
      var student := new Wallet.Load(FindByUserId(wallets, sk).value);
      var tutor := new Wallet.Load(FindByUserId(wallets, tk).value);
      var ok := tutor.UseTokens(tokens, now);
      if !ok {
        return Err(InsufficientTokens);
      }
      student.AddTokens(tokens, now);
      StoreRefund(sk, tk, student, tutor, tokens, now);
      r := Ok(Refunded(tokens, student.tokenBalance, tutor.tokenBalance));
      RefundWrites(s0, studentUserId, tutorUserId, tokens, now, sw, tw);
    }

    /**
     * The writes of refundTokens: build the REFUND and USAGE entries from the
     * wallet objects, then store the student wallet and both entries.
     */
    method StoreRefund(sk: string, tk: string, student: Wallet, tutor: Wallet, tokens: int, now: nat)
      modifies this, student
      ensures var s1 := SaveWallet(old(State()), old(student.Record())).0;
        var s2 := SaveEntry(s1, NewSettled(sk, old(student.id), REFUND, tokens, None, now)).0;
        State() == SaveEntry(s2, NewSettled(tk, old(tutor.id), USAGE, tokens, None, now)).0
      ensures student.tokenBalance == old(student.tokenBalance) && tutor.tokenBalance == old(tutor.tokenBalance)
      ensures clock == old(clock)
    {
      var refundEntry := new Transaction.Settled(sk, student.id, REFUND, tokens, None, now);
      var deductionEntry := new Transaction.Settled(tk, tutor.id, USAGE, tokens, None, now);
      ghost var s1 := SaveWallet(State(), student.Record()).0;
      SaveWalletObject(student);
      assert State() == s1;
      SaveTransactionObject(refundEntry);
      SaveTransactionObject(deductionEntry);
    }

    /**
     * refundTokensByBooking(studentUserId, tutorUserId, bookingId,
     * description), as written: only the student's REFUND entry is saved.
     */
    method RefundTokensByBooking(studentUserId: string, tutorUserId: string, bookingId: string)
      returns (r: Result<Refunded, Error>)
      requires Valid()
      modifies this
      ensures (State(), r) == ServiceSpec.RefundTokensByBooking(old(State()), studentUserId, tutorUserId, bookingId, clock)
      ensures clock == old(clock) + 1 && Valid()
    {
      var s0 := State();
      r := RunRefundTokensByBooking(studentUserId, tutorUserId, bookingId);
      RefundByBookingKeepsConsistent(s0, old(clock), studentUserId, tutorUserId, bookingId, clock);
    }

    /** The steps of refundTokensByBooking, which `RefundTokensByBooking` runs and proves invariant-preserving. */
    method RunRefundTokensByBooking(studentUserId: string, tutorUserId: string, bookingId: string)
      returns (r: Result<Refunded, Error>)
      modifies this
      ensures (State(), r) == ServiceSpec.RefundTokensByBooking(old(State()), studentUserId, tutorUserId, bookingId, clock)
      ensures clock == old(clock) + 1
    {
      var s0 := State();
      var now := Tick();
      var sk, tk := studentUserId + StudentSuffix, tutorUserId + TutorSuffix;
      var foundStudent := FindByUserId(wallets, sk);
      if foundStudent.None? {
        return Err(WalletNotFound(sk));
      }
      var foundTutor := FindByUserId(wallets, tk);
      if foundTutor.None? {
        return Err(WalletNotFound(tk));
      }
      var student := new Wallet.Load(foundStudent.value);
      var tutor := new Wallet.Load(foundTutor.value);
      var usage := FindFirstByBookingIdAndUserIdAndType(ledger, bookingId, sk, USAGE);
      if usage.None? {
        return Err(UsageNotFound(bookingId));
      }
      r := RefundUsage(studentUserId, tutorUserId, bookingId, now, student, tutor, usage.value);
    }

    /**
     * The rest of refundTokensByBooking once the booking's USAGE entry is
     * found: check its amount and the tutor's balance, adjust both wallet
     * objects, and store the student's REFUND entry only.
     */
    method RefundUsage(studentUserId: string, tutorUserId: string, bookingId: string, now: nat,
                       student: Wallet, tutor: Wallet, usage: Entry)
      returns (r: Result<Refunded, Error>)
      requires FindByUserId(wallets, StudentKey(studentUserId)) == Some(student.Record())
      requires FindByUserId(wallets, TutorKey(tutorUserId)) == Some(tutor.Record())
      requires FindFirstByBookingIdAndUserIdAndType(ledger, bookingId, StudentKey(studentUserId), USAGE) == Some(usage)
      requires student != tutor
      modifies this, student, tutor
      ensures (State(), r) == ServiceSpec.RefundTokensByBooking(old(State()), studentUserId, tutorUserId, bookingId, now)
      ensures clock == old(clock)
    {
      var sk, tk := studentUserId + StudentSuffix, tutorUserId + TutorSuffix;
      var tokens := usage.tokensAmount.GetOr(0);
      if tokens <= 0 {
        return Err(InsufficientTokens);
      }
      var ok := tutor.UseTokens(tokens, now);
      if !ok {
        return Err(InsufficientTokens);
      }
      student.AddTokens(tokens, now);
      var refundEntry := new Transaction.Settled(sk, student.id, REFUND, tokens, Some(bookingId), now);
      var deductionEntry := new Transaction.Settled(tk, tutor.id, USAGE, tokens, Some(bookingId), now);
      SaveTransactionObject(refundEntry);
      r := Ok(Refunded(tokens, student.tokenBalance, tutor.tokenBalance));
    }
  }
}
