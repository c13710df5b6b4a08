/**
 * What the operations of WalletService guarantee about the persisted state:
 * one wallet per key after getOrCreateWallet, purchases that are idempotent
 * per payment session, transfers that conserve tokens, the invariant
 * `Consistent` that every operation keeps, and the unique index on the wallet
 * key, which no write of the service can break.
 */
module ServiceProperties {
  import opened Wrappers
  import opened Sequences
  import opened Wallets
  import opened Transactions
  import opened WalletRepository
  import opened TransactionRepository
  import opened Persistence
  import opened ServiceSpec

  /** The balance a lookup finds is never negative in a store without negative balances. */
  lemma FoundBalanceNonNegative(ws: seq<WalletRecord>, k: string)
    requires NonNegative(ws) && FindByUserId(ws, k).Some?
    ensures FindByUserId(ws, k).value.tokenBalance >= 0
  {
    var i := FirstIndexByUserId(ws, k).value;
    FindByIsFirstOfFindAll(ws, k);
    assert FindByUserId(ws, k).value == ws[i];
  }

  /**
   * After getOrCreateWallet the key holds exactly one wallet, the one
   * returned; it carries an id; no other key gains or loses a wallet.
   */
  lemma GetOrCreateLeavesOne(s: Store, actualUserId: string, role: string, email: string, now: nat)
    requires WalletIdsOk(s.wallets, s.nextId)
    ensures var r := GetOrCreateWallet(s, actualUserId, role, email, now);
      FindAllByUserId(r.0.wallets, WalletKey(actualUserId, role)) == [r.1] && r.1.id.Some?
    ensures var r := GetOrCreateWallet(s, actualUserId, role, email, now);
      forall k' :: k' != WalletKey(actualUserId, role) ==>
        FindAllByUserId(r.0.wallets, k') == FindAllByUserId(s.wallets, k')
    ensures var r := GetOrCreateWallet(s, actualUserId, role, email, now);
      WalletIdsOk(r.0.wallets, r.0.nextId) && s.nextId <= r.0.nextId
    ensures var r := GetOrCreateWallet(s, actualUserId, role, email, now);
      FindAllByUserId(s.wallets, WalletKey(actualUserId, role)) == [] ==>
        r.1 == NewWallet(actualUserId, role, email, now).(id := Some(s.nextId))
  {
    var k := WalletKey(actualUserId, role);
    var all := FindAllByUserId(s.wallets, k);
    if all == [] {
      var w := NewWallet(actualUserId, role, email, now);
      FindByIsFirstOfFindAll(s.wallets, k);
      SaveFreshWallet(s, w);
      var w' := w.(id := Some(s.nextId));
      forall k' ensures FindAllByUserId(s.wallets + [w'], k') == FindAllByUserId(s.wallets, k') + (if w'.userId == k' then [w'] else []) {
        FilterAppend(s.wallets, w', HasKey(k'));
      }
    } else if |all| > 1 {
      CleanupKeepsFirst(s, k);
      assert all[0] in s.wallets;
    } else {
      assert all == [all[0]];
      assert all[0] in s.wallets;
    }
  }

  /** A second getOrCreateWallet for the same key returns the same wallet and writes nothing. */
  lemma GetOrCreateIdempotent(s: Store, actualUserId: string, role: string, email: string, now: nat,
                              email2: string, now2: nat)
    requires WalletIdsOk(s.wallets, s.nextId)
    ensures var r := GetOrCreateWallet(s, actualUserId, role, email, now);
      GetOrCreateWallet(r.0, actualUserId, role, email2, now2) == r
  {
    GetOrCreateLeavesOne(s, actualUserId, role, email, now);
  }

  /**
   * Replaying a payment session: once processPurchase has answered a session,
   * any later call for that session (whoever it names, whatever amounts it
   * carries) answers with the same entry and writes nothing.
   */
  lemma PurchaseReplayWritesNothing(s: Store, actualUserId: string, role: string, tokens: int, amount: real,
                                    sessionId: string, now: nat,
                                    actualUserId2: string, role2: string, tokens2: int, amount2: real, now2: nat)
    requires ProcessPurchase(s, actualUserId, role, tokens, amount, sessionId, now).1.Ok?
    ensures var r := ProcessPurchase(s, actualUserId, role, tokens, amount, sessionId, now);
      ProcessPurchase(r.0, actualUserId2, role2, tokens2, amount2, sessionId, now2) == r
  {
    var r := ProcessPurchase(s, actualUserId, role, tokens, amount, sessionId, now);
    if FindByStripeSessionId(s.ledger, sessionId).None? {
      var k := WalletKey(actualUserId, role);
      var w := FindByUserId(s.wallets, k).value;
      var e := Completed(NewPurchase(k, w.id, tokens, amount, sessionId, now), now);
      SaveNewEntry(s, e);
      assert r.0.ledger == s.ledger + [r.1.value];
      var found := FindByStripeSessionId(r.0.ledger, sessionId);
      assert r.1.value in r.0.ledger;
      assert found.value == r.1.value;
    }
  }

  /**
   * A first purchase for a session stores a completed PURCHASE entry under
   * the next id and credits the wallet with the tokens and the amount; no
   * other key's wallet changes.
   */
  lemma PurchaseCredits(s: Store, actualUserId: string, role: string, tokens: int, amount: real,
                        sessionId: string, now: nat)
    requires WalletIdsOk(s.wallets, s.nextId)
    requires FindByStripeSessionId(s.ledger, sessionId).None?
    requires FindByUserId(s.wallets, WalletKey(actualUserId, role)).Some?
    ensures var r := ProcessPurchase(s, actualUserId, role, tokens, amount, sessionId, now);
      var k := WalletKey(actualUserId, role);
      var w := FindByUserId(s.wallets, k).value;
      && r.1.Ok?
      && r.1.value == Entry(Some(s.nextId), k, w.id, PURCHASE, Some(tokens), amount, Some(sessionId), COMPLETED,
                            None, now, Some(now))
      && r.0.ledger == s.ledger + [r.1.value]
      && FindByUserId(r.0.wallets, k) == Some(AddedToTotalSpent(AddedTokens(w, tokens, now), amount, now))
      && (tokens > 0 ==> TokenBalance(r.0, k) == TokenBalance(s, k) + tokens)
      && (amount > 0.0 ==> FindByUserId(r.0.wallets, k).value.totalSpent == w.totalSpent + amount)
    ensures var r := ProcessPurchase(s, actualUserId, role, tokens, amount, sessionId, now);
      forall k' :: k' != WalletKey(actualUserId, role) ==> FindByUserId(r.0.wallets, k') == FindByUserId(s.wallets, k')
    ensures var r := ProcessPurchase(s, actualUserId, role, tokens, amount, sessionId, now);
      WalletIdsOk(r.0.wallets, r.0.nextId) && r.0.nextId == s.nextId + 1
  {
    var k := WalletKey(actualUserId, role);
    var w := FindByUserId(s.wallets, k).value;
    var e := Completed(NewPurchase(k, w.id, tokens, amount, sessionId, now), now);
    SaveNewEntry(s, e);
    var s1 := SaveEntry(s, e).0;
    var credited := AddedToTotalSpent(AddedTokens(w, tokens, now), amount, now);
    SaveLoadedWallet(s1, k, credited);
  }

  /**
   * A successful useTokens debits exactly `tokens` from the key's stored
   * wallet, appends one USAGE entry for it and leaves every other key alone.
   */
  lemma UseTokensDebits(s: Store, userId: string, tokens: int, now: nat)
    requires WalletIdsOk(s.wallets, s.nextId)
    requires UseTokens(s, userId, tokens, now).1 == Ok(true)
    ensures var r := UseTokens(s, userId, tokens, now);
      var w := FindByUserId(s.wallets, userId).value;
      && TokenBalance(r.0, userId) == TokenBalance(s, userId) - tokens
      && TokenBalance(r.0, userId) >= 0
      && r.0.ledger == s.ledger + [NewUsage(userId, w.id, tokens, now).(id := Some(s.nextId))]
      && (forall k' :: k' != userId ==> FindByUserId(r.0.wallets, k') == FindByUserId(s.wallets, k'))
      && WalletIdsOk(r.0.wallets, r.0.nextId)
  {
    var w := FindByUserId(s.wallets, userId).value;
    var e := NewUsage(userId, w.id, tokens, now);
    SaveNewEntry(s, e);
    SaveLoadedWallet(SaveEntry(s, e).0, userId, UsedTokens(w, tokens, now));
  }

  /**
   * transferTokens moves `tokens` from the student's stored wallet to the
   * tutor's: the student's stored balance drops by `tokens`, the tutor's
   * (0 for a wallet created on the way) rises by `tokens`, so their sum is
   * unchanged; the reported balances are the stored ones; every other key is
   * untouched; the ledger gains one USAGE entry per side, tagged with the booking.
   */
  lemma TransferMovesTokens(s: Store, fromUserId: string, toUserId: string, tokens: int, bookingId: string,
                            now: nat)
    requires WalletIdsOk(s.wallets, s.nextId)
    requires TransferTokens(s, fromUserId, toUserId, tokens, bookingId, now).1.Ok?
    ensures var r := TransferTokens(s, fromUserId, toUserId, tokens, bookingId, now);
      var sk, tk := StudentKey(fromUserId), TutorKey(toUserId);
      && TokenBalance(r.0, sk) == TokenBalance(s, sk) - tokens
      && TokenBalance(r.0, tk) == TokenBalance(s, tk) + tokens
      && TokenBalance(r.0, sk) + TokenBalance(r.0, tk) == TokenBalance(s, sk) + TokenBalance(s, tk)
      && r.1.value == Transferred(TokenBalance(r.0, sk), TokenBalance(r.0, tk))
      && FindByUserId(r.0.wallets, sk).Some? && FindByUserId(r.0.wallets, tk).Some?
    ensures var r := TransferTokens(s, fromUserId, toUserId, tokens, bookingId, now);
      forall k' :: k' != StudentKey(fromUserId) && k' != TutorKey(toUserId) ==>
        FindByUserId(r.0.wallets, k') == FindByUserId(s.wallets, k')
    ensures var r := TransferTokens(s, fromUserId, toUserId, tokens, bookingId, now);
      WalletIdsOk(r.0.wallets, r.0.nextId)
  {
    var sk, tk := StudentKey(fromUserId), TutorKey(toUserId);
    StudentAndTutorKeysDiffer(fromUserId, toUserId);
    RoleKeys(toUserId);
    var sw := FindByUserId(s.wallets, sk).value;
    var tw := TutorWalletFor(s, toUserId, now);
    var sw', tw' := UsedTokens(sw, tokens, now), AddedTokens(tw, tokens, now);
    SaveTwoWallets(s, sk, sw', tk, tw');
    var s2 := SaveWallet(SaveWallet(s, sw').0, tw').0;
    SaveTwoEntries(s2, NewUsage(sk, sw.id, tokens, now).(bookingId := Some(bookingId)),
                   NewSettled(tk, tw.id, USAGE, tokens, Some(bookingId), now));
  }

  /**
   * A successful transfer appends exactly two entries to the ledger: a
   * COMPLETED USAGE entry for the student key and one for the tutor key, both
   * for `tokens`, tagged with the booking and stamped `now`.
   */
  lemma TransferRecordsUsage(s: Store, fromUserId: string, toUserId: string, tokens: int, bookingId: string,
                             now: nat)
    requires TransferTokens(s, fromUserId, toUserId, tokens, bookingId, now).1.Ok?
    ensures var r := TransferTokens(s, fromUserId, toUserId, tokens, bookingId, now);
      && |r.0.ledger| == |s.ledger| + 2 && r.0.ledger[..|s.ledger|] == s.ledger
      && var se, te := r.0.ledger[|s.ledger|], r.0.ledger[|s.ledger| + 1];
      && se.userId == StudentKey(fromUserId) && te.userId == TutorKey(toUserId)
      && se.kind == USAGE && te.kind == USAGE && se.status == COMPLETED && te.status == COMPLETED
      && se.tokensAmount == Some(tokens) && te.tokensAmount == Some(tokens)
      && se.bookingId == Some(bookingId) && te.bookingId == Some(bookingId)
      && se.createdAt == now && te.createdAt == now
  {
    var sk, tk := StudentKey(fromUserId), TutorKey(toUserId);
    var sw := FindByUserId(s.wallets, sk).value;
    var tw := TutorWalletFor(s, toUserId, now);
    var s2 := SaveWallet(SaveWallet(s, UsedTokens(sw, tokens, now)).0, AddedTokens(tw, tokens, now)).0;
    SaveTwoEntries(s2, NewUsage(sk, sw.id, tokens, now).(bookingId := Some(bookingId)),
                   NewSettled(tk, tw.id, USAGE, tokens, Some(bookingId), now));
  }

  /**
   * refundTokens as written: the student's stored balance rises by `tokens`
   * but the tutor's stored balance does not move, so the tokens are created
   * rather than returned, and the tutor balance the call reports is not the
   * stored one. The ledger still gains a REFUND and a USAGE entry.
   */
  lemma RefundLeavesTutorStored(s: Store, studentUserId: string, tutorUserId: string, tokens: int, now: nat)
    requires WalletIdsOk(s.wallets, s.nextId)
    requires RefundTokens(s, studentUserId, tutorUserId, tokens, now).1.Ok?
    ensures var r := RefundTokens(s, studentUserId, tutorUserId, tokens, now);
      var sk, tk := StudentKey(studentUserId), TutorKey(tutorUserId);
      && TokenBalance(r.0, sk) == TokenBalance(s, sk) + tokens
      && TokenBalance(r.0, tk) == TokenBalance(s, tk)
      && TokenBalance(r.0, sk) + TokenBalance(r.0, tk) == TokenBalance(s, sk) + TokenBalance(s, tk) + tokens
      && r.1.value.tutorBalance == TokenBalance(r.0, tk) - tokens
      && r.1.value.studentBalance == TokenBalance(r.0, sk)
    ensures var r := RefundTokens(s, studentUserId, tutorUserId, tokens, now);
      && |r.0.ledger| == |s.ledger| + 2 && r.0.ledger[..|s.ledger|] == s.ledger
      && r.0.ledger[|s.ledger|].kind == REFUND && r.0.ledger[|s.ledger|].userId == StudentKey(studentUserId)
      && r.0.ledger[|s.ledger| + 1].kind == USAGE && r.0.ledger[|s.ledger| + 1].userId == TutorKey(tutorUserId)
    ensures var r := RefundTokens(s, studentUserId, tutorUserId, tokens, now);
      WalletIdsOk(r.0.wallets, r.0.nextId)
  {
    var sk, tk := StudentKey(studentUserId), TutorKey(tutorUserId);
    StudentAndTutorKeysDiffer(studentUserId, tutorUserId);
    var sw, tw := FindByUserId(s.wallets, sk).value, FindByUserId(s.wallets, tk).value;
    var sw' := AddedTokens(sw, tokens, now);
    var e1, e2 := NewSettled(sk, sw.id, REFUND, tokens, None, now), NewSettled(tk, tw.id, USAGE, tokens, None, now);
    var r := RefundTokens(s, studentUserId, tutorUserId, tokens, now);
    assert r.0 == SaveEntry(SaveEntry(SaveWallet(s, sw').0, e1).0, e2).0;
    assert r.1.value == Refunded(tokens, sw'.tokenBalance, UsedTokens(tw, tokens, now).tokenBalance);
    SaveLoadedWallet(s, sk, sw');
    SaveTwoEntries(SaveWallet(s, sw').0, e1, e2);
  }

  /**
   * refundTokens storing both wallets: tokens move from the tutor's stored
   * wallet to the student's, their sum is unchanged, and the reported
   * balances are the stored ones.
   */
  lemma RefundPersistedMovesTokens(s: Store, studentUserId: string, tutorUserId: string, tokens: int, now: nat)
    requires WalletIdsOk(s.wallets, s.nextId)
    requires RefundPersisted(s, studentUserId, tutorUserId, tokens, now).1.Ok?
    ensures var r := RefundPersisted(s, studentUserId, tutorUserId, tokens, now);
      var sk, tk := StudentKey(studentUserId), TutorKey(tutorUserId);
      && TokenBalance(r.0, sk) == TokenBalance(s, sk) + tokens
      && TokenBalance(r.0, tk) == TokenBalance(s, tk) - tokens
      && TokenBalance(r.0, sk) + TokenBalance(r.0, tk) == TokenBalance(s, sk) + TokenBalance(s, tk)
      && r.1.value == Refunded(tokens, TokenBalance(r.0, sk), TokenBalance(r.0, tk))
    ensures var r := RefundPersisted(s, studentUserId, tutorUserId, tokens, now);
      forall k' :: k' != StudentKey(studentUserId) && k' != TutorKey(tutorUserId) ==>
        FindByUserId(r.0.wallets, k') == FindByUserId(s.wallets, k')
    ensures var r := RefundPersisted(s, studentUserId, tutorUserId, tokens, now);
      && |r.0.ledger| == |s.ledger| + 2 && r.0.ledger[..|s.ledger|] == s.ledger
      && WalletIdsOk(r.0.wallets, r.0.nextId)
  {
    var sk, tk := StudentKey(studentUserId), TutorKey(tutorUserId);
    StudentAndTutorKeysDiffer(studentUserId, tutorUserId);
    var sw, tw := FindByUserId(s.wallets, sk).value, FindByUserId(s.wallets, tk).value;
    var tw', sw' := UsedTokens(tw, tokens, now), AddedTokens(sw, tokens, now);
    SaveTwoWallets(s, sk, sw', tk, tw');
    var s2 := SaveWallet(SaveWallet(s, sw').0, tw').0;
    SaveTwoEntries(s2, NewSettled(sk, sw.id, REFUND, tokens, None, now),
                   NewSettled(tk, tw.id, USAGE, tokens, None, now));
  }

  /**
   * refundTokensByBooking as written: no wallet is stored at all, and only
   * the student's REFUND entry reaches the ledger, so both stored balances
   * stay where they were while the call reports them moved.
   */
  lemma RefundByBookingStoresNoWallet(s: Store, studentUserId: string, tutorUserId: string, bookingId: string,
                                      now: nat)
    requires RefundTokensByBooking(s, studentUserId, tutorUserId, bookingId, now).1.Ok?
    ensures var r := RefundTokensByBooking(s, studentUserId, tutorUserId, bookingId, now);
      var sk, tk := StudentKey(studentUserId), TutorKey(tutorUserId);
      var n := r.1.value.tokensRefunded;
      && n > 0
      && r.0.wallets == s.wallets
      && r.1.value.studentBalance == TokenBalance(r.0, sk) + n
      && r.1.value.tutorBalance == TokenBalance(r.0, tk) - n
      && r.0.ledger == s.ledger + [NewSettled(sk, FindByUserId(s.wallets, sk).value.id, REFUND, n, Some(bookingId), now)
                                     .(id := Some(s.nextId))]
  {
    var sk := StudentKey(studentUserId);
    var sw := FindByUserId(s.wallets, sk).value;
    var n := RefundTokensByBooking(s, studentUserId, tutorUserId, bookingId, now).1.value.tokensRefunded;
    SaveNewEntry(s, NewSettled(sk, sw.id, REFUND, n, Some(bookingId), now));
  }

  /** refundTokensByBooking storing both sides: the booking's usage tokens move back from the tutor to the student. */
  lemma RefundByBookingPersistedMovesTokens(s: Store, studentUserId: string, tutorUserId: string, bookingId: string,
                                            now: nat)
    requires WalletIdsOk(s.wallets, s.nextId)
    requires RefundByBookingPersisted(s, studentUserId, tutorUserId, bookingId, now).1.Ok?
    ensures var r := RefundByBookingPersisted(s, studentUserId, tutorUserId, bookingId, now);
      var sk, tk := StudentKey(studentUserId), TutorKey(tutorUserId);
      var n := r.1.value.tokensRefunded;
      && TokenBalance(r.0, sk) == TokenBalance(s, sk) + n
      && TokenBalance(r.0, tk) == TokenBalance(s, tk) - n
      && r.1.value.studentBalance == TokenBalance(r.0, sk)
      && r.1.value.tutorBalance == TokenBalance(r.0, tk)
    ensures var r := RefundByBookingPersisted(s, studentUserId, tutorUserId, bookingId, now);
      forall k' :: k' != StudentKey(studentUserId) && k' != TutorKey(tutorUserId) ==>
        FindByUserId(r.0.wallets, k') == FindByUserId(s.wallets, k')
    ensures var r := RefundByBookingPersisted(s, studentUserId, tutorUserId, bookingId, now);
      && |r.0.ledger| == |s.ledger| + 2 && r.0.ledger[..|s.ledger|] == s.ledger
      && WalletIdsOk(r.0.wallets, r.0.nextId)
  {
    var sk, tk := StudentKey(studentUserId), TutorKey(tutorUserId);
    StudentAndTutorKeysDiffer(studentUserId, tutorUserId);
    var sw, tw := FindByUserId(s.wallets, sk).value, FindByUserId(s.wallets, tk).value;
    var n := RefundByBookingPersisted(s, studentUserId, tutorUserId, bookingId, now).1.value.tokensRefunded;
    var tw', sw' := UsedTokens(tw, n, now), AddedTokens(sw, n, now);
    SaveTwoWallets(s, sk, sw', tk, tw');
    var s2 := SaveWallet(SaveWallet(s, sw').0, tw').0;
    SaveTwoEntries(s2, NewSettled(sk, sw.id, REFUND, n, Some(bookingId), now),
                   NewSettled(tk, tw.id, USAGE, n, Some(bookingId), now));
  }

  /** After a transfer, the tutor's stored wallet can pay the same amount back. */
  lemma TransferLeavesTutorAbleToRepay(s: Store, fromUserId: string, toUserId: string, tokens: int,
                                       bookingId: string, now: nat)
    requires WalletIdsOk(s.wallets, s.nextId) && NonNegative(s.wallets)
    requires TransferTokens(s, fromUserId, toUserId, tokens, bookingId, now).1.Ok?
    ensures var s1 := TransferTokens(s, fromUserId, toUserId, tokens, bookingId, now).0;
      && FindByUserId(s1.wallets, StudentKey(fromUserId)).Some?
      && FindByUserId(s1.wallets, TutorKey(toUserId)).Some?
      && CanUse(FindByUserId(s1.wallets, TutorKey(toUserId)).value, tokens)
  {
    TransferMovesTokens(s, fromUserId, toUserId, tokens, bookingId, now);
    if FindByUserId(s.wallets, TutorKey(toUserId)).Some? {
      FoundBalanceNonNegative(s.wallets, TutorKey(toUserId));
    }
  }

  /**
   * A transfer followed by a refund of the same amount that stores both
   * wallets gives both stored balances back.
   */
  lemma TransferThenRefundRestores(s: Store, fromUserId: string, toUserId: string, tokens: int, bookingId: string,
                                   now: nat, now2: nat)
    requires WalletIdsOk(s.wallets, s.nextId) && NonNegative(s.wallets)
    requires TransferTokens(s, fromUserId, toUserId, tokens, bookingId, now).1.Ok?
    ensures var s1 := TransferTokens(s, fromUserId, toUserId, tokens, bookingId, now).0;
      var r := RefundPersisted(s1, fromUserId, toUserId, tokens, now2);
      && r.1.Ok?
      && TokenBalance(r.0, StudentKey(fromUserId)) == TokenBalance(s, StudentKey(fromUserId))
      && TokenBalance(r.0, TutorKey(toUserId)) == TokenBalance(s, TutorKey(toUserId))
  {
    var sk, tk := StudentKey(fromUserId), TutorKey(toUserId);
    TransferMovesTokens(s, fromUserId, toUserId, tokens, bookingId, now);
    TransferLeavesTutorAbleToRepay(s, fromUserId, toUserId, tokens, bookingId, now);
    var s1 := TransferTokens(s, fromUserId, toUserId, tokens, bookingId, now).0;
    assert WalletIdsOk(s1.wallets, s1.nextId);
    assert TokenBalance(s1, sk) == TokenBalance(s, sk) - tokens && TokenBalance(s1, tk) == TokenBalance(s, tk) + tokens;
    var r := RefundPersisted(s1, fromUserId, toUserId, tokens, now2);
    assert r.1.Ok?;
    RefundPersistedMovesTokens(s1, fromUserId, toUserId, tokens, now2);
  }

  /**
   * The same sequence with refundTokens as written: the student gets the
   * tokens back but the tutor keeps them, so the pair ends `tokens` richer.
   */
  lemma TransferThenRefundAsWritten(s: Store, fromUserId: string, toUserId: string, tokens: int, bookingId: string,
                                    now: nat, now2: nat)
    requires WalletIdsOk(s.wallets, s.nextId) && NonNegative(s.wallets)
    requires TransferTokens(s, fromUserId, toUserId, tokens, bookingId, now).1.Ok?
    ensures var s1 := TransferTokens(s, fromUserId, toUserId, tokens, bookingId, now).0;
      var r := RefundTokens(s1, fromUserId, toUserId, tokens, now2);
      && r.1.Ok? && tokens > 0
      && TokenBalance(r.0, StudentKey(fromUserId)) == TokenBalance(s, StudentKey(fromUserId))
      && TokenBalance(r.0, TutorKey(toUserId)) == TokenBalance(s, TutorKey(toUserId)) + tokens
  {
    TransferMovesTokens(s, fromUserId, toUserId, tokens, bookingId, now);
    TransferLeavesTutorAbleToRepay(s, fromUserId, toUserId, tokens, bookingId, now);
    var s1 := TransferTokens(s, fromUserId, toUserId, tokens, bookingId, now).0;
    RefundLeavesTutorStored(s1, fromUserId, toUserId, tokens, now2);
  }

  /** Appending a matching entry (and any other) to a ledger without a match makes it the first match. */
  lemma FirstMatchAfterAppend(l: seq<Entry>, a: Entry, c: Entry, b: string, u: string)
    requires FindFirstByBookingIdAndUserIdAndType(l, b, u, USAGE).None?
    requires a.bookingId == Some(b) && a.userId == u && a.kind == USAGE
    ensures FindFirstByBookingIdAndUserIdAndType(l + [a, c], b, u, USAGE) == Some(a)
  {
    var p := OfBookingUserType(b, u, USAGE);
    FindFirstAppend(l, a, p);
    FindFirstAppend(l + [a], c, p);
    assert l + [a, c] == (l + [a]) + [c];
  }

  /** The usage entry a transfer records is the one a later booking refund finds, if the booking had none before. */
  lemma TransferUsageIsFound(s: Store, fromUserId: string, toUserId: string, tokens: int, bookingId: string,
                             now: nat)
    requires WalletIdsOk(s.wallets, s.nextId)
    requires TransferTokens(s, fromUserId, toUserId, tokens, bookingId, now).1.Ok?
    requires FindFirstByBookingIdAndUserIdAndType(s.ledger, bookingId, StudentKey(fromUserId), USAGE).None?
    ensures var s1 := TransferTokens(s, fromUserId, toUserId, tokens, bookingId, now).0;
      var usage := FindFirstByBookingIdAndUserIdAndType(s1.ledger, bookingId, StudentKey(fromUserId), USAGE);
      usage.Some? && UsageTokens(usage.value) == tokens
  {
    TransferRecordsUsage(s, fromUserId, toUserId, tokens, bookingId, now);
    var s1 := TransferTokens(s, fromUserId, toUserId, tokens, bookingId, now).0;
    var n := |s.ledger|;
    assert s1.ledger == s.ledger + [s1.ledger[n], s1.ledger[n + 1]] by {
      assert s1.ledger == s1.ledger[..n] + [s1.ledger[n], s1.ledger[n + 1]];
    }
    FirstMatchAfterAppend(s.ledger, s1.ledger[n], s1.ledger[n + 1], bookingId, StudentKey(fromUserId));
  }

  /**
   * A transfer followed by a booking refund that stores both sides returns
   * exactly the transferred tokens and gives both stored balances back.
   */
  lemma TransferThenRefundByBookingRestores(s: Store, fromUserId: string, toUserId: string, tokens: int,
                                            bookingId: string, now: nat, now2: nat)
    requires WalletIdsOk(s.wallets, s.nextId) && NonNegative(s.wallets)
    requires TransferTokens(s, fromUserId, toUserId, tokens, bookingId, now).1.Ok?
    requires FindFirstByBookingIdAndUserIdAndType(s.ledger, bookingId, StudentKey(fromUserId), USAGE).None?
    ensures var s1 := TransferTokens(s, fromUserId, toUserId, tokens, bookingId, now).0;
      var r := RefundByBookingPersisted(s1, fromUserId, toUserId, bookingId, now2);
      && r.1.Ok? && r.1.value.tokensRefunded == tokens
      && TokenBalance(r.0, StudentKey(fromUserId)) == TokenBalance(s, StudentKey(fromUserId))
      && TokenBalance(r.0, TutorKey(toUserId)) == TokenBalance(s, TutorKey(toUserId))
  {
    TransferMovesTokens(s, fromUserId, toUserId, tokens, bookingId, now);
    TransferLeavesTutorAbleToRepay(s, fromUserId, toUserId, tokens, bookingId, now);
    TransferUsageIsFound(s, fromUserId, toUserId, tokens, bookingId, now);
    var s1 := TransferTokens(s, fromUserId, toUserId, tokens, bookingId, now).0;
    RefundByBookingOfFoundUsage(s1, fromUserId, toUserId, bookingId, tokens, now2);
  }

  /** A booking refund whose usage entry carries `tokens` the tutor can pay moves exactly those tokens back. */
  lemma RefundByBookingOfFoundUsage(s: Store, studentUserId: string, tutorUserId: string, bookingId: string,
                                    tokens: int, now: nat)
    requires WalletIdsOk(s.wallets, s.nextId)
    requires FindByUserId(s.wallets, StudentKey(studentUserId)).Some?
    requires FindByUserId(s.wallets, TutorKey(tutorUserId)).Some?
    requires CanUse(FindByUserId(s.wallets, TutorKey(tutorUserId)).value, tokens)
    requires var usage := FindFirstByBookingIdAndUserIdAndType(s.ledger, bookingId, StudentKey(studentUserId), USAGE);
      usage.Some? && UsageTokens(usage.value) == tokens
    ensures var r := RefundByBookingPersisted(s, studentUserId, tutorUserId, bookingId, now);
      && r.1.Ok? && r.1.value.tokensRefunded == tokens
      && TokenBalance(r.0, StudentKey(studentUserId)) == TokenBalance(s, StudentKey(studentUserId)) + tokens
      && TokenBalance(r.0, TutorKey(tutorUserId)) == TokenBalance(s, TutorKey(tutorUserId)) - tokens
  {
    RefundByBookingPersistedMovesTokens(s, studentUserId, tutorUserId, bookingId, now);
  }

  /**
   * The same sequence with refundTokensByBooking as written: the call
   * succeeds and logs a REFUND, yet the student stays `tokens` poorer and
   * the tutor `tokens` richer in the store.
   */
  lemma TransferThenRefundByBookingAsWritten(s: Store, fromUserId: string, toUserId: string, tokens: int,
                                             bookingId: string, now: nat, now2: nat)
    requires WalletIdsOk(s.wallets, s.nextId) && NonNegative(s.wallets)
    requires TransferTokens(s, fromUserId, toUserId, tokens, bookingId, now).1.Ok?
    requires FindFirstByBookingIdAndUserIdAndType(s.ledger, bookingId, StudentKey(fromUserId), USAGE).None?
    ensures var s1 := TransferTokens(s, fromUserId, toUserId, tokens, bookingId, now).0;
      var r := RefundTokensByBooking(s1, fromUserId, toUserId, bookingId, now2);
      && r.1.Ok? && r.1.value.tokensRefunded == tokens && tokens > 0
      && TokenBalance(r.0, StudentKey(fromUserId)) == TokenBalance(s, StudentKey(fromUserId)) - tokens
      && TokenBalance(r.0, TutorKey(toUserId)) == TokenBalance(s, TutorKey(toUserId)) + tokens
  {
    TransferMovesTokens(s, fromUserId, toUserId, tokens, bookingId, now);
    TransferLeavesTutorAbleToRepay(s, fromUserId, toUserId, tokens, bookingId, now);
    TransferUsageIsFound(s, fromUserId, toUserId, tokens, bookingId, now);
    var s1 := TransferTokens(s, fromUserId, toUserId, tokens, bookingId, now).0;
    RefundByBookingStoresNoWallet(s1, fromUserId, toUserId, bookingId, now2);
  }

  /** getOrCreateWallet keeps the store invariant. */
  lemma GetOrCreateKeepsConsistent(s: Store, clock: nat, actualUserId: string, role: string, email: string, now: nat)
    requires Consistent(s, clock) && clock <= now
    ensures Consistent(GetOrCreateWallet(s, actualUserId, role, email, now).0, now)
  {
    GetOrCreateLeavesOne(s, actualUserId, role, email, now);
    var k := WalletKey(actualUserId, role);
    var all := FindAllByUserId(s.wallets, k);
    var r := GetOrCreateWallet(s, actualUserId, role, email, now);
    if all == [] {
      SaveWalletKeepsNonNegative(s, NewWallet(actualUserId, role, email, now));
    } else if |all| > 1 {
      assert forall d :: d in all[1..] ==> d in all;
      DeleteWalletsRemovesIds(s, all[1..]);
      FilterKeepsNonNegative(s.wallets, WalletIdNotIn(IdsOf(all[1..])));
    }
    AppendedAtNowKeepsLedgerOk(s.ledger, s.nextId, clock, r.0.ledger, r.0.nextId, now);
  }

  /** processPurchase keeps the store invariant. */
  lemma PurchaseKeepsConsistent(s: Store, clock: nat, actualUserId: string, role: string, tokens: int,
                                amount: real, sessionId: string, now: nat)
    requires Consistent(s, clock) && clock <= now
    ensures Consistent(ProcessPurchase(s, actualUserId, role, tokens, amount, sessionId, now).0, now)
  {
    var k := WalletKey(actualUserId, role);
    var r := ProcessPurchase(s, actualUserId, role, tokens, amount, sessionId, now);
    if FindByStripeSessionId(s.ledger, sessionId).None? && FindByUserId(s.wallets, k).Some? {
      PurchaseCredits(s, actualUserId, role, tokens, amount, sessionId, now);
      var w := FindByUserId(s.wallets, k).value;
      FoundBalanceNonNegative(s.wallets, k);
      var e := Completed(NewPurchase(k, w.id, tokens, amount, sessionId, now), now);
      SaveWalletKeepsNonNegative(SaveEntry(s, e).0, AddedToTotalSpent(AddedTokens(w, tokens, now), amount, now));
    }
    AppendedAtNowKeepsLedgerOk(s.ledger, s.nextId, clock, r.0.ledger, r.0.nextId, now);
  }

  /** useTokens keeps the store invariant. */
  lemma UseTokensKeepsConsistent(s: Store, clock: nat, userId: string, tokens: int, now: nat)
    requires Consistent(s, clock) && clock <= now
    ensures Consistent(UseTokens(s, userId, tokens, now).0, now)
  {
    var r := UseTokens(s, userId, tokens, now);
    if r.1 == Ok(true) {
      UseTokensDebits(s, userId, tokens, now);
      var w := FindByUserId(s.wallets, userId).value;
      SaveNewEntry(s, NewUsage(userId, w.id, tokens, now));
      SaveWalletKeepsNonNegative(SaveEntry(s, NewUsage(userId, w.id, tokens, now)).0, UsedTokens(w, tokens, now));
    }
    AppendedAtNowKeepsLedgerOk(s.ledger, s.nextId, clock, r.0.ledger, r.0.nextId, now);
  }

  /** transferTokens keeps the store invariant. */
  lemma TransferKeepsConsistent(s: Store, clock: nat, fromUserId: string, toUserId: string, tokens: int,
                                bookingId: string, now: nat)
    requires Consistent(s, clock) && clock <= now
    ensures Consistent(TransferTokens(s, fromUserId, toUserId, tokens, bookingId, now).0, now)
  {
    var r := TransferTokens(s, fromUserId, toUserId, tokens, bookingId, now);
    if r.1.Ok? {
      var sk, tk := StudentKey(fromUserId), TutorKey(toUserId);
      StudentAndTutorKeysDiffer(fromUserId, toUserId);
      RoleKeys(toUserId);
      var sw := FindByUserId(s.wallets, sk).value;
      var tw := TutorWalletFor(s, toUserId, now);
      FoundBalanceNonNegative(s.wallets, sk);
      if FindByUserId(s.wallets, tk).Some? {
        FoundBalanceNonNegative(s.wallets, tk);
      }
      TwoWalletsTwoEntriesConsistent(s, clock, sk, UsedTokens(sw, tokens, now), tk, AddedTokens(tw, tokens, now),
                                     NewUsage(sk, sw.id, tokens, now).(bookingId := Some(bookingId)),
                                     NewSettled(tk, tw.id, USAGE, tokens, Some(bookingId), now), now);
    } else {
      ConsistentLater(s, clock, now);
    }
  }

  /** refundTokens (as written) keeps the store invariant. */
  lemma RefundKeepsConsistent(s: Store, clock: nat, studentUserId: string, tutorUserId: string, tokens: int,
                              now: nat)
    requires Consistent(s, clock) && clock <= now
    ensures Consistent(RefundTokens(s, studentUserId, tutorUserId, tokens, now).0, now)
  {
    var r := RefundTokens(s, studentUserId, tutorUserId, tokens, now);
    if r.1.Ok? {
      var sk, tk := StudentKey(studentUserId), TutorKey(tutorUserId);
      var sw, tw := FindByUserId(s.wallets, sk).value, FindByUserId(s.wallets, tk).value;
      FoundBalanceNonNegative(s.wallets, sk);
      OneWalletTwoEntriesConsistent(s, clock, sk, AddedTokens(sw, tokens, now),
                                    NewSettled(sk, sw.id, REFUND, tokens, None, now),
                                    NewSettled(tk, tw.id, USAGE, tokens, None, now), now);
    } else {
      ConsistentLater(s, clock, now);
    }
  }

  /** refundTokensByBooking (as written) keeps the store invariant. */
  lemma RefundByBookingKeepsConsistent(s: Store, clock: nat, studentUserId: string, tutorUserId: string,
                                       bookingId: string, now: nat)
    requires Consistent(s, clock) && clock <= now
    ensures Consistent(RefundTokensByBooking(s, studentUserId, tutorUserId, bookingId, now).0, now)
  {
    var r := RefundTokensByBooking(s, studentUserId, tutorUserId, bookingId, now);
    if r.1.Ok? {
      RefundByBookingStoresNoWallet(s, studentUserId, tutorUserId, bookingId, now);
    }
    AppendedAtNowKeepsLedgerOk(s.ledger, s.nextId, clock, r.0.ledger, r.0.nextId, now);
  }

  /**
   * getOrCreateWallet keeps the unique index on userId: it inserts only under
   * a key that has no wallet, so the index never rejects the insert.
   */
  lemma GetOrCreateKeepsUniqueKeys(s: Store, actualUserId: string, role: string, email: string, now: nat)
    requires WalletIdsOk(s.wallets, s.nextId) && UniqueKeys(s.wallets)
    ensures UniqueKeys(GetOrCreateWallet(s, actualUserId, role, email, now).0.wallets)
  {
    var k := WalletKey(actualUserId, role);
    var all := FindAllByUserId(s.wallets, k);
    if all == [] {
      SaveUnderKeepsUniqueKeys(s, k, NewWallet(actualUserId, role, email, now));
    } else if |all| > 1 {
      assert forall d :: d in all[1..] ==> d in all;
      DeleteWalletsRemovesIds(s, all[1..]);
      FilterKeepsUniqueKeys(s.wallets, WalletIdNotIn(IdsOf(all[1..])));
    }
  }

  /** processPurchase keeps the unique index on userId. */
  lemma PurchaseKeepsUniqueKeys(s: Store, actualUserId: string, role: string, tokens: int, amount: real,
                                sessionId: string, now: nat)
    requires WalletIdsOk(s.wallets, s.nextId) && UniqueKeys(s.wallets)
    ensures UniqueKeys(ProcessPurchase(s, actualUserId, role, tokens, amount, sessionId, now).0.wallets)
  {
    var k := WalletKey(actualUserId, role);
    if FindByStripeSessionId(s.ledger, sessionId).None? && FindByUserId(s.wallets, k).Some? {
      var w := FindByUserId(s.wallets, k).value;
      var saved := SaveEntry(s, Completed(NewPurchase(k, w.id, tokens, amount, sessionId, now), now)).0;
      WalletIdsOkGrows(s.wallets, s.nextId, saved.nextId);
      SaveUnderKeepsUniqueKeys(saved, k, AddedToTotalSpent(AddedTokens(w, tokens, now), amount, now));
    }
  }

  /** useTokens keeps the unique index on userId. */
  lemma UseTokensKeepsUniqueKeys(s: Store, userId: string, tokens: int, now: nat)
    requires WalletIdsOk(s.wallets, s.nextId) && UniqueKeys(s.wallets)
    ensures UniqueKeys(UseTokens(s, userId, tokens, now).0.wallets)
  {
    if FindByUserId(s.wallets, userId).Some? && CanUse(FindByUserId(s.wallets, userId).value, tokens) {
      var w := FindByUserId(s.wallets, userId).value;
      var saved := SaveEntry(s, NewUsage(userId, w.id, tokens, now)).0;
      WalletIdsOkGrows(s.wallets, s.nextId, saved.nextId);
      SaveUnderKeepsUniqueKeys(saved, userId, UsedTokens(w, tokens, now));
    }
  }

  /** transferTokens keeps the unique index on userId, also when it creates the tutor wallet. */
  lemma TransferKeepsUniqueKeys(s: Store, fromUserId: string, toUserId: string, tokens: int, bookingId: string,
                                now: nat)
    requires WalletIdsOk(s.wallets, s.nextId) && UniqueKeys(s.wallets)
    ensures UniqueKeys(TransferTokens(s, fromUserId, toUserId, tokens, bookingId, now).0.wallets)
  {
    var r := TransferTokens(s, fromUserId, toUserId, tokens, bookingId, now);
    if r.1.Ok? {
      var sk, tk := StudentKey(fromUserId), TutorKey(toUserId);
      StudentAndTutorKeysDiffer(fromUserId, toUserId);
      RoleKeys(toUserId);
      var sw := FindByUserId(s.wallets, sk).value;
      var tw := TutorWalletFor(s, toUserId, now);
      SaveTwoKeepsUniqueKeys(s, sk, UsedTokens(sw, tokens, now), tk, AddedTokens(tw, tokens, now));
    }
  }

  /** refundTokens as written keeps the unique index on userId. */
  lemma RefundKeepsUniqueKeys(s: Store, studentUserId: string, tutorUserId: string, tokens: int, now: nat)
    requires WalletIdsOk(s.wallets, s.nextId) && UniqueKeys(s.wallets)
    ensures UniqueKeys(RefundTokens(s, studentUserId, tutorUserId, tokens, now).0.wallets)
  {
    var r := RefundTokens(s, studentUserId, tutorUserId, tokens, now);
    if r.1.Ok? {
      var sk := StudentKey(studentUserId);
      var sw := FindByUserId(s.wallets, sk).value;
      SaveUnderKeepsUniqueKeys(s, sk, AddedTokens(sw, tokens, now));
    }
  }

  /** refundTokens storing both wallets keeps the unique index on userId. */
  lemma RefundPersistedKeepsUniqueKeys(s: Store, studentUserId: string, tutorUserId: string, tokens: int, now: nat)
    requires WalletIdsOk(s.wallets, s.nextId) && UniqueKeys(s.wallets)
    ensures UniqueKeys(RefundPersisted(s, studentUserId, tutorUserId, tokens, now).0.wallets)
  {
    var r := RefundPersisted(s, studentUserId, tutorUserId, tokens, now);
    if r.1.Ok? {
      var sk, tk := StudentKey(studentUserId), TutorKey(tutorUserId);
      StudentAndTutorKeysDiffer(studentUserId, tutorUserId);
      var sw, tw := FindByUserId(s.wallets, sk).value, FindByUserId(s.wallets, tk).value;
      SaveTwoKeepsUniqueKeys(s, sk, AddedTokens(sw, tokens, now), tk, UsedTokens(tw, tokens, now));
    }
  }

  /** refundTokensByBooking as written stores no wallet, so the unique index on userId is kept. */
  lemma RefundByBookingKeepsUniqueKeys(s: Store, studentUserId: string, tutorUserId: string, bookingId: string,
                                       now: nat)
    requires UniqueKeys(s.wallets)
    ensures UniqueKeys(RefundTokensByBooking(s, studentUserId, tutorUserId, bookingId, now).0.wallets)
  {
  }

  /** refundTokensByBooking storing both wallets keeps the unique index on userId. */
  lemma RefundByBookingPersistedKeepsUniqueKeys(s: Store, studentUserId: string, tutorUserId: string,
                                                bookingId: string, now: nat)
    requires WalletIdsOk(s.wallets, s.nextId) && UniqueKeys(s.wallets)
    ensures UniqueKeys(RefundByBookingPersisted(s, studentUserId, tutorUserId, bookingId, now).0.wallets)
  {
    var r := RefundByBookingPersisted(s, studentUserId, tutorUserId, bookingId, now);
    if r.1.Ok? {
      var sk, tk := StudentKey(studentUserId), TutorKey(tutorUserId);
      StudentAndTutorKeysDiffer(studentUserId, tutorUserId);
      var sw, tw := FindByUserId(s.wallets, sk).value, FindByUserId(s.wallets, tk).value;
      var tokens := UsageTokens(FindFirstByBookingIdAndUserIdAndType(s.ledger, bookingId, sk, USAGE).value);
      SaveTwoKeepsUniqueKeys(s, sk, AddedTokens(sw, tokens, now), tk, UsedTokens(tw, tokens, now));
    }
  }
}
