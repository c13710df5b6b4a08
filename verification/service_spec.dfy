/**
 * What each operation of service/WalletService.java does to the persisted
 * state, as a function of the state before the call and the clock reading
 * `now` that every timestamp of the call carries.
 *
 * Each function returns the new state and the caller's answer. A Java
 * exception becomes `Err`, and is raised in the code before any write, so a
 * failing call leaves the state as it was. The two refund operations are
 * stated as the code writes them (the tutor side is not stored, see
 * `Findings`); `RefundPersisted` and `RefundByBookingPersisted` are the
 * versions that store both sides.
 */
module ServiceSpec {
  import opened Wrappers
  import opened Sequences
  import opened Wallets
  import opened Transactions
  import opened WalletRepository
  import opened TransactionRepository
  import opened Persistence

  /** The failures the service reports: a missing wallet, a refused amount, a missing usage entry. */
  datatype Error =
    | WalletNotFound(key: string)
    | InsufficientTokens
    | UsageNotFound(bookingId: string)

  /** The balances a transfer reports. */
  datatype Transferred = Transferred(studentBalance: int, tutorBalance: int)

  /** What a refund reports: the tokens moved and the balances of the two wallet objects. */
  datatype Refunded = Refunded(tokensRefunded: int, studentBalance: int, tutorBalance: int)

  function StudentKey(u: string): string {
    u + StudentSuffix
  }

  function TutorKey(u: string): string {
    u + TutorSuffix
  }

  /** getTokenBalance: the stored balance under a key, 0 when there is no wallet. */
  function TokenBalance(s: Store, k: string): (b: int)
    ensures FindByUserId(s.wallets, k).Some? ==> b == FindByUserId(s.wallets, k).value.tokenBalance
    ensures FindByUserId(s.wallets, k).None? ==> b == 0
  {
    match FindByUserId(s.wallets, k)
    case Some(w) => w.tokenBalance
    case None => 0
  }

  /** hasEnoughTokens: a wallet exists under the key and holds at least `required`. */
  function HasEnoughTokens(s: Store, k: string, required: int): (b: bool)
    ensures b <==> FindByUserId(s.wallets, k).Some? && TokenBalance(s, k) >= required
  {
    match FindByUserId(s.wallets, k)
    case Some(w) => w.tokenBalance >= required
    case None => false
  }

  /**
   * getOrCreateWallet: the first wallet stored under the role key, after
   * deleting any later duplicates; a new empty wallet when there is none.
   */
  function GetOrCreateWallet(s: Store, actualUserId: string, role: string, email: string, now: nat)
    : (r: (Store, WalletRecord))
    ensures r.0.ledger == s.ledger
    ensures r.1.userId == WalletKey(actualUserId, role)
    ensures var all := FindAllByUserId(s.wallets, WalletKey(actualUserId, role));
      all != [] ==> r.1 == all[0]
  {
    var k := WalletKey(actualUserId, role);
    var all := FindAllByUserId(s.wallets, k);
    if all == [] then
      SaveWallet(s, NewWallet(actualUserId, role, email, now))
    else if |all| > 1 then
      (DeleteWallets(s, all[1..]), all[0])
    else
      (s, all[0])
  }

  /**
   * processPurchase: a session already in the ledger is answered with its
   * entry and nothing is written; otherwise a completed PURCHASE entry is
   * stored and the wallet credited with the tokens and the amount paid.
   */
  function ProcessPurchase(s: Store, actualUserId: string, role: string, tokens: int, amount: real,
                           sessionId: string, now: nat): (r: (Store, Result<Entry, Error>))
    ensures r.1.Err? ==> r.0 == s
    ensures r.1.Err? <==>
      FindByStripeSessionId(s.ledger, sessionId).None? && FindByUserId(s.wallets, WalletKey(actualUserId, role)).None?
    ensures FindByStripeSessionId(s.ledger, sessionId).Some? ==>
      r == (s, Ok(FindByStripeSessionId(s.ledger, sessionId).value))
  {
    var k := WalletKey(actualUserId, role);
    match FindByStripeSessionId(s.ledger, sessionId)
    case Some(e) => (s, Ok(e))
    case None =>
      match FindByUserId(s.wallets, k)
      case None => (s, Err(WalletNotFound(k)))
      case Some(w) =>
        var saved := SaveEntry(s, Completed(NewPurchase(k, w.id, tokens, amount, sessionId, now), now));
        var credited := AddedToTotalSpent(AddedTokens(w, tokens, now), amount, now);
        (SaveWallet(saved.0, credited).0, Ok(saved.1))
  }

  /**
   * useTokens (by raw key): debit and record a USAGE entry when the wallet can
   * pay, answer false and write nothing when it cannot.
   */
  function UseTokens(s: Store, userId: string, tokens: int, now: nat): (r: (Store, Result<bool, Error>))
    ensures r.1.Err? <==> FindByUserId(s.wallets, userId).None?
    ensures r.1 == Ok(true) <==> FindByUserId(s.wallets, userId).Some? && CanUse(FindByUserId(s.wallets, userId).value, tokens)
    ensures r.1 != Ok(true) ==> r.0 == s
  {
    match FindByUserId(s.wallets, userId)
    case None => (s, Err(WalletNotFound(userId)))
    case Some(w) =>
      if CanUse(w, tokens) then
        var s1 := SaveEntry(s, NewUsage(userId, w.id, tokens, now)).0;
        (SaveWallet(s1, UsedTokens(w, tokens, now)).0, Ok(true))
      else
        (s, Ok(false))
  }

  /** The tutor wallet a transfer credits: the stored one, or a new empty TUTOR wallet. */
  function TutorWalletFor(s: Store, toUserId: string, now: nat): WalletRecord {
    match FindByUserId(s.wallets, TutorKey(toUserId))
    case Some(t) => t
    case None => NewWallet(toUserId, "TUTOR", "", now)
  }

  /**
   * transferTokens: move `tokens` from the student wallet of `fromUserId` to
   * the tutor wallet of `toUserId` (created when missing), storing both
   * wallets and a USAGE entry for each side tagged with the booking.
   */
  function TransferTokens(s: Store, fromUserId: string, toUserId: string, tokens: int, bookingId: string,
                          now: nat): (r: (Store, Result<Transferred, Error>))
    ensures r.1.Err? ==> r.0 == s
    ensures r.1.Ok? <==>
      FindByUserId(s.wallets, StudentKey(fromUserId)).Some? && CanUse(FindByUserId(s.wallets, StudentKey(fromUserId)).value, tokens)
    ensures r.1.Err? ==>
      r.1.error == (
        if FindByUserId(s.wallets, StudentKey(fromUserId)).None? then WalletNotFound(StudentKey(fromUserId))
        else InsufficientTokens)
  {
    var sk, tk := StudentKey(fromUserId), TutorKey(toUserId);
    match FindByUserId(s.wallets, sk)
    case None => (s, Err(WalletNotFound(sk)))
    case Some(sw) =>
      if !CanUse(sw, tokens) then (s, Err(InsufficientTokens))
      else
        var tw := TutorWalletFor(s, toUserId, now);
        var sw', tw' := UsedTokens(sw, tokens, now), AddedTokens(tw, tokens, now);
        var studentEntry := NewUsage(sk, sw.id, tokens, now).(bookingId := Some(bookingId));
        var tutorEntry := NewSettled(tk, tw.id, USAGE, tokens, Some(bookingId), now);
        var s1 := SaveWallet(s, sw').0;
        var s2 := SaveWallet(s1, tw').0;
        var s3 := SaveEntry(s2, studentEntry).0;
        (SaveEntry(s3, tutorEntry).0, Ok(Transferred(sw'.tokenBalance, tw'.tokenBalance)))
  }

  /**
   * refundTokens as written: debit the tutor object, credit the student, and
   * store the student wallet, a REFUND entry and the tutor's USAGE entry;
   * the debited tutor wallet itself is never stored.
   */
  function RefundTokens(s: Store, studentUserId: string, tutorUserId: string, tokens: int, now: nat)
    : (r: (Store, Result<Refunded, Error>))
    ensures r.1.Err? ==> r.0 == s
    ensures r.1.Ok? <==>
      && FindByUserId(s.wallets, StudentKey(studentUserId)).Some?
      && FindByUserId(s.wallets, TutorKey(tutorUserId)).Some?
      && CanUse(FindByUserId(s.wallets, TutorKey(tutorUserId)).value, tokens)
    ensures r.1.Ok? ==> r.1.value.tokensRefunded == tokens
    ensures r.1.Err? ==>
      r.1.error == (
        if FindByUserId(s.wallets, StudentKey(studentUserId)).None? then WalletNotFound(StudentKey(studentUserId))
        else if FindByUserId(s.wallets, TutorKey(tutorUserId)).None? then WalletNotFound(TutorKey(tutorUserId))
        else InsufficientTokens)
  {
    var sk, tk := StudentKey(studentUserId), TutorKey(tutorUserId);
    match FindByUserId(s.wallets, sk)
    case None => (s, Err(WalletNotFound(sk)))
    case Some(sw) =>
      match FindByUserId(s.wallets, tk)
      case None => (s, Err(WalletNotFound(tk)))
      case Some(tw) =>
        if !CanUse(tw, tokens) then (s, Err(InsufficientTokens))
        else
          var tw', sw' := UsedTokens(tw, tokens, now), AddedTokens(sw, tokens, now);
          var s1 := SaveWallet(s, sw').0;
          var s2 := SaveEntry(s1, NewSettled(sk, sw.id, REFUND, tokens, None, now)).0;
          (SaveEntry(s2, NewSettled(tk, tw.id, USAGE, tokens, None, now)).0,
           Ok(Refunded(tokens, sw'.tokenBalance, tw'.tokenBalance)))
  }

  /** refundTokens storing the debited tutor wallet too. */
  function RefundPersisted(s: Store, studentUserId: string, tutorUserId: string, tokens: int, now: nat)
    : (r: (Store, Result<Refunded, Error>))
    ensures r.1.Err? ==> r.0 == s
    ensures r.1.Ok? <==>
      && FindByUserId(s.wallets, StudentKey(studentUserId)).Some?
      && FindByUserId(s.wallets, TutorKey(tutorUserId)).Some?
      && CanUse(FindByUserId(s.wallets, TutorKey(tutorUserId)).value, tokens)
    ensures r.1.Ok? ==> r.1.value.tokensRefunded == tokens
    ensures r.1.Err? ==>
      r.1.error == (
        if FindByUserId(s.wallets, StudentKey(studentUserId)).None? then WalletNotFound(StudentKey(studentUserId))
        else if FindByUserId(s.wallets, TutorKey(tutorUserId)).None? then WalletNotFound(TutorKey(tutorUserId))
        else InsufficientTokens)
  {
    var sk, tk := StudentKey(studentUserId), TutorKey(tutorUserId);
    match FindByUserId(s.wallets, sk)
    case None => (s, Err(WalletNotFound(sk)))
    case Some(sw) =>
      match FindByUserId(s.wallets, tk)
      case None => (s, Err(WalletNotFound(tk)))
      case Some(tw) =>
        if !CanUse(tw, tokens) then (s, Err(InsufficientTokens))
        else
          var tw', sw' := UsedTokens(tw, tokens, now), AddedTokens(sw, tokens, now);
          var s1 := SaveWallet(s, sw').0;
          var s2 := SaveWallet(s1, tw').0;
          var s3 := SaveEntry(s2, NewSettled(sk, sw.id, REFUND, tokens, None, now)).0;
          (SaveEntry(s3, NewSettled(tk, tw.id, USAGE, tokens, None, now)).0,
           Ok(Refunded(tokens, sw'.tokenBalance, tw'.tokenBalance)))
  }

  /** The amount a booking refund returns: the tokens of the student's USAGE entry, 0 when absent. */
  function UsageTokens(e: Entry): int {
    e.tokensAmount.GetOr(0)
  }

  /**
   * refundTokensByBooking as written: find the student's USAGE entry for the
   * booking and refund its tokens, but store only the student's REFUND entry;
   * neither wallet nor the tutor's entry is stored.
   */
  function RefundTokensByBooking(s: Store, studentUserId: string, tutorUserId: string, bookingId: string,
                                 now: nat): (r: (Store, Result<Refunded, Error>))
    ensures r.1.Err? ==> r.0 == s
    ensures var usage := FindFirstByBookingIdAndUserIdAndType(s.ledger, bookingId, StudentKey(studentUserId), USAGE);
      r.1.Ok? <==>
        && FindByUserId(s.wallets, StudentKey(studentUserId)).Some?
        && FindByUserId(s.wallets, TutorKey(tutorUserId)).Some?
        && usage.Some?
        && CanUse(FindByUserId(s.wallets, TutorKey(tutorUserId)).value, UsageTokens(usage.value))
    ensures var usage := FindFirstByBookingIdAndUserIdAndType(s.ledger, bookingId, StudentKey(studentUserId), USAGE);
      r.1.Ok? ==> r.1.value.tokensRefunded == UsageTokens(usage.value)
    ensures var usage := FindFirstByBookingIdAndUserIdAndType(s.ledger, bookingId, StudentKey(studentUserId), USAGE);
      r.1.Err? ==>
        r.1.error == (
          if FindByUserId(s.wallets, StudentKey(studentUserId)).None? then WalletNotFound(StudentKey(studentUserId))
          else if FindByUserId(s.wallets, TutorKey(tutorUserId)).None? then WalletNotFound(TutorKey(tutorUserId))
          else if usage.None? then UsageNotFound(bookingId)
          else InsufficientTokens)
  {
    var sk, tk := StudentKey(studentUserId), TutorKey(tutorUserId);
    match FindByUserId(s.wallets, sk)
    case None => (s, Err(WalletNotFound(sk)))
    case Some(sw) =>
      match FindByUserId(s.wallets, tk)
      case None => (s, Err(WalletNotFound(tk)))
      case Some(tw) =>
        match FindFirstByBookingIdAndUserIdAndType(s.ledger, bookingId, sk, USAGE)
        case None => (s, Err(UsageNotFound(bookingId)))
        case Some(usage) =>
          var tokens := UsageTokens(usage);
          if tokens <= 0 || !CanUse(tw, tokens) then (s, Err(InsufficientTokens))
          else
            var tw', sw' := UsedTokens(tw, tokens, now), AddedTokens(sw, tokens, now);
            (SaveEntry(s, NewSettled(sk, sw.id, REFUND, tokens, Some(bookingId), now)).0,
             Ok(Refunded(tokens, sw'.tokenBalance, tw'.tokenBalance)))
  }

  /** refundTokensByBooking storing both wallets and both entries. */
  function RefundByBookingPersisted(s: Store, studentUserId: string, tutorUserId: string, bookingId: string,
                                    now: nat): (r: (Store, Result<Refunded, Error>))
    ensures r.1.Err? ==> r.0 == s
    ensures var usage := FindFirstByBookingIdAndUserIdAndType(s.ledger, bookingId, StudentKey(studentUserId), USAGE);
      r.1.Ok? <==>
        && FindByUserId(s.wallets, StudentKey(studentUserId)).Some?
        && FindByUserId(s.wallets, TutorKey(tutorUserId)).Some?
        && usage.Some?
        && CanUse(FindByUserId(s.wallets, TutorKey(tutorUserId)).value, UsageTokens(usage.value))
    ensures var usage := FindFirstByBookingIdAndUserIdAndType(s.ledger, bookingId, StudentKey(studentUserId), USAGE);
      r.1.Ok? ==> r.1.value.tokensRefunded == UsageTokens(usage.value)
    ensures var usage := FindFirstByBookingIdAndUserIdAndType(s.ledger, bookingId, StudentKey(studentUserId), USAGE);
      r.1.Err? ==>
        r.1.error == (
          if FindByUserId(s.wallets, StudentKey(studentUserId)).None? then WalletNotFound(StudentKey(studentUserId))
          else if FindByUserId(s.wallets, TutorKey(tutorUserId)).None? then WalletNotFound(TutorKey(tutorUserId))
          else if usage.None? then UsageNotFound(bookingId)
          else InsufficientTokens)
  {
    var sk, tk := StudentKey(studentUserId), TutorKey(tutorUserId);
    match FindByUserId(s.wallets, sk)
    case None => (s, Err(WalletNotFound(sk)))
    case Some(sw) =>
      match FindByUserId(s.wallets, tk)
      case None => (s, Err(WalletNotFound(tk)))
      case Some(tw) =>
        match FindFirstByBookingIdAndUserIdAndType(s.ledger, bookingId, sk, USAGE)
        case None => (s, Err(UsageNotFound(bookingId)))
        case Some(usage) =>
          var tokens := UsageTokens(usage);
          if tokens <= 0 || !CanUse(tw, tokens) then (s, Err(InsufficientTokens))
          else
            var tw', sw' := UsedTokens(tw, tokens, now), AddedTokens(sw, tokens, now);
            var s1 := SaveWallet(s, sw').0;
            var s2 := SaveWallet(s1, tw').0;
            var s3 := SaveEntry(s2, NewSettled(sk, sw.id, REFUND, tokens, Some(bookingId), now)).0;
            (SaveEntry(s3, NewSettled(tk, tw.id, USAGE, tokens, Some(bookingId), now)).0,
             Ok(Refunded(tokens, sw'.tokenBalance, tw'.tokenBalance)))
  }
}
