/**
 * A ledger entry (model/Transaction.java): its persisted form `Entry`, the
 * factories that build one, and the in-memory `Transaction` object whose
 * `Complete`/`Fail` change its status in place.
 *
 * The free-text description and metadata fields are not modelled.
 */
module Transactions {
  import opened Wrappers

  datatype TransactionType = PURCHASE | USAGE | REFUND

  datatype TransactionStatus = PENDING | COMPLETED | FAILED | CANCELLED

  /** A ledger document as the store holds it; the `Option` fields are the ones Java leaves null. */
  datatype Entry = Entry(
    id: Option<nat>,
    userId: string,
    walletId: Option<nat>,
    kind: TransactionType,
    tokensAmount: Option<int>,
    moneyAmount: real,
    stripeSessionId: Option<string>,
    status: TransactionStatus,
    bookingId: Option<string>,
    createdAt: nat,
    completedAt: Option<nat>)

  /** Transaction.createPurchase. */
  function NewPurchase(userId: string, walletId: Option<nat>, tokens: int, amount: real,
                       stripeSessionId: string, now: nat): Entry
  {
    Entry(None, userId, walletId, PURCHASE, Some(tokens), amount, Some(stripeSessionId), PENDING, None, now, None)
  }

  /** Transaction.createUsage. */
  function NewUsage(userId: string, walletId: Option<nat>, tokens: int, now: nat): Entry {
    Entry(None, userId, walletId, USAGE, Some(tokens), 0.0, None, COMPLETED, None, now, Some(now))
  }

  /**
   * The entry the service assembles with `new Transaction()` and setters for
   * the tutor side of a transfer and for both sides of a refund: completed at
   * once, no money, no payment reference.
   */
  function NewSettled(userId: string, walletId: Option<nat>, kind: TransactionType, tokens: int,
                      bookingId: Option<string>, now: nat): Entry
  {
    Entry(None, userId, walletId, kind, Some(tokens), 0.0, None, COMPLETED, bookingId, now, Some(now))
  }

  /** Transaction.complete. */
  function Completed(e: Entry, now: nat): Entry {
    e.(status := COMPLETED, completedAt := Some(now))
  }

  /** Completing twice is completing once, at the later time. */
  lemma CompleteIsIdempotent(e: Entry, t1: nat, t2: nat)
    ensures Completed(Completed(e, t1), t2) == Completed(e, t2)
    ensures Completed(e, t1).status == COMPLETED && Completed(e, t1).(status := e.status, completedAt := e.completedAt) == e
  {
  }

  /** Transaction.fail. */
  function Failed(e: Entry, now: nat): Entry {
    e.(status := FAILED, completedAt := Some(now))
  }

  /** The in-memory ledger entry object. */
  class Transaction {
    var id: Option<nat>
    var userId: string
    var walletId: Option<nat>
    var kind: TransactionType
    var tokensAmount: Option<int>
    var moneyAmount: real
    var stripeSessionId: Option<string>
    var status: TransactionStatus
    var bookingId: Option<string>
    var createdAt: nat
    var completedAt: Option<nat>

    /** The document this object would be saved as. */
    function Record(): Entry
      reads this
    {
      Entry(id, userId, walletId, kind, tokensAmount, moneyAmount, stripeSessionId, status,
            bookingId, createdAt, completedAt)
    }

    /** Transaction.createPurchase: a PENDING purchase that carries the payment reference. */
    constructor Purchase(userId: string, walletId: Option<nat>, tokens: int, amount: real,
                         stripeSessionId: string, now: nat)
      ensures Record() == NewPurchase(userId, walletId, tokens, amount, stripeSessionId, now)
      ensures kind == PURCHASE && status == PENDING
      ensures tokensAmount == Some(tokens) && moneyAmount == amount
      ensures this.stripeSessionId == Some(stripeSessionId)
      ensures completedAt == None && bookingId == None && id == None
    {
      id, this.userId, this.walletId := None, userId, walletId;
      kind, tokensAmount, moneyAmount := PURCHASE, Some(tokens), amount;
      this.stripeSessionId, status, bookingId := Some(stripeSessionId), PENDING, None;
      createdAt, completedAt := now, None;
    }

    /** Transaction.createUsage: a USAGE entry, completed at once, with no money and no payment reference. */
    constructor Usage(userId: string, walletId: Option<nat>, tokens: int, now: nat)
      ensures Record() == NewUsage(userId, walletId, tokens, now)
      ensures kind == USAGE && status == COMPLETED
      ensures tokensAmount == Some(tokens) && moneyAmount == 0.0
      ensures stripeSessionId == None && completedAt == Some(now) && bookingId == None && id == None
    {
      id, this.userId, this.walletId := None, userId, walletId;
      kind, tokensAmount, moneyAmount := USAGE, Some(tokens), 0.0;
      stripeSessionId, status, bookingId := None, COMPLETED, None;
      createdAt, completedAt := now, Some(now);
    }

    /** `new Transaction()` followed by the setters the service calls for a settled entry. */
    constructor Settled(userId: string, walletId: Option<nat>, kind: TransactionType, tokens: int,
                        bookingId: Option<string>, now: nat)
      ensures Record() == NewSettled(userId, walletId, kind, tokens, bookingId, now)
    {
      id, this.userId, this.walletId := None, userId, walletId;
      this.kind, tokensAmount, moneyAmount := kind, Some(tokens), 0.0;
      stripeSessionId, status, this.bookingId := None, COMPLETED, bookingId;
      createdAt, completedAt := now, Some(now);
    }

    /** complete(): the status becomes COMPLETED whatever it was, and nothing but the completion time changes. */
    method Complete(now: nat)
      modifies this
      ensures Record() == Completed(old(Record()), now)
      ensures status == COMPLETED && completedAt == Some(now)
      ensures kind == old(kind) && tokensAmount == old(tokensAmount) && moneyAmount == old(moneyAmount)
      ensures id == old(id) && userId == old(userId) && walletId == old(walletId)
      ensures stripeSessionId == old(stripeSessionId) && bookingId == old(bookingId)
    {
      status := COMPLETED;
      completedAt := Some(now);
    }

    /** fail(): the status becomes FAILED and nothing but the completion time changes. */
    method Fail(now: nat)
      modifies this
      ensures Record() == Failed(old(Record()), now)
      ensures status == FAILED && completedAt == Some(now)
    {
      status := FAILED;
      completedAt := Some(now);
    }

    /** setBookingId. */
    method SetBookingId(bookingId: string)
      modifies this
      ensures Record() == old(Record()).(bookingId := Some(bookingId))
    {
      this.bookingId := Some(bookingId);
    }
  }
}
