/**
 * The derived queries of repository/TransactionRepository.java, as functions
 * over the ledger in insertion order.
 *
 * "OrderByCreatedAtDesc" is the reverse of insertion order; `NewestFirstWhenChronological`
 * shows that this is newest first whenever entries were appended in clock order,
 * which the service maintains. Where Spring Data would reject a single-result
 * query that matches several documents, these return the first.
 */
module TransactionRepository {
  import opened Wrappers
  import opened Transactions
  import opened Sequences

  /** Entries appear in non-decreasing creation time. */
  predicate Chronological(s: seq<Entry>) {
    forall i, j :: 0 <= i < j < |s| ==> s[i].createdAt <= s[j].createdAt
  }

  /** Entries appear in non-increasing creation time. */
  predicate NewestFirst(s: seq<Entry>) {
    forall i, j :: 0 <= i < j < |s| ==> s[i].createdAt >= s[j].createdAt
  }

  function OfUser(u: string): Entry -> bool {
    (e: Entry) => e.userId == u
  }

  function OfUserAndType(u: string, t: TransactionType): Entry -> bool {
    (e: Entry) => e.userId == u && e.kind == t
  }

  function OfUserAndStatus(u: string, st: TransactionStatus): Entry -> bool {
    (e: Entry) => e.userId == u && e.status == st
  }

  function OfType(t: TransactionType): Entry -> bool {
    (e: Entry) => e.kind == t
  }

  function OfStatus(st: TransactionStatus): Entry -> bool {
    (e: Entry) => e.status == st
  }

  /** Spring Data MongoDB's `Between` on a derived query excludes both bounds. */
  function OfUserCreatedBetween(u: string, start: nat, end: nat): Entry -> bool {
    (e: Entry) => e.userId == u && start < e.createdAt < end
  }

  /** findByUserIdOrderByCreatedAtDesc. */
  function FindByUserIdOrderByCreatedAtDesc(ledger: seq<Entry>, u: string): (r: seq<Entry>)
    ensures forall e :: e in r <==> e in ledger && e.userId == u
  {
    Reverse(Filter(ledger, OfUser(u)))
  }

  /** findByWalletIdOrderByCreatedAtDesc. */
  function FindByWalletIdOrderByCreatedAtDesc(ledger: seq<Entry>, walletId: nat): (r: seq<Entry>)
    ensures forall e :: e in r <==> e in ledger && e.walletId == Some(walletId)
  {
    Reverse(Filter(ledger, (e: Entry) => e.walletId == Some(walletId)))
  }

  /** findByUserIdAndTypeOrderByCreatedAtDesc. */
  function FindByUserIdAndTypeOrderByCreatedAtDesc(ledger: seq<Entry>, u: string, t: TransactionType): (r: seq<Entry>)
    ensures forall e :: e in r <==> e in ledger && e.userId == u && e.kind == t
  {
    Reverse(Filter(ledger, OfUserAndType(u, t)))
  }

  /** findByUserIdAndStatusOrderByCreatedAtDesc. */
  function FindByUserIdAndStatusOrderByCreatedAtDesc(ledger: seq<Entry>, u: string, st: TransactionStatus): (r: seq<Entry>)
    ensures forall e :: e in r <==> e in ledger && e.userId == u && e.status == st
  {
    Reverse(Filter(ledger, OfUserAndStatus(u, st)))
  }

  /** findByStripeSessionId: the entry carrying payment reference `sid`, if any. */
  function FindByStripeSessionId(ledger: seq<Entry>, sid: string): (r: Option<Entry>)
    ensures r.Some? ==> r.value in ledger && r.value.stripeSessionId == Some(sid)
    ensures r.None? <==> forall e :: e in ledger ==> e.stripeSessionId != Some(sid)
  {
    FindFirst(ledger, (e: Entry) => e.stripeSessionId == Some(sid))
  }

  /** findByUserIdAndCreatedAtBetweenOrderByCreatedAtDesc, with exclusive bounds. */
  function FindByUserIdAndCreatedAtBetweenOrderByCreatedAtDesc(ledger: seq<Entry>, u: string, start: nat, end: nat): (r: seq<Entry>)
    ensures forall e :: e in r <==> e in ledger && e.userId == u && start < e.createdAt < end
  {
    Reverse(Filter(ledger, OfUserCreatedBetween(u, start, end)))
  }

  /** findByBookingId: every entry tagged with booking `b`, in store order. */
  function FindByBookingId(ledger: seq<Entry>, b: string): (r: seq<Entry>)
    ensures forall e :: e in r <==> e in ledger && e.bookingId == Some(b)
  {
    Filter(ledger, (e: Entry) => e.bookingId == Some(b))
  }

  function OfBookingUserType(b: string, u: string, t: TransactionType): Entry -> bool {
    (e: Entry) => e.bookingId == Some(b) && e.userId == u && e.kind == t
  }

  /** findFirstByBookingIdAndUserIdAndType. */
  function FindFirstByBookingIdAndUserIdAndType(ledger: seq<Entry>, b: string, u: string, t: TransactionType): (r: Option<Entry>)
    ensures r.Some? <==> exists e :: e in ledger && e.bookingId == Some(b) && e.userId == u && e.kind == t
    ensures r.Some? ==> r.value in ledger && r.value.bookingId == Some(b) && r.value.userId == u && r.value.kind == t
  {
    FindFirst(ledger, OfBookingUserType(b, u, t))
  }

  lemma {:induction false} FilterKeepsChronological(s: seq<Entry>, p: Entry -> bool)
    requires Chronological(s)
    ensures Chronological(Filter(s, p))
  {
    if s != [] {
      FilterKeepsChronological(s[1..], p);
      var t := Filter(s[1..], p);
      if p(s[0]) {
        forall j | 0 < j < |[s[0]] + t|
          ensures s[0].createdAt <= ([s[0]] + t)[j].createdAt
        {
          assert ([s[0]] + t)[j] == t[j - 1];
          assert t[j - 1] in s[1..];
        }
      }
    }
  }

  lemma ReverseOfChronological(s: seq<Entry>)
    requires Chronological(s)
    ensures NewestFirst(Reverse(s))
  {
  }

  /** Every history query returns its entries newest first, provided the ledger was written in clock order. */
  lemma NewestFirstWhenChronological(ledger: seq<Entry>, p: Entry -> bool)
    requires Chronological(ledger)
    ensures NewestFirst(Reverse(Filter(ledger, p)))
  {
    FilterKeepsChronological(ledger, p);
    ReverseOfChronological(Filter(ledger, p));
  }

  /** The per-type history is the user's full history filtered to that type, in the same order. */
  lemma TypeHistoryIsFilteredHistory(ledger: seq<Entry>, u: string, t: TransactionType)
    ensures FindByUserIdAndTypeOrderByCreatedAtDesc(ledger, u, t)
         == Filter(FindByUserIdOrderByCreatedAtDesc(ledger, u), OfType(t))
  {
    FilterReverse(Filter(ledger, OfUser(u)), OfType(t));
    FilterFilter(ledger, OfUser(u), OfType(t), OfUserAndType(u, t));
  }

  /** The per-status history is the user's full history filtered to that status, in the same order. */
  lemma StatusHistoryIsFilteredHistory(ledger: seq<Entry>, u: string, st: TransactionStatus)
    ensures FindByUserIdAndStatusOrderByCreatedAtDesc(ledger, u, st)
         == Filter(FindByUserIdOrderByCreatedAtDesc(ledger, u), OfStatus(st))
  {
    FilterReverse(Filter(ledger, OfUser(u)), OfStatus(st));
    FilterFilter(ledger, OfUser(u), OfStatus(st), OfUserAndStatus(u, st));
  }

  /** The date-range query is the user's full history restricted to the open interval, in the same order. */
  lemma DateRangeIsFilteredHistory(ledger: seq<Entry>, u: string, start: nat, end: nat)
    ensures FindByUserIdAndCreatedAtBetweenOrderByCreatedAtDesc(ledger, u, start, end)
         == Filter(FindByUserIdOrderByCreatedAtDesc(ledger, u), (e: Entry) => start < e.createdAt < end)
  {
    var inRange := (e: Entry) => start < e.createdAt < end;
    FilterReverse(Filter(ledger, OfUser(u)), inRange);
    FilterFilter(ledger, OfUser(u), inRange, OfUserCreatedBetween(u, start, end));
  }
}
