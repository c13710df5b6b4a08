/**
 * The persisted state behind the two repositories, and the writes the service
 * performs through them (MongoRepository's inherited save and delete).
 *
 * The store assigns ids from the counter `nextId`. Saving a document without
 * an id inserts it under a fresh id; saving one with an id replaces the
 * document with that id, or inserts it when there is none (an upsert).
 * Deleting a wallet removes the document with its id; deleting one without an
 * id fails inside Spring Data, and the service swallows that failure, so it
 * changes nothing.
 */
module Persistence {
  import opened Wrappers
  import opened Sequences
  import opened Wallets
  import opened Transactions
  import opened WalletRepository
  import opened TransactionRepository

  datatype Store = Store(wallets: seq<WalletRecord>, ledger: seq<Entry>, nextId: nat)

  /** Every stored wallet has an id below the counter, and no two share one. */
  predicate WalletIdsOk(ws: seq<WalletRecord>, nextId: nat) {
    && (forall i :: 0 <= i < |ws| ==> ws[i].id.Some? && ws[i].id.value < nextId)
    && (forall i, j :: 0 <= i < j < |ws| ==> ws[i].id != ws[j].id)
  }

  /** Every entry has an id below the counter, a creation time no later than `clock`, and they were appended in clock order. */
  predicate LedgerOk(ledger: seq<Entry>, nextId: nat, clock: nat) {
    && (forall i :: 0 <= i < |ledger| ==> ledger[i].id.Some? && ledger[i].id.value < nextId)
    && (forall i :: 0 <= i < |ledger| ==> ledger[i].createdAt <= clock)
    && Chronological(ledger)
  }

  /** No stored balance is negative. */
  predicate NonNegative(ws: seq<WalletRecord>) {
    forall i :: 0 <= i < |ws| ==> ws[i].tokenBalance >= 0
  }

  /** The invariant of the persisted state at clock reading `clock`. */
  predicate Consistent(s: Store, clock: nat) {
    WalletIdsOk(s.wallets, s.nextId) && LedgerOk(s.ledger, s.nextId, clock) && NonNegative(s.wallets)
  }

  function WalletWithId(id: nat): WalletRecord -> bool {
    (w: WalletRecord) => w.id == Some(id)
  }

  function WalletWithoutId(id: nat): WalletRecord -> bool {
    (w: WalletRecord) => w.id != Some(id)
  }

  function EntryWithId(id: nat): Entry -> bool {
    (e: Entry) => e.id == Some(id)
  }

  /** walletRepository.save: the new state and the saved document (with its id). */
  function SaveWallet(s: Store, w: WalletRecord): (r: (Store, WalletRecord))
    ensures r.0.ledger == s.ledger && r.1.id.Some?
    ensures r.1 == (if w.id.None? then w.(id := Some(s.nextId)) else w)
  {
    match w.id
    case None =>
      var saved := w.(id := Some(s.nextId));
      (s.(wallets := s.wallets + [saved], nextId := s.nextId + 1), saved)
    case Some(id) =>
      match FirstIndex(s.wallets, WalletWithId(id))
      case Some(i) => (s.(wallets := s.wallets[i := w]), w)
      case None => (s.(wallets := s.wallets + [w]), w)
  }

  /** walletRepository.delete, with a failure on a missing id swallowed. */
  function DeleteWallet(s: Store, w: WalletRecord): (r: Store)
    ensures r.ledger == s.ledger && r.nextId == s.nextId
  {
    match w.id
    case None => s
    case Some(id) => s.(wallets := Filter(s.wallets, WalletWithoutId(id)))
  }

  /** Deleting each wallet of `ds` in turn, first to last. */
  function DeleteWallets(s: Store, ds: seq<WalletRecord>): (r: Store)
    ensures r.ledger == s.ledger && r.nextId == s.nextId
  {
    if ds == [] then s else DeleteWallet(DeleteWallets(s, ds[..|ds| - 1]), ds[|ds| - 1])
  }

  /** transactionRepository.save: the new state and the saved entry (with its id). */
  function SaveEntry(s: Store, e: Entry): (r: (Store, Entry))
    ensures r.0.wallets == s.wallets && r.1.id.Some?
    ensures r.1 == (if e.id.None? then e.(id := Some(s.nextId)) else e)
  {
    match e.id
    case None =>
      var saved := e.(id := Some(s.nextId));
      (s.(ledger := s.ledger + [saved], nextId := s.nextId + 1), saved)
    case Some(id) =>
      match FirstIndex(s.ledger, EntryWithId(id))
      case Some(i) => (s.(ledger := s.ledger[i := e]), e)
      case None => (s.(ledger := s.ledger + [e]), e)
  }

  /** Inserting a fresh entry appends it under the next id. */
  lemma SaveNewEntry(s: Store, e: Entry)
    requires e.id.None?
    ensures SaveEntry(s, e).0 == s.(ledger := s.ledger + [e.(id := Some(s.nextId))], nextId := s.nextId + 1)
  {
  }

  /** Appending an entry stamped `now` keeps the ledger invariant at `now`. */
  lemma AppendKeepsLedgerOk(s: Store, e: Entry, clock: nat, now: nat)
    requires LedgerOk(s.ledger, s.nextId, clock) && clock <= now
    requires e.id.None? && e.createdAt == now
    ensures LedgerOk(SaveEntry(s, e).0.ledger, SaveEntry(s, e).0.nextId, now)
  {
  }

  /** In a store with distinct ids, the document with a wallet's id is that wallet. */
  lemma {:induction false} IdLocatesWallet(ws: seq<WalletRecord>, nextId: nat, i: nat)
    requires WalletIdsOk(ws, nextId) && i < |ws|
    ensures FirstIndex(ws, WalletWithId(ws[i].id.value)) == Some(i)
  {
    var r := FirstIndex(ws, WalletWithId(ws[i].id.value));
    assert r.Some?;
  }

  /** Two stores with the same key at every position have the same first position for every key. */
  lemma SameKeysSameFirstIndex(ws: seq<WalletRecord>, ws': seq<WalletRecord>, k: string)
    requires |ws| == |ws'| && forall j :: 0 <= j < |ws| ==> ws'[j].userId == ws[j].userId
    ensures FirstIndexByUserId(ws', k) == FirstIndexByUserId(ws, k)
  {
    var a := FirstIndexByUserId(ws, k);
    if a.Some? {
      assert ws'[a.value].userId == k;
    } else {
      assert forall j :: 0 <= j < |ws'| ==> ws'[j].userId != k;
    }
  }

  /**
   * Saving a loaded wallet back (same id, same key) replaces it in place:
   * the key now finds the saved document and every other key finds what it found before.
   */
  lemma SaveLoadedWallet(s: Store, k: string, w: WalletRecord)
    requires WalletIdsOk(s.wallets, s.nextId)
    requires FindByUserId(s.wallets, k).Some?
    requires w.id == FindByUserId(s.wallets, k).value.id && w.userId == k
    ensures SaveWallet(s, w).0.nextId == s.nextId
    ensures WalletIdsOk(SaveWallet(s, w).0.wallets, s.nextId)
    ensures FindByUserId(SaveWallet(s, w).0.wallets, k) == Some(w)
    ensures forall k' :: k' != k ==> FindByUserId(SaveWallet(s, w).0.wallets, k') == FindByUserId(s.wallets, k')
    ensures |SaveWallet(s, w).0.wallets| == |s.wallets|
    ensures forall j :: 0 <= j < |s.wallets| && s.wallets[j].userId != k ==> SaveWallet(s, w).0.wallets[j] == s.wallets[j]
  {
    var ws := s.wallets;
    var i := FirstIndexByUserId(ws, k).value;
    IdLocatesWallet(ws, s.nextId, i);
    var ws' := ws[i := w];
    assert SaveWallet(s, w).0.wallets == ws';
    forall k' ensures FirstIndexByUserId(ws', k') == FirstIndexByUserId(ws, k') {
      SameKeysSameFirstIndex(ws, ws', k');
    }
  }

  /** Saving a wallet without an id whose key is absent inserts it under the next id and leaves every other key's lookup alone. */
  lemma SaveFreshWallet(s: Store, w: WalletRecord)
    requires WalletIdsOk(s.wallets, s.nextId)
    requires w.id.None? && FindByUserId(s.wallets, w.userId).None?
    ensures SaveWallet(s, w).0.wallets == s.wallets + [w.(id := Some(s.nextId))]
    ensures SaveWallet(s, w).0.nextId == s.nextId + 1
    ensures WalletIdsOk(SaveWallet(s, w).0.wallets, s.nextId + 1)
    ensures FindByUserId(SaveWallet(s, w).0.wallets, w.userId) == Some(w.(id := Some(s.nextId)))
    ensures forall k' :: k' != w.userId ==> FindByUserId(SaveWallet(s, w).0.wallets, k') == FindByUserId(s.wallets, k')
  {
    var ws' := s.wallets + [w.(id := Some(s.nextId))];
    forall k' ensures FirstIndexByUserId(ws', k') ==
      if FirstIndexByUserId(s.wallets, k').Some? then FirstIndexByUserId(s.wallets, k')
      else if k' == w.userId then Some(|s.wallets|) else None
    {
      var a, b := FirstIndexByUserId(s.wallets, k'), FirstIndexByUserId(ws', k');
      if a.Some? {
        assert ws'[a.value] == s.wallets[a.value];
      } else if k' == w.userId {
        assert ws'[|s.wallets|].userId == k';
      }
    }
  }

  /** The ids of a list of wallets. */
  function IdsOf(ds: seq<WalletRecord>): set<Option<nat>> {
    set d | d in ds :: d.id
  }

  function WalletIdNotIn(ids: set<Option<nat>>): WalletRecord -> bool {
    (w: WalletRecord) => w.id !in ids
  }

  lemma IdsOfSnoc(init: seq<WalletRecord>, x: WalletRecord)
    ensures IdsOf(init + [x]) == IdsOf(init) + {x.id}
  {
  }

  /** Deleting a list of identified wallets one by one removes exactly the documents with their ids. */
  lemma {:induction false} DeleteWalletsRemovesIds(s: Store, ds: seq<WalletRecord>)
    requires forall d :: d in ds ==> d.id.Some?
    ensures DeleteWallets(s, ds).wallets == Filter(s.wallets, WalletIdNotIn(IdsOf(ds)))
  {
    if ds == [] {
      FilterKeepsAll(s.wallets, WalletIdNotIn(IdsOf(ds)));
    } else {
      var init, x := ds[..|ds| - 1], ds[|ds| - 1];
      assert ds == init + [x];
      assert forall d :: d in init ==> d in ds;
      DeleteWalletsRemovesIds(s, init);
      var mid := DeleteWallets(s, init);
      assert DeleteWallets(s, ds).wallets == Filter(mid.wallets, WalletWithoutId(x.id.value));
      IdsOfSnoc(init, x);
      FilterFilter(s.wallets, WalletIdNotIn(IdsOf(init)), WalletWithoutId(x.id.value), WalletIdNotIn(IdsOf(ds)));
    }
  }

  /** A filtered store keeps the id invariant. */
  lemma {:induction false} FilterKeepsWalletIdsOk(ws: seq<WalletRecord>, nextId: nat, p: WalletRecord -> bool)
    requires WalletIdsOk(ws, nextId)
    ensures WalletIdsOk(Filter(ws, p), nextId)
  {
    if ws != [] {
      FilterKeepsWalletIdsOk(ws[1..], nextId, p);
      var t := Filter(ws[1..], p);
      if p(ws[0]) {
        forall j | 0 < j < |[ws[0]] + t|
          ensures ws[0].id != ([ws[0]] + t)[j].id
        {
          assert ([ws[0]] + t)[j] == t[j - 1];
          assert t[j - 1] in ws[1..];
        }
      }
    }
  }

  /** With distinct ids, two stored wallets with the same id are the same wallet. */
  lemma SameIdSameWallet(ws: seq<WalletRecord>, nextId: nat, a: WalletRecord, b: WalletRecord)
    requires WalletIdsOk(ws, nextId) && a in ws && b in ws && a.id == b.id
    ensures a == b
  {
    var i :| 0 <= i < |ws| && ws[i] == a;
    var j :| 0 <= j < |ws| && ws[j] == b;
    assert !(i < j) && !(j < i);
  }

  /** In a list with distinct ids, the head's id is not among the ids of the rest. */
  lemma HeadIdNotInTail(ws: seq<WalletRecord>, nextId: nat)
    requires WalletIdsOk(ws, nextId) && |ws| > 0
    ensures ws[0].id !in IdsOf(ws[1..])
  {
    forall d | d in ws[1..] ensures d.id != ws[0].id {
      var j :| 0 <= j < |ws| - 1 && ws[1..][j] == d;
      assert ws[j + 1] == d;
    }
  }

  /** Filtering a list with distinct ids by "not an id of the tail" leaves only the head. */
  lemma KeepOnlyHead(all: seq<WalletRecord>, nextId: nat)
    requires WalletIdsOk(all, nextId) && |all| > 0
    ensures Filter(all, WalletIdNotIn(IdsOf(all[1..]))) == [all[0]]
  {
    var tail := all[1..];
    var keep := WalletIdNotIn(IdsOf(tail));
    HeadIdNotInTail(all, nextId);
    assert all == [all[0]] + tail;
    FilterConcat([all[0]], tail, keep);
    FilterKeepsNone(tail, keep);
  }

  /** Deleting the tail of one key's wallets leaves its head alone under that key. */
  lemma CleanupSameKey(ws: seq<WalletRecord>, nextId: nat, k: string)
    requires WalletIdsOk(ws, nextId)
    requires |FindAllByUserId(ws, k)| > 0
    ensures var all := FindAllByUserId(ws, k);
      FindAllByUserId(Filter(ws, WalletIdNotIn(IdsOf(all[1..]))), k) == [all[0]]
  {
    var all := FindAllByUserId(ws, k);
    var keep := WalletIdNotIn(IdsOf(all[1..]));
    FilterKeepsWalletIdsOk(ws, nextId, HasKey(k));
    KeepOnlyHead(all, nextId);
    FilterCommute(ws, keep, HasKey(k));
  }

  /** Deleting wallets of key `k` by id leaves every other key's wallets in place. */
  lemma CleanupOtherKey(ws: seq<WalletRecord>, nextId: nat, k: string, k': string)
    requires WalletIdsOk(ws, nextId) && k' != k
    requires |FindAllByUserId(ws, k)| > 0
    ensures var all := FindAllByUserId(ws, k);
      FindAllByUserId(Filter(ws, WalletIdNotIn(IdsOf(all[1..]))), k') == FindAllByUserId(ws, k')
  {
    var all := FindAllByUserId(ws, k);
    var keep := WalletIdNotIn(IdsOf(all[1..]));
    FilterCommute(ws, keep, HasKey(k'));
    forall x | x in FindAllByUserId(ws, k') ensures keep(x) {
      if x.id in IdsOf(all[1..]) {
        var d :| d in all[1..] && d.id == x.id;
        SameIdSameWallet(ws, nextId, x, d);
      }
    }
    FilterKeepsAll(FindAllByUserId(ws, k'), keep);
  }

  /**
   * The clean-up of getOrCreateWallet: deleting every wallet of key `k` but the
   * first leaves exactly that first one under `k`, and no other key loses a wallet.
   */
  lemma CleanupKeepsFirst(s: Store, k: string)
    requires WalletIdsOk(s.wallets, s.nextId)
    requires |FindAllByUserId(s.wallets, k)| > 0
    ensures var all := FindAllByUserId(s.wallets, k);
      FindAllByUserId(DeleteWallets(s, all[1..]).wallets, k) == [all[0]]
    ensures var all := FindAllByUserId(s.wallets, k);
      forall k' :: k' != k ==> FindAllByUserId(DeleteWallets(s, all[1..]).wallets, k') == FindAllByUserId(s.wallets, k')
    ensures var all := FindAllByUserId(s.wallets, k);
      WalletIdsOk(DeleteWallets(s, all[1..]).wallets, s.nextId)
    ensures var all := FindAllByUserId(s.wallets, k);
      forall w :: w in DeleteWallets(s, all[1..]).wallets ==> w in s.wallets
  {
    var all := FindAllByUserId(s.wallets, k);
    assert forall d :: d in all[1..] ==> d in s.wallets;
    DeleteWalletsRemovesIds(s, all[1..]);
    FilterKeepsWalletIdsOk(s.wallets, s.nextId, WalletIdNotIn(IdsOf(all[1..])));
    CleanupSameKey(s.wallets, s.nextId, k);
    forall k' | k' != k
      ensures FindAllByUserId(DeleteWallets(s, all[1..]).wallets, k') == FindAllByUserId(s.wallets, k')
    {
      CleanupOtherKey(s.wallets, s.nextId, k, k');
    }
  }

  /** A wallet write that replaces the stored wallet of its key, or inserts one for a key that has none. */
  predicate SavesUnder(s: Store, k: string, w: WalletRecord) {
    w.userId == k &&
    match FindByUserId(s.wallets, k)
    case Some(stored) => w.id == stored.id
    case None => w.id.None?
  }

  /** One wallet write of either kind: the key finds the saved document, the other keys what they found. */
  lemma SaveUnderKey(s: Store, k: string, w: WalletRecord)
    requires WalletIdsOk(s.wallets, s.nextId) && SavesUnder(s, k, w)
    ensures var r := SaveWallet(s, w);
      && FindByUserId(r.0.wallets, k) == Some(r.1)
      && (forall k' :: k' != k ==> FindByUserId(r.0.wallets, k') == FindByUserId(s.wallets, k'))
      && WalletIdsOk(r.0.wallets, r.0.nextId)
      && r.0.nextId == (if w.id.None? then s.nextId + 1 else s.nextId)
  {
    if FindByUserId(s.wallets, k).Some? {
      SaveLoadedWallet(s, k, w);
    } else {
      SaveFreshWallet(s, w);
    }
  }

  /**
   * A write under its key never puts a second wallet under that key: the
   * unique index on userId holds after it whenever it held before.
   */
  lemma SaveUnderKeepsUniqueKeys(s: Store, k: string, w: WalletRecord)
    requires WalletIdsOk(s.wallets, s.nextId) && SavesUnder(s, k, w) && UniqueKeys(s.wallets)
    ensures UniqueKeys(SaveWallet(s, w).0.wallets)
  {
    var ws := s.wallets;
    if FindByUserId(ws, k).Some? {
      var i := FirstIndexByUserId(ws, k).value;
      IdLocatesWallet(ws, s.nextId, i);
      var ws' := ws[i := w];
      assert SaveWallet(s, w).0.wallets == ws';
      assert forall j :: 0 <= j < |ws| ==> ws'[j].userId == ws[j].userId;
    } else {
      SaveFreshWallet(s, w);
      var ws' := ws + [w.(id := Some(s.nextId))];
      forall i, j | 0 <= i < j < |ws'| ensures ws'[i].userId != ws'[j].userId {
        if j < |ws| {
          assert ws'[i] == ws[i] && ws'[j] == ws[j];
        } else {
          assert ws'[i] == ws[i];
        }
      }
    }
  }

  /** Removing wallets keeps the keys unique. */
  lemma {:induction false} FilterKeepsUniqueKeys(ws: seq<WalletRecord>, p: WalletRecord -> bool)
    requires UniqueKeys(ws)
    ensures UniqueKeys(Filter(ws, p))
  {
    if ws != [] {
      FilterKeepsUniqueKeys(ws[1..], p);
      var t := Filter(ws[1..], p);
      if p(ws[0]) {
        forall j | 0 < j < |[ws[0]] + t|
          ensures ws[0].userId != ([ws[0]] + t)[j].userId
        {
          assert ([ws[0]] + t)[j] == t[j - 1];
          assert t[j - 1] in ws[1..];
        }
      }
    }
  }

  /** Two wallet writes under two different keys. */
  lemma SaveTwoWallets(s: Store, k1: string, w1: WalletRecord, k2: string, w2: WalletRecord)
    requires WalletIdsOk(s.wallets, s.nextId) && k1 != k2
    requires SavesUnder(s, k1, w1) && SavesUnder(s, k2, w2)
    ensures var r1 := SaveWallet(s, w1); var r2 := SaveWallet(r1.0, w2);
      && FindByUserId(r2.0.wallets, k1) == Some(r1.1)
      && FindByUserId(r2.0.wallets, k2) == Some(r2.1)
      && (forall k' :: k' != k1 && k' != k2 ==> FindByUserId(r2.0.wallets, k') == FindByUserId(s.wallets, k'))
      && WalletIdsOk(r2.0.wallets, r2.0.nextId)
      && r2.0.ledger == s.ledger
      && s.nextId <= r2.0.nextId
  {
    SaveUnderKey(s, k1, w1);
    var s1 := SaveWallet(s, w1).0;
    assert FindByUserId(s1.wallets, k2) == FindByUserId(s.wallets, k2);
    SaveUnderKey(s1, k2, w2);
  }

  /** Two writes under two different keys keep the keys unique. */
  lemma SaveTwoKeepsUniqueKeys(s: Store, k1: string, w1: WalletRecord, k2: string, w2: WalletRecord)
    requires WalletIdsOk(s.wallets, s.nextId) && k1 != k2 && UniqueKeys(s.wallets)
    requires SavesUnder(s, k1, w1) && SavesUnder(s, k2, w2)
    ensures UniqueKeys(SaveWallet(SaveWallet(s, w1).0, w2).0.wallets)
  {
    SaveUnderKey(s, k1, w1);
    SaveUnderKeepsUniqueKeys(s, k1, w1);
    var s1 := SaveWallet(s, w1).0;
    assert FindByUserId(s1.wallets, k2) == FindByUserId(s.wallets, k2);
    SaveUnderKeepsUniqueKeys(s1, k2, w2);
  }

  /** Two entry inserts append both, under the next two ids. */
  lemma SaveTwoEntries(s: Store, a: Entry, b: Entry)
    requires a.id.None? && b.id.None?
    ensures var r := SaveEntry(SaveEntry(s, a).0, b).0;
      && r.ledger == s.ledger + [a.(id := Some(s.nextId)), b.(id := Some(s.nextId + 1))]
      && r.wallets == s.wallets
      && r.nextId == s.nextId + 2
  {
    SaveNewEntry(s, a);
    SaveNewEntry(SaveEntry(s, a).0, b);
  }

  /** Saving a wallet with a non-negative balance keeps every stored balance non-negative. */
  lemma SaveWalletKeepsNonNegative(s: Store, w: WalletRecord)
    requires NonNegative(s.wallets) && w.tokenBalance >= 0
    ensures NonNegative(SaveWallet(s, w).0.wallets)
  {
  }

  /** Removing wallets keeps every stored balance non-negative. */
  lemma FilterKeepsNonNegative(ws: seq<WalletRecord>, p: WalletRecord -> bool)
    requires NonNegative(ws)
    ensures NonNegative(Filter(ws, p))
  {
    var r := Filter(ws, p);
    forall i | 0 <= i < |r| ensures r[i].tokenBalance >= 0 {
      assert r[i] in ws;
    }
  }

  /**
   * Entries appended after the old ledger, each stamped `now` and numbered
   * below the new counter, keep the ledger invariant at clock reading `now`.
   */
  lemma AppendedAtNowKeepsLedgerOk(prior: seq<Entry>, priorNext: nat, clock: nat, ledger: seq<Entry>, nextId: nat, now: nat)
    requires LedgerOk(prior, priorNext, clock) && clock <= now && priorNext <= nextId
    requires |prior| <= |ledger| && ledger[..|prior|] == prior
    requires forall i :: |prior| <= i < |ledger| ==>
      ledger[i].id.Some? && ledger[i].id.value < nextId && ledger[i].createdAt == now
    ensures LedgerOk(ledger, nextId, now)
  {
    forall i | 0 <= i < |prior| ensures ledger[i] == prior[i] {
      assert ledger[..|prior|][i] == ledger[i];
    }
  }

  /** Ids issued below one counter are below any later counter. */
  lemma WalletIdsOkGrows(ws: seq<WalletRecord>, n: nat, m: nat)
    requires WalletIdsOk(ws, n) && n <= m
    ensures WalletIdsOk(ws, m)
  {
  }

  /** A consistent store stays consistent as the clock moves on. */
  lemma ConsistentLater(s: Store, clock: nat, now: nat)
    requires Consistent(s, clock) && clock <= now
    ensures Consistent(s, now)
  {
  }

  /** Two entries stamped `now` appended after wallet writes keep the store invariant. */
  lemma EntriesAfterWalletsConsistent(s: Store, clock: nat, s2: Store, a: Entry, b: Entry, now: nat)
    requires Consistent(s, clock) && clock <= now
    requires WalletIdsOk(s2.wallets, s2.nextId) && NonNegative(s2.wallets)
    requires s2.ledger == s.ledger && s.nextId <= s2.nextId
    requires a.id.None? && b.id.None? && a.createdAt == now && b.createdAt == now
    ensures Consistent(SaveEntry(SaveEntry(s2, a).0, b).0, now)
  {
    SaveTwoEntries(s2, a, b);
    var s4 := SaveEntry(SaveEntry(s2, a).0, b).0;
    WalletIdsOkGrows(s2.wallets, s2.nextId, s4.nextId);
    assert s4.ledger[..|s.ledger|] == s.ledger;
    AppendedAtNowKeepsLedgerOk(s.ledger, s.nextId, clock, s4.ledger, s4.nextId, now);
  }

  /** Writing two wallets under two keys and then two entries stamped `now` keeps the store invariant. */
  lemma TwoWalletsTwoEntriesConsistent(s: Store, clock: nat, k1: string, w1: WalletRecord, k2: string,
                                       w2: WalletRecord, a: Entry, b: Entry, now: nat)
    requires Consistent(s, clock) && clock <= now && k1 != k2
    requires SavesUnder(s, k1, w1) && SavesUnder(s, k2, w2) && w1.tokenBalance >= 0 && w2.tokenBalance >= 0
    requires a.id.None? && b.id.None? && a.createdAt == now && b.createdAt == now
    ensures Consistent(SaveEntry(SaveEntry(SaveWallet(SaveWallet(s, w1).0, w2).0, a).0, b).0, now)
  {
    SaveTwoWallets(s, k1, w1, k2, w2);
    SaveWalletKeepsNonNegative(s, w1);
    SaveWalletKeepsNonNegative(SaveWallet(s, w1).0, w2);
    EntriesAfterWalletsConsistent(s, clock, SaveWallet(SaveWallet(s, w1).0, w2).0, a, b, now);
  }

  /** Writing one wallet under its key and then two entries stamped `now` keeps the store invariant. */
  lemma OneWalletTwoEntriesConsistent(s: Store, clock: nat, k: string, w: WalletRecord, a: Entry, b: Entry,
                                      now: nat)
    requires Consistent(s, clock) && clock <= now
    requires SavesUnder(s, k, w) && w.tokenBalance >= 0
    requires a.id.None? && b.id.None? && a.createdAt == now && b.createdAt == now
    ensures Consistent(SaveEntry(SaveEntry(SaveWallet(s, w).0, a).0, b).0, now)
  {
    SaveUnderKey(s, k, w);
    SaveWalletKeepsNonNegative(s, w);
    EntriesAfterWalletsConsistent(s, clock, SaveWallet(s, w).0, a, b, now);
  }
}
