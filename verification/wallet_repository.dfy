/**
 * The derived queries of repository/WalletRepository.java, as functions over
 * the stored wallets in their natural (insertion) order.
 *
 * The store's unique index on `userId` is the predicate `UniqueKeys`; the
 * queries are defined for any sequence, so that legacy duplicates (which the
 * service cleans up) can be represented. Where Spring Data would reject a
 * single-result query that matches several documents, these return the first.
 */
module WalletRepository {
  import opened Wrappers
  import opened Wallets
  import opened Sequences

  /** No two stored wallets share a key (the unique index on userId). */
  predicate UniqueKeys(ws: seq<WalletRecord>) {
    forall i, j :: 0 <= i < j < |ws| ==> ws[i].userId != ws[j].userId
  }

  function HasKey(k: string): WalletRecord -> bool {
    (w: WalletRecord) => w.userId == k
  }

  /** Position of the first stored wallet with key `k`. */
  function FirstIndexByUserId(ws: seq<WalletRecord>, k: string): (r: Option<nat>)
    ensures r.Some? ==> r.value < |ws| && ws[r.value].userId == k
    ensures r.Some? ==> forall j :: 0 <= j < r.value ==> ws[j].userId != k
    ensures r.None? <==> forall j :: 0 <= j < |ws| ==> ws[j].userId != k
  {
    FirstIndex(ws, HasKey(k))
  }

  /** findAllByUserId: every stored wallet with key `k`, in store order. */
  function FindAllByUserId(ws: seq<WalletRecord>, k: string): (r: seq<WalletRecord>)
    ensures forall w :: w in r <==> w in ws && w.userId == k
  {
    Filter(ws, HasKey(k))
  }

  /** findByUserId: the wallet with key `k`, if any. */
  function FindByUserId(ws: seq<WalletRecord>, k: string): (r: Option<WalletRecord>)
    ensures r.Some? <==> exists i :: 0 <= i < |ws| && ws[i].userId == k
    ensures r.Some? ==> r.value in ws && r.value.userId == k
  {
    match FirstIndexByUserId(ws, k)
    case Some(i) => Some(ws[i])
    case None => None
  }

  /** existsByUserId. */
  function ExistsByUserId(ws: seq<WalletRecord>, k: string): (b: bool)
    ensures b <==> exists i :: 0 <= i < |ws| && ws[i].userId == k
  {
    FindByUserId(ws, k).Some?
  }

  /** findByEmail: a stored wallet with email `e` (the first in store order), if any. */
  function FindByEmail(ws: seq<WalletRecord>, e: string): (r: Option<WalletRecord>)
    ensures r.Some? ==> r.value in ws && r.value.email == e
    ensures r.None? ==> forall w :: w in ws ==> w.email != e
  {
    FindFirst(ws, (w: WalletRecord) => w.email == e)
  }

  /** findByUserId returns the head of findAllByUserId: present exactly when that list is non-empty. */
  lemma {:induction false} FindByIsFirstOfFindAll(ws: seq<WalletRecord>, k: string)
    ensures FindByUserId(ws, k).Some? <==> FindAllByUserId(ws, k) != []
    ensures FindByUserId(ws, k).Some? ==> FindByUserId(ws, k).value == FindAllByUserId(ws, k)[0]
  {
    if ws != [] && ws[0].userId != k {
      FindByIsFirstOfFindAll(ws[1..], k);
      assert FirstIndexByUserId(ws, k) ==
        match FirstIndexByUserId(ws[1..], k) case Some(i) => Some(i + 1) case None => None;
    }
  }

  /** Under the unique index, findAllByUserId holds at most one wallet, so it is findByUserId's. */
  lemma {:induction false} UniqueKeyFindAll(ws: seq<WalletRecord>, k: string)
    requires UniqueKeys(ws)
    ensures FindAllByUserId(ws, k) == match FindByUserId(ws, k) case Some(w) => [w] case None => []
  {
    FindByIsFirstOfFindAll(ws, k);
    if ws != [] {
      UniqueKeyFindAll(ws[1..], k);
      FindByIsFirstOfFindAll(ws[1..], k);
    }
  }

  /** existsByUserId agrees with findByUserId. */
  lemma ExistsIffFound(ws: seq<WalletRecord>, k: string)
    ensures ExistsByUserId(ws, k) <==> FindByUserId(ws, k).Some?
  {
  }
}
