/**
 * A token wallet (model/Wallet.java): its persisted form `WalletRecord`, the
 * value-level rules for changing it, and the in-memory `Wallet` object whose
 * methods apply those rules in place.
 *
 * Timestamps are readings of an abstract clock (a nat) passed in as `now`;
 * money (`totalSpent`) is a real with no rounding.
 */
module Wallets {
  import opened Wrappers
  import opened Text

  const StudentSuffix := "-student"
  const TutorSuffix := "-tutor"

  /** The wallet key: the raw user id, a dash and the lower-cased role. */
  function WalletKey(actualUserId: string, role: string): string {
    actualUserId + "-" + ToLower(role)
  }

  /** The two roles the service names by fixed suffix get exactly those suffixes. */
  lemma RoleKeys(u: string)
    ensures WalletKey(u, "STUDENT") == u + StudentSuffix
    ensures WalletKey(u, "TUTOR") == u + TutorSuffix
  {
    var student, tutor := ToLower("STUDENT"), ToLower("TUTOR");
    forall i | 0 <= i < |student| ensures student[i] == "student"[i] { }
    forall i | 0 <= i < |tutor| ensures tutor[i] == "tutor"[i] { }
  }

  /** A student key and a tutor key are never equal, whatever the raw ids. */
  lemma StudentAndTutorKeysDiffer(u: string, v: string)
    ensures u + StudentSuffix != v + TutorSuffix
  {
    var a, b := u + StudentSuffix, v + TutorSuffix;
    assert a[|a| - 1] == 't';
    assert b[|b| - 1] == 'r';
  }

  /** A wallet document as the store holds it; `id` is absent until the store assigns one. */
  datatype WalletRecord = WalletRecord(
    id: Option<nat>,
    userId: string,
    actualUserId: string,
    role: string,
    email: string,
    tokenBalance: int,
    totalSpent: real,
    createdAt: nat,
    updatedAt: nat)

  /** The wallet `new Wallet(actualUserId, role, email)` builds. */
  function NewWallet(actualUserId: string, role: string, email: string, now: nat): WalletRecord {
    WalletRecord(None, WalletKey(actualUserId, role), actualUserId, role, email, 0, 0.0, now, now)
  }

  /** The wallet the legacy `new Wallet(userId, email)` builds: the id is kept as the key, role STUDENT. */
  function LegacyWallet(userId: string, email: string, now: nat): WalletRecord {
    WalletRecord(None, userId, userId, "STUDENT", email, 0, 0.0, now, now)
  }

  /** addTokens: a positive amount is credited and the wallet touched; otherwise nothing happens. */
  function AddedTokens(w: WalletRecord, tokens: int, now: nat): WalletRecord {
    if tokens > 0 then w.(tokenBalance := w.tokenBalance + tokens, updatedAt := now) else w
  }

  /** The guard of useTokens. */
  predicate CanUse(w: WalletRecord, tokens: int) {
    tokens > 0 && w.tokenBalance >= tokens
  }

  /** The wallet after a successful useTokens. */
  function UsedTokens(w: WalletRecord, tokens: int, now: nat): WalletRecord
    requires CanUse(w, tokens)
  {
    w.(tokenBalance := w.tokenBalance - tokens, updatedAt := now)
  }

  /** addToTotalSpent: a positive amount is added; otherwise nothing happens. */
  function AddedToTotalSpent(w: WalletRecord, amount: real, now: nat): WalletRecord {
    if amount > 0.0 then w.(totalSpent := w.totalSpent + amount, updatedAt := now) else w
  }

  /** Neither addTokens nor a successful useTokens can take a balance below zero. */
  lemma BalanceStaysNonNegative(w: WalletRecord, tokens: int, now: nat)
    requires w.tokenBalance >= 0
    ensures AddedTokens(w, tokens, now).tokenBalance >= w.tokenBalance
    ensures CanUse(w, tokens) ==> UsedTokens(w, tokens, now).tokenBalance >= 0
  {
  }

  /** A successful useTokens(n) followed by addTokens(n) gives the original balance back. */
  lemma UseThenAddRestores(w: WalletRecord, tokens: int, t1: nat, t2: nat)
    requires CanUse(w, tokens)
    ensures AddedTokens(UsedTokens(w, tokens, t1), tokens, t2) == w.(updatedAt := t2)
  {
  }

  /** addToTotalSpent never lowers the total spent. */
  lemma TotalSpentNeverDecreases(w: WalletRecord, amount: real, now: nat)
    ensures AddedToTotalSpent(w, amount, now).totalSpent >= w.totalSpent
    ensures amount <= 0.0 ==> AddedToTotalSpent(w, amount, now) == w
  {
  }

  /** The in-memory wallet object the service loads, changes and saves. */
  class Wallet {
    var id: Option<nat>
    var userId: string
    var actualUserId: string
    var role: string
    var email: string
    var tokenBalance: int
    var totalSpent: real
    var createdAt: nat
    var updatedAt: nat

    /** The document this object would be saved as. */
    function Record(): WalletRecord
      reads this
    {
      WalletRecord(id, userId, actualUserId, role, email, tokenBalance, totalSpent, createdAt, updatedAt)
    }

    /** new Wallet(actualUserId, role, email). */
    constructor Create(actualUserId: string, role: string, email: string, now: nat)
      ensures Record() == NewWallet(actualUserId, role, email, now)
      ensures userId == actualUserId + "-" + ToLower(role)
      ensures tokenBalance == 0 && totalSpent == 0.0 && id == None
    {
      this.id := None;
      this.actualUserId := actualUserId;
      this.role := role;
      this.userId := actualUserId + "-" + ToLower(role);
      this.email := email;
      this.tokenBalance := 0;
      this.totalSpent := 0.0;
      this.createdAt := now;
      this.updatedAt := now;
    }

    /** The legacy new Wallet(userId, email). */
    constructor Legacy(userId: string, email: string, now: nat)
      ensures Record() == LegacyWallet(userId, email, now)
      ensures this.userId == userId && role == "STUDENT" && tokenBalance == 0 && totalSpent == 0.0
    {
      this.id := None;
      this.userId := userId;
      this.actualUserId := userId;
      this.role := "STUDENT";
      this.email := email;
      this.tokenBalance := 0;
      this.totalSpent := 0.0;
      this.createdAt := now;
      this.updatedAt := now;
    }

    /** A fresh object holding a document read from the store. */
    constructor Load(r: WalletRecord)
      ensures Record() == r
    {
      id, userId, actualUserId, role, email := r.id, r.userId, r.actualUserId, r.role, r.email;
      tokenBalance, totalSpent, createdAt, updatedAt := r.tokenBalance, r.totalSpent, r.createdAt, r.updatedAt;
    }

    method AddTokens(tokens: int, now: nat)
      modifies this
      ensures Record() == AddedTokens(old(Record()), tokens, now)
      ensures tokens > 0 ==> tokenBalance == old(tokenBalance) + tokens
      ensures tokens <= 0 ==> Record() == old(Record())
    {
      if tokens > 0 {
        tokenBalance := tokenBalance + tokens;
        updatedAt := now;
      }
    }

    method UseTokens(tokens: int, now: nat) returns (ok: bool)
      modifies this
      ensures ok <==> tokens > 0 && old(tokenBalance) >= tokens
      ensures ok ==> Record() == UsedTokens(old(Record()), tokens, now)
      ensures ok ==> tokenBalance == old(tokenBalance) - tokens
      ensures !ok ==> Record() == old(Record())
    {
      if tokens > 0 && tokenBalance >= tokens {
        tokenBalance := tokenBalance - tokens;
        updatedAt := now;
        return true;
      }
      return false;
    }

    method AddToTotalSpent(amount: real, now: nat)
      modifies this
      ensures Record() == AddedToTotalSpent(old(Record()), amount, now)
      ensures totalSpent >= old(totalSpent)
    {
      if amount > 0.0 {
        totalSpent := totalSpent + amount;
        updatedAt := now;
      }
    }
  }
}
