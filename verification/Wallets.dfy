/** The in-memory wallet repository: wallets, their transactions, and an index for each. */
module Wallets {
  import opened Sums
  import Ledger

  type WalletId = nat
  type TransactionId = nat
  type Owner = Ledger.WalletKey

  datatype Wallet = Wallet(owner: Owner, balance: int, locked: int)

  datatype Transaction = Transaction(wallet: WalletId, credit: bool, amount: int, idempotencyKey: string)

  datatype Answer = Fine | NotFound | AlreadyExists | DuplicateID | InsufficientBalance | InsufficientLocked

  datatype Store = Store(
    byID: map<WalletId, Wallet>, idByKey: map<Owner, WalletId>,
    transactions: map<TransactionId, Transaction>, byIdempotency: map<(WalletId, string), TransactionId>)

  /** A refused call may still have changed the store: a credit opens the wallet first. */
  datatype Outcome = Outcome(store: Store, answer: Answer)

  const NO_WALLETS := Store(map[], map[], map[], map[])

  // ----- the operations -----

  function WithWallet(st: Store, id: WalletId, w: Wallet): Store {
    st.(byID := st.byID[id := w])
  }

  function CreateWallet(st: Store, id: WalletId, owner: Owner): Outcome {
    if owner in st.idByKey then Outcome(st, AlreadyExists)
    else if id in st.byID then Outcome(st, DuplicateID)
    else Outcome(Opened(st, id, owner), Fine)
  }

  /** The owner's wallet, opened under `id` if there was none. */
  function Opened(st: Store, id: WalletId, owner: Owner): Store {
    if owner in st.idByKey then st
    else st.(byID := st.byID[id := Wallet(owner, 0, 0)], idByKey := st.idByKey[owner := id])
  }

  function CreditWallet(st: Store, id: WalletId, owner: Owner, tx: TransactionId, amount: int, key: string): Outcome
    requires Indexed(st)
  {
    var s := Opened(st, id, owner);
    var wallet := s.idByKey[owner];
    if tx in s.transactions then Outcome(s, DuplicateID)
    else if key != "" && (wallet, key) in s.byIdempotency then Outcome(s, AlreadyExists)
    else Outcome(Credited(s, wallet, tx, amount, key), Fine)
  }

  function Credited(s: Store, wallet: WalletId, tx: TransactionId, amount: int, key: string): Store
    requires wallet in s.byID
  {
    Store(s.byID[wallet := s.byID[wallet].(balance := s.byID[wallet].balance + amount)], s.idByKey,
          s.transactions[tx := Transaction(wallet, true, amount, key)],
          if key == "" then s.byIdempotency else s.byIdempotency[(wallet, key) := tx])
  }

  function DebitWallet(st: Store, owner: Owner, tx: TransactionId, amount: int): Outcome
    requires Indexed(st)
  {
    if owner !in st.idByKey then Outcome(st, NotFound)
    else
      var wallet := st.idByKey[owner];
      var w := st.byID[wallet];
      if w.balance < amount then Outcome(st, InsufficientBalance)
      else if tx in st.transactions then Outcome(st, DuplicateID)
      else Outcome(WithWallet(st, wallet, w.(balance := w.balance - amount))
                     .(transactions := st.transactions[tx := Transaction(wallet, false, amount, "")]), Fine)
  }

  /** Moves cents from the balance to the locked balance. */
  function LockWallet(st: Store, owner: Owner, amount: int): Outcome
    requires Indexed(st)
  {
    if owner !in st.idByKey then Outcome(st, NotFound)
    else
      var wallet := st.idByKey[owner];
      var w := st.byID[wallet];
      if w.balance < amount then Outcome(st, InsufficientBalance)
      else Outcome(WithWallet(st, wallet, Wallet(w.owner, w.balance - amount, w.locked + amount)), Fine)
  }

  function UnlockWallet(st: Store, owner: Owner, amount: int): Outcome
    requires Indexed(st)
  {
    if owner !in st.idByKey then Outcome(st, NotFound)
    else
      var wallet := st.idByKey[owner];
      var w := st.byID[wallet];
      if w.locked < amount then Outcome(st, InsufficientLocked)
      else Outcome(WithWallet(st, wallet, Wallet(w.owner, w.balance + amount, w.locked - amount)), Fine)
  }

  // ----- what the store keeps -----

  /** The two wallet maps are inverse to each other. */
  ghost predicate MapsAgree(byID: map<WalletId, Wallet>, idByKey: map<Owner, WalletId>) {
    && (forall owner {:trigger idByKey[owner]} | owner in idByKey :: idByKey[owner] in byID && byID[idByKey[owner]].owner == owner)
    && (forall id {:trigger byID[id].owner} | id in byID :: byID[id].owner in idByKey && idByKey[byID[id].owner] == id)
  }

  ghost predicate Indexed(st: Store) {
    MapsAgree(st.byID, st.idByKey)
  }

  /** Generated wallet identifiers are new. */
  predicate FreshFor(st: Store, id: WalletId, owner: Owner) {
    owner in st.idByKey || id !in st.byID
  }

  /** The idempotency index holds exactly the keyed transactions. */
  ghost predicate KeysAgree(transactions: map<TransactionId, Transaction>, byIdempotency: map<(WalletId, string), TransactionId>) {
    && (forall tx | tx in transactions && transactions[tx].idempotencyKey != "" ::
          var x := transactions[tx];
          (x.wallet, x.idempotencyKey) in byIdempotency && byIdempotency[(x.wallet, x.idempotencyKey)] == tx)
    && (forall k | k in byIdempotency ::
          k.1 != "" && byIdempotency[k] in transactions
          && transactions[byIdempotency[k]].wallet == k.0 && transactions[byIdempotency[k]].idempotencyKey == k.1)
  }

  ghost function SignedAt(transactions: map<TransactionId, Transaction>, wallet: WalletId, tx: TransactionId): int {
    if tx in transactions && transactions[tx].wallet == wallet
    then (if transactions[tx].credit then transactions[tx].amount else -transactions[tx].amount) else 0
  }

  ghost function SignedFor(transactions: map<TransactionId, Transaction>, wallet: WalletId): TransactionId -> int {
    (tx: TransactionId) => SignedAt(transactions, wallet, tx)
  }

  /** Credits less debits of a wallet. */
  ghost function Recorded(transactions: map<TransactionId, Transaction>, wallet: WalletId): int {
    Sum(transactions.Keys, SignedFor(transactions, wallet))
  }

  ghost predicate Reconciled(st: Store, id: WalletId)
    requires id in st.byID
  {
    var w := st.byID[id];
    w.balance >= 0 && w.locked >= 0 && w.balance + w.locked == Recorded(st.transactions, id)
  }

  ghost predicate StoreInv(st: Store) {
    && Indexed(st) && KeysAgree(st.transactions, st.byIdempotency)
    && (forall tx | tx in st.transactions :: st.transactions[tx].wallet in st.byID)
    && (forall id {:trigger Reconciled(st, id)} | id in st.byID :: Reconciled(st, id))
  }

  lemma RecordedMore(transactions: map<TransactionId, Transaction>, tx: TransactionId, x: Transaction, wallet: WalletId)
    requires tx !in transactions
    ensures Recorded(transactions[tx := x], wallet)
         == Recorded(transactions, wallet) + (if x.wallet != wallet then 0 else if x.credit then x.amount else -x.amount)
  {
    assert transactions[tx := x].Keys == transactions.Keys + {tx};
    SumInserted<TransactionId>(transactions.Keys, SignedFor(transactions, wallet), SignedFor(transactions[tx := x], wallet), tx);
  }

  lemma NothingRecorded(st: Store, wallet: WalletId)
    requires StoreInv(st) && wallet !in st.byID
    ensures Recorded(st.transactions, wallet) == 0
  {
    SumZero(st.transactions.Keys, SignedFor(st.transactions, wallet));
  }

  lemma OpenedIndexed(byID: map<WalletId, Wallet>, idByKey: map<Owner, WalletId>, id: WalletId, owner: Owner)
    requires MapsAgree(byID, idByKey) && id !in byID && owner !in idByKey
    ensures MapsAgree(byID[id := Wallet(owner, 0, 0)], idByKey[owner := id])
  {
  }

  lemma OpenedInv(st: Store, id: WalletId, owner: Owner)
    requires StoreInv(st) && FreshFor(st, id, owner)
    ensures StoreInv(Opened(st, id, owner))
  {
    var s := Opened(st, id, owner);
    if owner !in st.idByKey { OpenedIndexed(st.byID, st.idByKey, id, owner); }
    hide MapsAgree, KeysAgree, Recorded;
    forall w | w in s.byID ensures Reconciled(s, w) {
      if w in st.byID { assert Reconciled(st, w); } else { NothingRecorded(st, w); }
    }
  }

  /** One wallet's row changes hands of money, not of owner. */
  lemma RowChangeAgrees(byID: map<WalletId, Wallet>, idByKey: map<Owner, WalletId>, id: WalletId, w: Wallet)
    requires MapsAgree(byID, idByKey) && id in byID && w.owner == byID[id].owner
    ensures MapsAgree(byID[id := w], idByKey)
  {
  }

  lemma NewTransactionAgrees(transactions: map<TransactionId, Transaction>, byIdempotency: map<(WalletId, string), TransactionId>,
                             tx: TransactionId, x: Transaction)
    requires KeysAgree(transactions, byIdempotency) && tx !in transactions
    requires (x.wallet, x.idempotencyKey) !in byIdempotency
    ensures KeysAgree(transactions[tx := x], if x.idempotencyKey == "" then byIdempotency else byIdempotency[(x.wallet, x.idempotencyKey) := tx])
  {
  }

  /** One wallet moved by `d`, with a transaction of exactly `d` when `d` is not zero. */
  ghost predicate Moved(st: Store, r: Store, id: WalletId, d: int) {
    && id in st.byID && r.byID.Keys == st.byID.Keys
    && (forall w | w in st.byID && w != id :: r.byID[w] == st.byID[w])
    && r.byID[id].balance >= 0 && r.byID[id].locked >= 0
    && r.byID[id].balance + r.byID[id].locked == st.byID[id].balance + st.byID[id].locked + d
    && (forall w {:trigger Recorded(r.transactions, w)} | w in st.byID ::
          Recorded(r.transactions, w) == Recorded(st.transactions, w) + (if w == id then d else 0))
  }

  lemma MovedReconciled(st: Store, r: Store, id: WalletId, d: int)
    requires (forall w {:trigger Reconciled(st, w)} | w in st.byID :: Reconciled(st, w)) && Moved(st, r, id, d)
    ensures forall w {:trigger Reconciled(r, w)} | w in r.byID :: Reconciled(r, w)
  {
    forall w | w in r.byID ensures Reconciled(r, w) {
      assert Reconciled(st, w);
    }
  }

  /** A new transaction of the wallet it moves. */
  lemma RecordedInv(st: Store, r: Store, id: WalletId, row: Wallet, tx: TransactionId, x: Transaction)
    requires StoreInv(st) && id in st.byID && tx !in st.transactions && x.wallet == id
    requires (id, x.idempotencyKey) !in st.byIdempotency
    requires r == Store(st.byID[id := row], st.idByKey, st.transactions[tx := x],
                        if x.idempotencyKey == "" then st.byIdempotency else st.byIdempotency[(id, x.idempotencyKey) := tx])
    requires row.owner == st.byID[id].owner && row.balance >= 0 && row.locked == st.byID[id].locked
    requires row.balance == st.byID[id].balance + (if x.credit then x.amount else -x.amount)
    ensures StoreInv(r)
  {
    RowChangeAgrees(st.byID, st.idByKey, id, row);
    NewTransactionAgrees(st.transactions, st.byIdempotency, tx, x);
    hide MapsAgree, KeysAgree;
    RecordedMoves(st, r, id, tx, x);
    MovedReconciled(st, r, id, if x.credit then x.amount else -x.amount);
  }

  lemma RecordedMoves(st: Store, r: Store, id: WalletId, tx: TransactionId, x: Transaction)
    requires id in st.byID && Reconciled(st, id) && tx !in st.transactions && x.wallet == id
    requires id in r.byID && r.byID == st.byID[id := r.byID[id]] && r.transactions == st.transactions[tx := x]
    requires r.byID[id].balance >= 0 && r.byID[id].locked == st.byID[id].locked
    requires r.byID[id].balance == st.byID[id].balance + (if x.credit then x.amount else -x.amount)
    ensures Moved(st, r, id, if x.credit then x.amount else -x.amount)
  {
    forall w | w in st.byID
      ensures Recorded(r.transactions, w) == Recorded(st.transactions, w) + (if w == id then (if x.credit then x.amount else -x.amount) else 0)
    {
      RecordedMore(st.transactions, tx, x, w);
    }
  }

  lemma CreditInv(st: Store, id: WalletId, owner: Owner, tx: TransactionId, amount: int, key: string)
    requires StoreInv(st) && FreshFor(st, id, owner) && amount > 0
    ensures StoreInv(CreditWallet(st, id, owner, tx, amount, key).store)
  {
    var s, r := Opened(st, id, owner), CreditWallet(st, id, owner, tx, amount, key);
    OpenedInv(st, id, owner);
    if r.answer.Fine? {
      var wallet := s.idByKey[owner];
      assert Reconciled(s, wallet);
      assert (wallet, "") !in s.byIdempotency;
      hide Recorded;
      RecordedInv(s, r.store, wallet, r.store.byID[wallet], tx, Transaction(wallet, true, amount, key));
    }
  }

  /** A credit under a wallet identifier another owner's wallet already has overwrites that
      wallet; under any other it keeps everything the store keeps. */
  lemma CreditKeepsExactly(st: Store, id: WalletId, owner: Owner, tx: TransactionId, amount: int, key: string)
    requires StoreInv(st) && amount > 0
    ensures StoreInv(CreditWallet(st, id, owner, tx, amount, key).store) <==> FreshFor(st, id, owner)
  {
    if FreshFor(st, id, owner) {
      CreditInv(st, id, owner, tx, amount, key);
    } else {
      hide KeysAgree, Reconciled;
      var r, other := CreditWallet(st, id, owner, tx, amount, key).store, st.byID[id].owner;
      assert st.idByKey[other] == id;
      assert r.idByKey[other] == id && r.byID[id].owner == owner;
    }
  }

  /** The key was already credited to the owner's wallet. */
  predicate Spent(st: Store, owner: Owner, key: string) {
    key != "" && owner in st.idByKey && (st.idByKey[owner], key) in st.byIdempotency
  }

  /** The owner's wallet, `id` if there was none, has gained the amount under this transaction
      and key, and nothing else has changed. */
  ghost predicate Gained(st: Store, r: Store, id: WalletId, owner: Owner, tx: TransactionId, amount: int, key: string)
    requires Indexed(st)
  {
    var wallet := if owner in st.idByKey then st.idByKey[owner] else id;
    var before := if owner in st.idByKey then st.byID[wallet] else Wallet(owner, 0, 0);
    && r.idByKey == st.idByKey[owner := wallet]
    && r.byID == st.byID[wallet := Wallet(owner, before.balance + amount, before.locked)]
    && r.transactions == st.transactions[tx := Transaction(wallet, true, amount, key)]
    && Spent(r, owner, key) == (key != "")
    && forall k | k != (wallet, key) :: k in r.byIdempotency <==> k in st.byIdempotency
  }

  lemma CreditShape(st: Store, id: WalletId, owner: Owner, tx: TransactionId, amount: int, key: string)
    requires StoreInv(st)
    ensures Indexed(st)
    ensures var s := Opened(st, id, owner);
            && owner in s.idByKey && s.idByKey[owner] in s.byID
            && CreditWallet(st, id, owner, tx, amount, key) ==
               if tx in s.transactions then Outcome(s, DuplicateID)
               else if key != "" && (s.idByKey[owner], key) in s.byIdempotency then Outcome(s, AlreadyExists)
               else Outcome(Credited(s, s.idByKey[owner], tx, amount, key), Fine)
  {
    hide KeysAgree, Reconciled, Credited;
  }

  lemma CreditCases(st: Store, id: WalletId, owner: Owner, tx: TransactionId, amount: int, key: string)
    requires StoreInv(st) && FreshFor(st, id, owner)
    ensures var r := CreditWallet(st, id, owner, tx, amount, key);
            && (tx in st.transactions ==> r == Outcome(Opened(st, id, owner), DuplicateID))
            && (tx !in st.transactions && Spent(st, owner, key) ==> r == Outcome(st, AlreadyExists))
            && (tx !in st.transactions && !Spent(st, owner, key) ==> r.answer == Fine && Gained(st, r.store, id, owner, tx, amount, key))
  {
    hide Reconciled;
    assert owner !in st.idByKey ==> (id, key) !in st.byIdempotency;
  }

  lemma DebitInv(st: Store, owner: Owner, tx: TransactionId, amount: int)
    requires StoreInv(st) && amount > 0
    ensures StoreInv(DebitWallet(st, owner, tx, amount).store)
  {
    var r := DebitWallet(st, owner, tx, amount);
    if r.answer.Fine? {
      var wallet := st.idByKey[owner];
      assert (wallet, "") !in st.byIdempotency;
      hide Recorded;
      RecordedInv(st, r.store, wallet, r.store.byID[wallet], tx, Transaction(wallet, false, amount, ""));
    }
  }

  // ----- what each call answers and leaves, column by column -----

  /** A debit takes exactly its amount from the owner's balance and records exactly that; each
      refusal has its one cause, looked for in this order, and changes nothing. */
  lemma DebitCases(st: Store, owner: Owner, tx: TransactionId, amount: int)
    requires StoreInv(st)
    ensures var r := DebitWallet(st, owner, tx, amount);
            if owner !in st.idByKey then r == Outcome(st, NotFound)
            else
              var id := st.idByKey[owner];
              id in st.byID
              && if st.byID[id].balance < amount then r == Outcome(st, InsufficientBalance)
                 else if tx in st.transactions then r == Outcome(st, DuplicateID)
                 else
                   && r.answer == Fine && r.store.idByKey == st.idByKey && r.store.byIdempotency == st.byIdempotency
                   && r.store.transactions == st.transactions[tx := Transaction(id, false, amount, "")]
                   && r.store.byID == st.byID[id := Wallet(owner, st.byID[id].balance - amount, st.byID[id].locked)]
  {
    hide KeysAgree, Reconciled;
  }

  /** A lock moves exactly its amount from the balance to the locked balance. */
  lemma LockCases(st: Store, owner: Owner, amount: int)
    requires StoreInv(st)
    ensures var r := LockWallet(st, owner, amount);
            if owner !in st.idByKey then r == Outcome(st, NotFound)
            else
              var id := st.idByKey[owner];
              id in st.byID
              && if st.byID[id].balance < amount then r == Outcome(st, InsufficientBalance)
                 else r == Outcome(Store(st.byID[id := Wallet(owner, st.byID[id].balance - amount, st.byID[id].locked + amount)],
                                         st.idByKey, st.transactions, st.byIdempotency), Fine)
  {
    hide KeysAgree, Reconciled;
  }

  /** An unlock moves it back. */
  lemma UnlockCases(st: Store, owner: Owner, amount: int)
    requires StoreInv(st)
    ensures var r := UnlockWallet(st, owner, amount);
            if owner !in st.idByKey then r == Outcome(st, NotFound)
            else
              var id := st.idByKey[owner];
              id in st.byID
              && if st.byID[id].locked < amount then r == Outcome(st, InsufficientLocked)
                 else r == Outcome(Store(st.byID[id := Wallet(owner, st.byID[id].balance + amount, st.byID[id].locked - amount)],
                                         st.idByKey, st.transactions, st.byIdempotency), Fine)
  {
    hide KeysAgree, Reconciled;
  }

  /** Moving cents between the two parts of one wallet. */
  lemma ShiftInv(st: Store, id: WalletId, row: Wallet)
    requires StoreInv(st) && id in st.byID && row.owner == st.byID[id].owner && row.balance >= 0 && row.locked >= 0
    requires row.balance + row.locked == st.byID[id].balance + st.byID[id].locked
    ensures StoreInv(WithWallet(st, id, row))
  {
    RowChangeAgrees(st.byID, st.idByKey, id, row);
    hide MapsAgree, KeysAgree, Recorded;
    MovedReconciled(st, WithWallet(st, id, row), id, 0);
  }

  lemma LockInv(st: Store, owner: Owner, amount: int)
    requires StoreInv(st) && amount > 0
    ensures StoreInv(LockWallet(st, owner, amount).store) && StoreInv(UnlockWallet(st, owner, amount).store)
  {
    if owner in st.idByKey {
      var id := st.idByKey[owner];
      var w := st.byID[id];
      assert Reconciled(st, id);
      hide StoreInv, Recorded, MapsAgree;
      if w.balance >= amount { ShiftInv(st, id, Wallet(w.owner, w.balance - amount, w.locked + amount)); }
      if w.locked >= amount { ShiftInv(st, id, Wallet(w.owner, w.balance + amount, w.locked - amount)); }
    }
  }

  /** Unlocking what was locked restores the store, and nothing but that wallet had moved. */
  lemma LockIsUndone(st: Store, owner: Owner, amount: int)
    requires StoreInv(st) && amount > 0 && LockWallet(st, owner, amount).answer.Fine?
    ensures var r := LockWallet(st, owner, amount).store;
            && StoreInv(r) && owner in st.idByKey
            && UnlockWallet(r, owner, amount) == Outcome(st, Fine)
            && r.byID[st.idByKey[owner]].locked == st.byID[st.idByKey[owner]].locked + amount
  {
    LockInv(st, owner, amount);
    var id := st.idByKey[owner];
    assert Reconciled(st, id);
    var w := st.byID[id];
    assert st.byID[id := Wallet(w.owner, w.balance - amount, w.locked + amount)][id := w] == st.byID;
  }

  // ----- the repository -----

  class MemoryRepository {
    var byID: map<WalletId, Wallet>
    var idByKey: map<Owner, WalletId>
    var transactions: map<TransactionId, Transaction>
    var transactionByIdempotency: map<(WalletId, string), TransactionId>

    ghost function Now(): Store
      reads this
    {
      Store(byID, idByKey, transactions, transactionByIdempotency)
    }

    ghost predicate Valid()
      reads this
    {
      StoreInv(Now())
    }

    constructor ()
      ensures Valid() && Now() == NO_WALLETS
    {
      byID, idByKey, transactions, transactionByIdempotency := map[], map[], map[], map[];
    }

    method Create(id: WalletId, owner: Owner) returns (answer: Answer)
      requires Valid()
      modifies this
      ensures Valid() && Outcome(Now(), answer) == CreateWallet(old(Now()), id, owner)
      ensures answer == if owner in old(idByKey) then AlreadyExists else if id in old(byID) then DuplicateID else Fine
      ensures answer != Fine ==> Now() == old(Now())
      ensures answer == Fine ==>
                && byID == old(byID)[id := Wallet(owner, 0, 0)] && idByKey == old(idByKey)[owner := id]
                && transactions == old(transactions) && transactionByIdempotency == old(transactionByIdempotency)
    {
      if owner in idByKey {
        return AlreadyExists;
      }
      if id in byID {
        return DuplicateID;
      }
      OpenedInv(Now(), id, owner);
      byID := byID[id := Wallet(owner, 0, 0)];
      idByKey := idByKey[owner := id];
      return Fine;
    }

    /** Finds the owner's wallet, or opens one. */
    method WalletFor(id: WalletId, owner: Owner) returns (walletID: WalletId)
      requires Valid()
      modifies this
      ensures Now() == Opened(old(Now()), id, owner)
      ensures owner in idByKey && walletID == idByKey[owner] && walletID in byID
    {
      walletID := id;
      if owner in idByKey {
        walletID := idByKey[owner];
      } else {
        byID := byID[walletID := Wallet(owner, 0, 0)];
        idByKey := idByKey[owner := walletID];
      }
    }

    method Credit(id: WalletId, owner: Owner, tx: TransactionId, amount: int, key: string) returns (answer: Answer)
      requires Valid() && amount > 0
      modifies this
      ensures Outcome(Now(), answer) == CreditWallet(old(Now()), id, owner, tx, amount, key)
      ensures Valid() <==> old(FreshFor(Now(), id, owner))
    {
      ghost var was := Now();
      CreditKeepsExactly(was, id, owner, tx, amount, key);
      CreditShape(was, id, owner, tx, amount, key);
      hide StoreInv, Indexed, Opened, FreshFor, CreditWallet;
      var walletID := WalletFor(id, owner);
      ghost var s := Now();
      if tx in transactions {
        return DuplicateID;
      }
      if key != "" {
        if (walletID, key) in transactionByIdempotency {
          return AlreadyExists;
        }
        transactionByIdempotency := transactionByIdempotency[(walletID, key) := tx];
      }
      var stored := byID[walletID];
      byID := byID[walletID := stored.(balance := stored.balance + amount)];
      transactions := transactions[tx := Transaction(walletID, true, amount, key)];
      assert Now() == Credited(s, walletID, tx, amount, key);
      return Fine;
    }

    method Debit(owner: Owner, tx: TransactionId, amount: int) returns (answer: Answer)
      requires Valid() && amount > 0
      modifies this
      ensures Valid() && Outcome(Now(), answer) == DebitWallet(old(Now()), owner, tx, amount)
      ensures answer == if owner !in old(idByKey) then NotFound
                        else if old(byID[idByKey[owner]].balance) < amount then InsufficientBalance
                        else if tx in old(transactions) then DuplicateID
                        else Fine
      ensures answer != Fine ==> Now() == old(Now())
      ensures answer == Fine ==>
                var id, w := old(idByKey[owner]), old(byID[idByKey[owner]]);
                && byID == old(byID)[id := Wallet(owner, w.balance - amount, w.locked)] && idByKey == old(idByKey)
                && transactions == old(transactions)[tx := Transaction(id, false, amount, "")]
                && transactionByIdempotency == old(transactionByIdempotency)
    {
      DebitInv(Now(), owner, tx, amount);
      DebitCases(Now(), owner, tx, amount);
      assert owner in idByKey ==> idByKey[owner] in byID;
      hide StoreInv, Indexed;
      if owner !in idByKey {
        return NotFound;
      }
      var walletID := idByKey[owner];
      var stored := byID[walletID];
      if stored.balance < amount {
        return InsufficientBalance;
      }
      if tx in transactions {
        return DuplicateID;
      }
      byID := byID[walletID := stored.(balance := stored.balance - amount)];
      transactions := transactions[tx := Transaction(walletID, false, amount, "")];
      return Fine;
    }

    method Lock(owner: Owner, amount: int) returns (answer: Answer)
      requires Valid() && amount > 0
      modifies this
      ensures Valid() && Outcome(Now(), answer) == LockWallet(old(Now()), owner, amount)
      ensures answer == if owner !in old(idByKey) then NotFound
                        else if old(byID[idByKey[owner]].balance) < amount then InsufficientBalance
                        else Fine
      ensures answer != Fine ==> Now() == old(Now())
      ensures answer == Fine ==>
                var id, w := old(idByKey[owner]), old(byID[idByKey[owner]]);
                && byID == old(byID)[id := Wallet(owner, w.balance - amount, w.locked + amount)] && idByKey == old(idByKey)
                && transactions == old(transactions) && transactionByIdempotency == old(transactionByIdempotency)
    {
      LockInv(Now(), owner, amount);
      LockCases(Now(), owner, amount);
      assert owner in idByKey ==> idByKey[owner] in byID;
      hide StoreInv, Indexed;
      if owner !in idByKey {
        return NotFound;
      }
      var stored := byID[idByKey[owner]];
      if stored.balance < amount {
        return InsufficientBalance;
      }
      byID := byID[idByKey[owner] := stored.(balance := stored.balance - amount, locked := stored.locked + amount)];
      return Fine;
    }

    method Unlock(owner: Owner, amount: int) returns (answer: Answer)
      requires Valid() && amount > 0
      modifies this
      ensures Valid() && Outcome(Now(), answer) == UnlockWallet(old(Now()), owner, amount)
      ensures answer == if owner !in old(idByKey) then NotFound
                        else if old(byID[idByKey[owner]].locked) < amount then InsufficientLocked
                        else Fine
      ensures answer != Fine ==> Now() == old(Now())
      ensures answer == Fine ==>
                var id, w := old(idByKey[owner]), old(byID[idByKey[owner]]);
                && byID == old(byID)[id := Wallet(owner, w.balance + amount, w.locked - amount)] && idByKey == old(idByKey)
                && transactions == old(transactions) && transactionByIdempotency == old(transactionByIdempotency)
    {
      LockInv(Now(), owner, amount);
      UnlockCases(Now(), owner, amount);
      assert owner in idByKey ==> idByKey[owner] in byID;
      hide StoreInv, Indexed;
      if owner !in idByKey {
        return NotFound;
      }
      var stored := byID[idByKey[owner]];
      if stored.locked < amount {
        return InsufficientLocked;
      }
      byID := byID[idByKey[owner] := stored.(locked := stored.locked - amount, balance := stored.balance + amount)];
      return Fine;
    }

    /** The service's credit under a new wallet identifier: a repeated key changes nothing and
        is a success, a known transaction credits nothing, anything else is credited once. */
    method CreditWithIdempotency(id: WalletId, owner: Owner, tx: TransactionId, amount: int, key: string) returns (answer: Answer)
      requires Valid() && FreshFor(Now(), id, owner) && amount > 0
      modifies this
      ensures Valid() && (answer == Fine || answer == DuplicateID)
      ensures answer == DuplicateID <==> old(tx in transactions)
      ensures answer == DuplicateID ==> Now() == Opened(old(Now()), id, owner)
      ensures answer == Fine && Spent(old(Now()), owner, key) ==> Now() == old(Now())
      ensures answer == Fine && !Spent(old(Now()), owner, key) ==> Gained(old(Now()), Now(), id, owner, tx, amount, key)
    {
      CreditCases(Now(), id, owner, tx, amount, key);
      hide StoreInv, Gained, Opened, CreditWallet;
      answer := Credit(id, owner, tx, amount, key);
      if key != "" && answer == AlreadyExists {
        answer := Fine;
      }
    }
  }

  // ----- whole runs -----

  datatype Op =
    | OpCreate(id: WalletId, owner: Owner)
    | OpCredit(id: WalletId, owner: Owner, tx: TransactionId, amount: int, key: string)
    | OpDebit(owner: Owner, tx: TransactionId, amount: int)
    | OpLock(owner: Owner, amount: int)
    | OpUnlock(owner: Owner, amount: int)

  /** A validated call, with new identifiers. */
  ghost predicate Admitted(st: Store, op: Op) {
    match op
    case OpCreate(_, _) => true
    case OpCredit(id, owner, _, amount, _) => amount > 0 && FreshFor(st, id, owner)
    case OpDebit(_, _, amount) => amount > 0
    case OpLock(_, amount) => amount > 0
    case OpUnlock(_, amount) => amount > 0
  }

  ghost function After(st: Store, op: Op): Store
    requires StoreInv(st)
  {
    if !Admitted(st, op) then st
    else
      match op
      case OpCreate(id, owner) => CreateWallet(st, id, owner).store
      case OpCredit(id, owner, tx, amount, key) => CreditWallet(st, id, owner, tx, amount, key).store
      case OpDebit(owner, tx, amount) => DebitWallet(st, owner, tx, amount).store
      case OpLock(owner, amount) => LockWallet(st, owner, amount).store
      case OpUnlock(owner, amount) => UnlockWallet(st, owner, amount).store
  }

  /** Wallets keep their identifiers and spent keys stay spent. */
  ghost predicate Remembers(a: Store, b: Store) {
    && (forall owner | owner in a.idByKey :: owner in b.idByKey && b.idByKey[owner] == a.idByKey[owner])
    && (forall k | k in a.byIdempotency :: k in b.byIdempotency && b.byIdempotency[k] == a.byIdempotency[k])
    && (forall tx | tx in a.transactions :: tx in b.transactions && b.transactions[tx] == a.transactions[tx])
  }

  lemma AfterKeeps(st: Store, op: Op)
    requires StoreInv(st)
    ensures StoreInv(After(st, op))
  {
    if Admitted(st, op) {
      match op
      case OpCreate(id, owner) => if FreshFor(st, id, owner) { OpenedInv(st, id, owner); }
      case OpCredit(id, owner, tx, amount, key) => CreditInv(st, id, owner, tx, amount, key);
      case OpDebit(owner, tx, amount) => DebitInv(st, owner, tx, amount);
      case OpLock(owner, amount) => LockInv(st, owner, amount);
      case OpUnlock(owner, amount) => LockInv(st, owner, amount);
    }
    hide StoreInv, CreditWallet, DebitWallet, LockWallet, UnlockWallet;
  }

  lemma AfterRemembers(st: Store, op: Op)
    requires StoreInv(st)
    ensures Remembers(st, After(st, op))
  {
    hide Reconciled, KeysAgree, MapsAgree;
  }

  lemma AfterInv(st: Store, op: Op)
    requires StoreInv(st)
    ensures StoreInv(After(st, op)) && Remembers(st, After(st, op))
  {
    AfterKeeps(st, op);
    AfterRemembers(st, op);
  }

  ghost function Run(st: Store, ops: seq<Op>): Store
    requires StoreInv(st)
    decreases |ops|
  {
    if ops == [] then st
    else
      AfterInv(st, ops[0]);
      Run(After(st, ops[0]), ops[1..])
  }

  /** Over every run each wallet owns exactly its credits less its debits, in two
      non-negative parts, and all indexes agree with the rows. */
  lemma {:induction false} RunInv(st: Store, ops: seq<Op>)
    requires StoreInv(st)
    ensures StoreInv(Run(st, ops)) && Remembers(st, Run(st, ops))
    decreases |ops|
  {
    if ops != [] {
      AfterInv(st, ops[0]);
      RunInv(After(st, ops[0]), ops[1..]);
    }
  }

  /** A credit that went through is never applied again under the same key, whatever
      happened in between and whatever the repeated call asks for. */
  lemma RepeatedCreditIsNoOp(st: Store, id: WalletId, owner: Owner, tx: TransactionId, amount: int, key: string,
                             ops: seq<Op>, id': WalletId, tx': TransactionId, amount': int)
    requires StoreInv(st) && FreshFor(st, id, owner) && amount > 0 && key != ""
    requires CreditWallet(st, id, owner, tx, amount, key).answer == Fine
    ensures StoreInv(CreditWallet(st, id, owner, tx, amount, key).store)
    ensures var later := Run(CreditWallet(st, id, owner, tx, amount, key).store, ops);
            Indexed(later)
            && (tx' !in later.transactions ==> CreditWallet(later, id', owner, tx', amount', key) == Outcome(later, AlreadyExists))
            && (tx' in later.transactions ==> CreditWallet(later, id', owner, tx', amount', key) == Outcome(later, DuplicateID))
  {
    CreditInv(st, id, owner, tx, amount, key);
    RunInv(CreditWallet(st, id, owner, tx, amount, key).store, ops);
  }
}
