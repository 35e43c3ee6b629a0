/** The ledger of pkg/wallet/service.go as a state machine on values: the state
    of a `Service` (its NextAccountID and its three slices) and, for each of its
    operations, the new state and the result it returns. The class WalletService.Service
    implements these with the source's loops; the lemmas here state what the
    operations promise and how they combine. */
module Ledger {
  import opened Types
  import opened Text
  import opened Partition

  /** The package's error values (service.go:18-24), plus the two ways a dump
      line can be rejected by the importers. */
  datatype Error =
    | PhoneRegistered
    | AmountMustBePositive
    | AccountNotFound
    | NotEnoughBalance
    | PaymentNotFound
    | FavoriteNotFound
    | InvalidNumber    // strconv reports a field that is not an int64
    | MalformedRecord  // a line with too few ';'-separated fields (Go panics here)

  datatype Result<T> = Ok(value: T) | Err(error: Error)

  /** The fields of a Service. */
  datatype Wallet = Wallet(
    nextAccountID: Int64,
    accounts: seq<Account>,
    payments: seq<Payment>,
    favorites: seq<Favorite>)

  /** The state after an operation, with what the operation returned. */
  datatype Step<T> = Step(wallet: Wallet, result: Result<T>)

  const Empty := Wallet(0, [], [], [])

  // ----- lookups -----

  /** The position of the FIRST account with this ID (FindAccountByID, Deposit
      and Pay stop at the first match). */
  function FindAccountIndex(accounts: seq<Account>, id: int): (r: Option<nat>)
    ensures r.Some? ==> r.value < |accounts| && accounts[r.value].id == id
    ensures r.Some? ==> forall j :: 0 <= j < r.value ==> accounts[j].id != id
    ensures r.None? <==> forall j :: 0 <= j < |accounts| ==> accounts[j].id != id
  {
    if accounts == [] then None
    else if accounts[0].id == id then Some(0)
    else match FindAccountIndex(accounts[1..], id)
      case None => None
      case Some(k) => Some(k + 1)
  }

  /** The position of the LAST payment with this ID: FindPaymentByID has no
      `break`, so a later match overwrites an earlier one. */
  function FindPaymentIndex(payments: seq<Payment>, id: string): (r: Option<nat>)
    ensures r.Some? ==> r.value < |payments| && payments[r.value].id == id
    ensures r.Some? ==> forall j :: r.value < j < |payments| ==> payments[j].id != id
    ensures r.None? <==> forall j :: 0 <= j < |payments| ==> payments[j].id != id
  {
    if payments == [] then None
    else if payments[|payments| - 1].id == id then Some(|payments| - 1)
    else FindPaymentIndex(payments[..|payments| - 1], id)
  }

  /** The position of the FIRST favorite with this ID. */
  function FindFavoriteIndex(favorites: seq<Favorite>, id: string): (r: Option<nat>)
    ensures r.Some? ==> r.value < |favorites| && favorites[r.value].id == id
    ensures r.Some? ==> forall j :: 0 <= j < r.value ==> favorites[j].id != id
    ensures r.None? <==> forall j :: 0 <= j < |favorites| ==> favorites[j].id != id
  {
    if favorites == [] then None
    else if favorites[0].id == id then Some(0)
    else match FindFavoriteIndex(favorites[1..], id)
      case None => None
      case Some(k) => Some(k + 1)
  }

  predicate PhoneTaken(accounts: seq<Account>, phone: Phone)
  {
    exists k | 0 <= k < |accounts| :: accounts[k].phone == phone
  }

  // ----- operations -----

  /** RegisterAccount (service.go:37-52). */
  function RegisterAccount(w: Wallet, phone: Phone): (s: Step<Account>)
    ensures PhoneTaken(w.accounts, phone) ==> s == Step(w, Err(PhoneRegistered))
    ensures !PhoneTaken(w.accounts, phone) ==>
              && s.result.Ok?
              && s.wallet.nextAccountID == Wrap64(w.nextAccountID + 1)
              && s.wallet.accounts == w.accounts + [s.result.value]
              && s.result.value == Account(s.wallet.nextAccountID, phone, 0)
              && s.wallet.payments == w.payments && s.wallet.favorites == w.favorites
  {
    if PhoneTaken(w.accounts, phone) then Step(w, Err(PhoneRegistered))
    else
      var id := Wrap64(w.nextAccountID + 1);
      var account := Account(id, phone, 0);
      Step(w.(nextAccountID := id, accounts := w.accounts + [account]), Ok(account))
  }

  /** Deposit (service.go:56-75): the amount check comes before the account
      lookup; on success only the first account with that ID changes, by
      +amount in int64 arithmetic. */
  function Deposit(w: Wallet, accountID: Int64, amount: Money): (s: Step<()>)
    ensures amount <= 0 ==> s == Step(w, Err(AmountMustBePositive))
    ensures amount > 0 && FindAccountIndex(w.accounts, accountID).None? ==>
              s == Step(w, Err(AccountNotFound))
    ensures amount > 0 && FindAccountIndex(w.accounts, accountID).Some? ==>
              var k := FindAccountIndex(w.accounts, accountID).value;
              && s.result.Ok?
              && |s.wallet.accounts| == |w.accounts|
              && s.wallet.accounts[k] == w.accounts[k].(balance := Wrap64(w.accounts[k].balance + amount))
              && (forall j :: 0 <= j < |w.accounts| && j != k ==> s.wallet.accounts[j] == w.accounts[j])
              && s.wallet.(accounts := w.accounts) == w
  {
    if amount <= 0 then Step(w, Err(AmountMustBePositive))
    else match FindAccountIndex(w.accounts, accountID)
      case None => Step(w, Err(AccountNotFound))
      case Some(k) =>
        var acc := w.accounts[k];
        Step(w.(accounts := w.accounts[k := acc.(balance := Wrap64(acc.balance + amount))]), Ok(()))
  }

  /** Pay (service.go:79-109); `paymentID` stands for the fresh uuid. Checks in
      order: amount, account, balance. On success the account's balance drops by
      exactly `amount` (this cannot overflow) and one INPROGRESS payment is
      appended. */
  function Pay(w: Wallet, accountID: Int64, amount: Money, category: PaymentCategory, paymentID: string): (s: Step<Payment>)
    ensures amount <= 0 ==> s == Step(w, Err(AmountMustBePositive))
    ensures amount > 0 && FindAccountIndex(w.accounts, accountID).None? ==>
              s == Step(w, Err(AccountNotFound))
    ensures amount > 0 && FindAccountIndex(w.accounts, accountID).Some? ==>
              var k := FindAccountIndex(w.accounts, accountID).value;
              if w.accounts[k].balance < amount then s == Step(w, Err(NotEnoughBalance))
              else
                && s.result == Ok(Payment(paymentID, amount, category, PaymentStatusInProgress, accountID))
                && s.wallet.accounts == w.accounts[k := w.accounts[k].(balance := w.accounts[k].balance - amount)]
                && s.wallet.payments == w.payments + [s.result.value]
                && s.wallet.nextAccountID == w.nextAccountID && s.wallet.favorites == w.favorites
  {
    if amount <= 0 then Step(w, Err(AmountMustBePositive))
    else match FindAccountIndex(w.accounts, accountID)
      case None => Step(w, Err(AccountNotFound))
      case Some(k) =>
        var acc := w.accounts[k];
        if acc.balance < amount then Step(w, Err(NotEnoughBalance))
        else
          var payment := Payment(paymentID, amount, category, PaymentStatusInProgress, accountID);
          Step(w.(accounts := w.accounts[k := acc.(balance := acc.balance - amount)],
                  payments := w.payments + [payment]), Ok(payment))
  }

  /** Reject (service.go:149-164): marks the (last) payment with that ID FAIL
      and refunds its amount to the (first) account with its account ID,
      whatever status the payment had before. */
  function Reject(w: Wallet, paymentID: string): (s: Step<()>)
    ensures FindPaymentIndex(w.payments, paymentID).None? ==> s == Step(w, Err(PaymentNotFound))
    ensures FindPaymentIndex(w.payments, paymentID).Some? ==>
              var i := FindPaymentIndex(w.payments, paymentID).value;
              FindAccountIndex(w.accounts, w.payments[i].accountID).None? ==> s == Step(w, Err(AccountNotFound))
    ensures FindPaymentIndex(w.payments, paymentID).Some? ==>
              var i := FindPaymentIndex(w.payments, paymentID).value;
              FindAccountIndex(w.accounts, w.payments[i].accountID).Some? ==>
                var k := FindAccountIndex(w.accounts, w.payments[i].accountID).value;
                && s.result.Ok?
                && s.wallet.payments == w.payments[i := w.payments[i].(status := PaymentStatusFail)]
                && |s.wallet.accounts| == |w.accounts|
                && s.wallet.accounts[k] == w.accounts[k].(balance := Wrap64(w.accounts[k].balance + w.payments[i].amount))
                && (forall j :: 0 <= j < |w.accounts| && j != k ==> s.wallet.accounts[j] == w.accounts[j])
                && s.wallet.nextAccountID == w.nextAccountID && s.wallet.favorites == w.favorites
    ensures s.result.Err? ==> s.wallet == w
  {
    match FindPaymentIndex(w.payments, paymentID)
    case None => Step(w, Err(PaymentNotFound))
    case Some(i) =>
      var payment := w.payments[i];
      match FindAccountIndex(w.accounts, payment.accountID)
      case None => Step(w, Err(AccountNotFound))
      case Some(k) =>
        var acc := w.accounts[k];
        Step(w.(payments := w.payments[i := payment.(status := PaymentStatusFail)],
                accounts := w.accounts[k := acc.(balance := Wrap64(acc.balance + payment.amount))]), Ok(()))
  }

  /** Repeat (service.go:168-180): Pay again with the account, amount and
      category of the (last) payment with that ID. */
  function Repeat(w: Wallet, paymentID: string, newPaymentID: string): Step<Payment>
  {
    match FindPaymentIndex(w.payments, paymentID)
    case None => Step(w, Err(PaymentNotFound))
    case Some(i) =>
      var p := w.payments[i];
      Pay(w, p.accountID, p.amount, p.category, newPaymentID)
  }

  /** FavoritePayment (service.go:193-211); `favoriteID` stands for the fresh uuid. */
  function FavoritePayment(w: Wallet, paymentID: string, name: string, favoriteID: string): (s: Step<Favorite>)
    ensures FindPaymentIndex(w.payments, paymentID).None? <==> s == Step(w, Err(PaymentNotFound))
    ensures FindPaymentIndex(w.payments, paymentID).Some? ==> s.result.Ok?
    ensures s.result.Ok? ==>
              var p := w.payments[FindPaymentIndex(w.payments, paymentID).value];
              && s.result.value == Favorite(favoriteID, p.accountID, name, p.amount, p.category)
              && s.wallet == w.(favorites := w.favorites + [s.result.value])
  {
    match FindPaymentIndex(w.payments, paymentID)
    case None => Step(w, Err(PaymentNotFound))
    case Some(i) =>
      var p := w.payments[i];
      var favorite := Favorite(favoriteID, p.accountID, name, p.amount, p.category);
      Step(w.(favorites := w.favorites + [favorite]), Ok(favorite))
  }

  /** PayFromFavorite (service.go:214-226): Pay with the account, amount and
      category of the (first) favorite with that ID. */
  function PayFromFavorite(w: Wallet, favoriteID: string, paymentID: string): Step<Payment>
  {
    match FindFavoriteIndex(w.favorites, favoriteID)
    case None => Step(w, Err(FavoriteNotFound))
    case Some(f) =>
      var fav := w.favorites[f];
      Pay(w, fav.accountID, fav.amount, fav.category, paymentID)
  }

  /** The payments of one account, as ExportAccountHistory (service.go:542-564)
      and FilterPayments (service.go:651-718) select them. */
  function OfAccount(accountID: Int64): Payment -> bool
  {
    (p: Payment) => p.accountID == accountID
  }

  // ----- properties -----

  predicate UniquePhones(accounts: seq<Account>)
  {
    forall i, j :: 0 <= i < j < |accounts| ==> accounts[i].phone != accounts[j].phone
  }

  /** Registration alone never produces two accounts with one phone. */
  lemma RegisterKeepsPhonesUnique(w: Wallet, phone: Phone)
    requires UniquePhones(w.accounts)
    ensures UniquePhones(RegisterAccount(w, phone).wallet.accounts)
  {
  }

  /** A repeated payment copies account, amount and category, and starts
      INPROGRESS whatever the status of the payment it repeats. */
  lemma RepeatCopiesPayment(w: Wallet, paymentID: string, newPaymentID: string)
    requires Repeat(w, paymentID, newPaymentID).result.Ok?
    ensures var i := FindPaymentIndex(w.payments, paymentID).value;
            var p := Repeat(w, paymentID, newPaymentID).result.value;
            && p == w.payments[i].(id := newPaymentID, status := PaymentStatusInProgress)
            && Repeat(w, paymentID, newPaymentID).wallet.payments == w.payments + [p]
  {
  }

  /** Paying from a favorite just saved (under a fresh ID) is paying again
      for the payment it was saved from: the favorite holds no status, and
      the new payment starts INPROGRESS. */
  lemma FavoriteThenPayIsRepeat(w: Wallet, paymentID: string, name: string, favoriteID: string, newPaymentID: string)
    requires forall j :: 0 <= j < |w.favorites| ==> w.favorites[j].id != favoriteID
    requires FavoritePayment(w, paymentID, name, favoriteID).result.Ok?
    ensures var w' := FavoritePayment(w, paymentID, name, favoriteID).wallet;
            && PayFromFavorite(w', favoriteID, newPaymentID) == Repeat(w', paymentID, newPaymentID)
            && (PayFromFavorite(w', favoriteID, newPaymentID).result.Ok? ==>
                  PayFromFavorite(w', favoriteID, newPaymentID).result.value.status == PaymentStatusInProgress)
  {
    var s := FavoritePayment(w, paymentID, name, favoriteID);
    var w' := s.wallet;
    assert w'.favorites == w.favorites + [s.result.value];
    assert w'.favorites[|w.favorites|].id == favoriteID;
    var f := FindFavoriteIndex(w'.favorites, favoriteID);
    assert f == Some(|w.favorites|);
    assert FindPaymentIndex(w'.payments, paymentID) == FindPaymentIndex(w.payments, paymentID);
  }

  /** The newest payment always wins the lookup: even when its ID repeats an
      older one, FindPaymentByID returns the payment just appended. */
  lemma NewestPaymentFound(payments: seq<Payment>, p: Payment)
    ensures FindPaymentIndex(payments + [p], p.id) == Some(|payments|)
  {
  }

  /** Rejecting the payment just made gives the account its balance back and
      marks that payment FAIL. */
  lemma PayThenRejectRestores(w: Wallet, accountID: Int64, amount: Money, category: PaymentCategory, paymentID: string)
    requires Pay(w, accountID, amount, category, paymentID).result.Ok?
    ensures var w1 := Pay(w, accountID, amount, category, paymentID).wallet;
            var w2 := Reject(w1, paymentID).wallet;
            && Reject(w1, paymentID).result.Ok?
            && w2.accounts == w.accounts
            && w2.payments == w.payments + [Payment(paymentID, amount, category, PaymentStatusFail, accountID)]
  {
    var p := Payment(paymentID, amount, category, PaymentStatusInProgress, accountID);
    var k := FindAccountIndex(w.accounts, accountID).value;
    var a := w.accounts[k];
    assert 0 < amount <= a.balance;
    var left: Money := a.balance - amount;
    var w1 := w.(accounts := w.accounts[k := a.(balance := left)], payments := w.payments + [p]);
    assert Pay(w, accountID, amount, category, paymentID) == Step(w1, Ok(p));
    assert FindPaymentIndex(w1.payments, paymentID) == Some(|w.payments|) by {
      NewestPaymentFound(w.payments, p);
    }
    assert FindAccountIndex(w1.accounts, accountID) == Some(k) by {
      FindAccountIndexBalances(w.accounts, k, left, accountID);
    }
    RejectFound(w1, paymentID, |w.payments|, k);
    var w2 := Reject(w1, paymentID).wallet;
    assert w2.payments == w.payments + [Payment(paymentID, amount, category, PaymentStatusFail, accountID)] by {
      assert w2.payments == w1.payments[|w.payments| := p.(status := PaymentStatusFail)];
    }
    assert w2.accounts == w.accounts by {
      assert Wrap64(left + amount) == a.balance;
      assert w2.accounts == w1.accounts[k := a];
      assert w.accounts[k := a] == w.accounts;
    }
  }

  /** Changing a balance does not move any account in the lookup. */
  lemma FindAccountIndexBalances(accounts: seq<Account>, k: nat, balance: Money, id: int)
    requires k < |accounts|
    ensures FindAccountIndex(accounts[k := accounts[k].(balance := balance)], id) == FindAccountIndex(accounts, id)
  {
    var a' := accounts[k := accounts[k].(balance := balance)];
    assert forall j :: 0 <= j < |accounts| ==> a'[j].id == accounts[j].id;
  }

  /** Reject does not look at the status: rejecting a payment twice refunds
      it twice. */
  lemma RejectTwiceRefundsTwice(w: Wallet, paymentID: string, i: nat, k: nat)
    requires FindPaymentIndex(w.payments, paymentID) == Some(i)
    requires FindAccountIndex(w.accounts, w.payments[i].accountID) == Some(k)
    ensures Reject(w, paymentID).result.Ok?
    ensures Reject(w, paymentID).wallet.payments[i].status == PaymentStatusFail
    ensures Reject(Reject(w, paymentID).wallet, paymentID).result.Ok?
    ensures var s1 := Reject(w, paymentID);
            s1.wallet.accounts[k].balance == Wrap64(w.accounts[k].balance + w.payments[i].amount)
            && Reject(s1.wallet, paymentID).wallet.accounts[k].balance == Wrap64(s1.wallet.accounts[k].balance + w.payments[i].amount)
  {
    var s1 := Reject(w, paymentID);
    RejectKeepsPlace(w, paymentID, i, k);
    RejectFound(s1.wallet, paymentID, i, k);
    assert |s1.wallet.accounts| == |w.accounts|;
  }

  /** After a reject the same payment and account are found again, and the
      payment keeps its amount. */
  lemma RejectKeepsPlace(w: Wallet, paymentID: string, i: nat, k: nat)
    requires FindPaymentIndex(w.payments, paymentID) == Some(i)
    requires FindAccountIndex(w.accounts, w.payments[i].accountID) == Some(k)
    ensures var w1 := Reject(w, paymentID).wallet;
            && FindPaymentIndex(w1.payments, paymentID) == Some(i)
            && w1.payments[i] == w.payments[i].(status := PaymentStatusFail)
            && FindAccountIndex(w1.accounts, w1.payments[i].accountID) == Some(k)
  {
    var p := w.payments[i];
    var b1 := Wrap64(w.accounts[k].balance + p.amount);
    RejectFound(w, paymentID, i, k);
    var w1 := Reject(w, paymentID).wallet;
    assert FindPaymentIndex(w1.payments, paymentID) == Some(i) by {
      FindPaymentIndexStatus(w.payments, i, PaymentStatusFail, paymentID);
    }
    assert FindAccountIndex(w1.accounts, p.accountID) == Some(k) by {
      FindAccountIndexBalances(w.accounts, k, b1, p.accountID);
    }
  }

  /** Reject of a payment found at i whose account is found at k. */
  lemma RejectFound(w: Wallet, paymentID: string, i: nat, k: nat)
    requires FindPaymentIndex(w.payments, paymentID) == Some(i)
    requires FindAccountIndex(w.accounts, w.payments[i].accountID) == Some(k)
    ensures Reject(w, paymentID).result == Ok(())
    ensures Reject(w, paymentID).wallet.payments == w.payments[i := w.payments[i].(status := PaymentStatusFail)]
    ensures Reject(w, paymentID).wallet.accounts == w.accounts[k := w.accounts[k].(balance := Wrap64(w.accounts[k].balance + w.payments[i].amount))]
  {
  }

  /** Changing a status does not move any payment in the lookup. */
  lemma FindPaymentIndexStatus(payments: seq<Payment>, i: nat, status: Status, id: string)
    requires i < |payments|
    ensures FindPaymentIndex(payments[i := payments[i].(status := status)], id) == FindPaymentIndex(payments, id)
  {
    var p' := payments[i := payments[i].(status := status)];
    assert forall j :: 0 <= j < |payments| ==> p'[j].id == payments[j].id;
  }

  // ----- conservation of money -----

  function Balance(a: Account): int { a.balance }

  /** What a payment still takes out of the accounts: its amount, unless it failed. */
  function Outstanding(p: Payment): int { if p.status == PaymentStatusFail then 0 else p.amount }

  /** Money held by the ledger: the balances plus the payments not failed. */
  function Held(w: Wallet): int
  {
    SumOf(w.accounts, Balance) + SumOf(w.payments, Outstanding)
  }

  /** A payment moves money out of a balance into an outstanding payment. */
  lemma PayConserves(w: Wallet, accountID: Int64, amount: Money, category: PaymentCategory, paymentID: string)
    ensures Held(Pay(w, accountID, amount, category, paymentID).wallet) == Held(w)
  {
    var s := Pay(w, accountID, amount, category, paymentID);
    if s.result.Ok? {
      var k := FindAccountIndex(w.accounts, accountID).value;
      SumOfUpdate(w.accounts, k, s.wallet.accounts[k], Balance);
      SumOfAppend(w.payments, [s.result.value], Outstanding);
      assert SumOf([s.result.value], Outstanding) == amount by {
        assert [s.result.value][..0] == [];
      }
    }
  }

  /** A deposit that does not overflow adds exactly its amount. */
  lemma DepositAdds(w: Wallet, accountID: Int64, amount: Money)
    requires Deposit(w, accountID, amount).result.Ok?
    requires w.accounts[FindAccountIndex(w.accounts, accountID).value].balance + amount <= MaxInt64
    ensures Held(Deposit(w, accountID, amount).wallet) == Held(w) + amount
  {
    var k := FindAccountIndex(w.accounts, accountID).value;
    var s := Deposit(w, accountID, amount);
    SumOfUpdate(w.accounts, k, s.wallet.accounts[k], Balance);
  }

  /** Rejecting a payment that had not failed moves its amount back into a
      balance; rejecting one that had already failed creates that amount again. */
  lemma RejectRefunds(w: Wallet, paymentID: string)
    requires Reject(w, paymentID).result.Ok?
    requires var p := w.payments[FindPaymentIndex(w.payments, paymentID).value];
             MinInt64 <= w.accounts[FindAccountIndex(w.accounts, p.accountID).value].balance + p.amount <= MaxInt64
    ensures var p := w.payments[FindPaymentIndex(w.payments, paymentID).value];
            Held(Reject(w, paymentID).wallet)
            == Held(w) + (if p.status == PaymentStatusFail then p.amount else 0)
  {
    var s := Reject(w, paymentID);
    var i := FindPaymentIndex(w.payments, paymentID).value;
    var p := w.payments[i];
    var k := FindAccountIndex(w.accounts, p.accountID).value;
    SumOfUpdate(w.accounts, k, s.wallet.accounts[k], Balance);
    SumOfUpdate(w.payments, i, s.wallet.payments[i], Outstanding);
  }
}
