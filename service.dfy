/** The `Service` of pkg/wallet/service.go as a class over its four fields. Each
    method runs the source's loops over the fields and is proved to leave the
    state, and return the result, that the value model of module Ledger (and,
    for the files, module Records) prescribes. Files, directories and the
    goroutines' scheduling are not modelled: file contents are parameters and
    results, and the workers run one after the other, in worker order. */
module WalletService {
  import opened Types
  import opened Text
  import opened Partition
  import opened Ledger
  import Records
  import ProgressSum

  class Service {
    var nextAccountID: Int64
    var accounts: seq<Account>
    var payments: seq<Payment>
    var favorites: seq<Favorite>

    /** The fields, as a value. */
    function State(): Wallet
      reads this
    {
      Wallet(nextAccountID, accounts, payments, favorites)
    }

    /** The zero value `&Service{}`. */
    constructor()
      ensures State() == Empty
    {
      nextAccountID := 0;
      accounts := [];
      payments := [];
      favorites := [];
    }

    // ----- lookups -----

    /** The `for … range s.accounts { if acc.ID == accountID { …; break } }`
        loop of Deposit, Pay and FindAccountByID. */
    method AccountIndex(accountID: int) returns (r: Option<nat>)
      ensures r == FindAccountIndex(accounts, accountID)
    {
      var i := 0;
      while i < |accounts|
        invariant 0 <= i <= |accounts|
        invariant forall j :: 0 <= j < i ==> accounts[j].id != accountID
      {
        if accounts[i].id == accountID {
          return Some(i);
        }
        i := i + 1;
      }
      return None;
    }

    /** The loop of FindPaymentByID, which has no `break`: the last match wins. */
    method PaymentIndex(paymentID: string) returns (r: Option<nat>)
      ensures r == FindPaymentIndex(payments, paymentID)
    {
      r := None;
      var i := 0;
      while i < |payments|
        invariant 0 <= i <= |payments|
        invariant r.None? ==> forall j :: 0 <= j < i ==> payments[j].id != paymentID
        invariant r.Some? ==> r.value < i && payments[r.value].id == paymentID
        invariant r.Some? ==> forall j :: r.value < j < i ==> payments[j].id != paymentID
      {
        if payments[i].id == paymentID {
          r := Some(i);
        }
        i := i + 1;
      }
    }

    /** The loop of FindFavoriteByID, which returns at the first match. */
    method FavoriteIndex(favoriteID: string) returns (r: Option<nat>)
      ensures r == FindFavoriteIndex(favorites, favoriteID)
    {
      var i := 0;
      while i < |favorites|
        invariant 0 <= i <= |favorites|
        invariant forall j :: 0 <= j < i ==> favorites[j].id != favoriteID
      {
        if favorites[i].id == favoriteID {
          return Some(i);
        }
        i := i + 1;
      }
      return None;
    }

    /** FindAccountByID (service.go:113-127): the first account with that ID. */
    method FindAccountByID(accountID: Int64) returns (r: Result<Account>)
      ensures r.Ok? <==> exists k :: 0 <= k < |accounts| && accounts[k].id == accountID
      ensures r.Ok? ==> r.value.id == accountID && r.value == accounts[FindAccountIndex(accounts, accountID).value]
      ensures r.Err? ==> r.error == AccountNotFound
    {
      var k := AccountIndex(accountID);
      if k.None? {
        return Err(AccountNotFound);
      }
      return Ok(accounts[k.value]);
    }

    /** FindPaymentByID (service.go:131-145): the last payment with that ID. */
    method FindPaymentByID(paymentID: string) returns (r: Result<Payment>)
      ensures r.Ok? <==> exists k :: 0 <= k < |payments| && payments[k].id == paymentID
      ensures r.Ok? ==> r.value.id == paymentID && r.value == payments[FindPaymentIndex(payments, paymentID).value]
      ensures r.Err? ==> r.error == PaymentNotFound
    {
      var i := PaymentIndex(paymentID);
      if i.None? {
        return Err(PaymentNotFound);
      }
      return Ok(payments[i.value]);
    }

    /** FindFavoriteByID (service.go:183-190): the first favorite with that ID. */
    method FindFavoriteByID(favoriteID: string) returns (r: Result<Favorite>)
      ensures r.Ok? <==> exists k :: 0 <= k < |favorites| && favorites[k].id == favoriteID
      ensures r.Ok? ==> r.value.id == favoriteID && r.value == favorites[FindFavoriteIndex(favorites, favoriteID).value]
      ensures r.Err? ==> r.error == FavoriteNotFound
    {
      var f := FavoriteIndex(favoriteID);
      if f.None? {
        return Err(FavoriteNotFound);
      }
      return Ok(favorites[f.value]);
    }

    // ----- operations -----

    /** RegisterAccount (service.go:37-52). */
    method RegisterAccount(phone: Phone) returns (r: Result<Account>)
      modifies this
      ensures Step(State(), r) == Ledger.RegisterAccount(old(State()), phone)
    {
      var i := 0;
      while i < |accounts|
        invariant 0 <= i <= |accounts|
        invariant forall j :: 0 <= j < i ==> accounts[j].phone != phone
      {
        if accounts[i].phone == phone {
          return Err(PhoneRegistered);
        }
        i := i + 1;
      }
      nextAccountID := Wrap64(nextAccountID + 1);
      var account := Account(nextAccountID, phone, 0);
      accounts := accounts + [account];
      return Ok(account);
    }

    /** Deposit (service.go:56-75). */
    method Deposit(accountID: Int64, amount: Money) returns (r: Result<()>)
      modifies this
      ensures Step(State(), r) == Ledger.Deposit(old(State()), accountID, amount)
    {
      if amount <= 0 {
        return Err(AmountMustBePositive);
      }
      var k := AccountIndex(accountID);
      if k.None? {
        return Err(AccountNotFound);
      }
      var account := accounts[k.value];
      accounts := accounts[k.value := account.(balance := Wrap64(account.balance + amount))];
      return Ok(());
    }

    /** Pay (service.go:79-109); `paymentID` is the fresh uuid. */
    method Pay(accountID: Int64, amount: Money, category: PaymentCategory, paymentID: string) returns (r: Result<Payment>)
      modifies this
      ensures Step(State(), r) == Ledger.Pay(old(State()), accountID, amount, category, paymentID)
    {
      if amount <= 0 {
        return Err(AmountMustBePositive);
      }
      var k := AccountIndex(accountID);
      if k.None? {
        return Err(AccountNotFound);
      }
      var account := accounts[k.value];
      if account.balance < amount {
        return Err(NotEnoughBalance);
      }
      accounts := accounts[k.value := account.(balance := account.balance - amount)];
      var payment := Payment(paymentID, amount, category, PaymentStatusInProgress, accountID);
      payments := payments + [payment];
      return Ok(payment);
    }

    /** Reject (service.go:149-164). */
    method Reject(paymentID: string) returns (r: Result<()>)
      modifies this
      ensures Step(State(), r) == Ledger.Reject(old(State()), paymentID)
    {
      var i := PaymentIndex(paymentID);
      if i.None? {
        return Err(PaymentNotFound);
      }
      var payment := payments[i.value];
      var k := AccountIndex(payment.accountID);
      if k.None? {
        return Err(AccountNotFound);
      }
      payments := payments[i.value := payment.(status := PaymentStatusFail)];
      var account := accounts[k.value];
      accounts := accounts[k.value := account.(balance := Wrap64(account.balance + payment.amount))];
      return Ok(());
    }

    /** Repeat (service.go:168-180); `newPaymentID` is the fresh uuid. */
    method Repeat(paymentID: string, newPaymentID: string) returns (r: Result<Payment>)
      modifies this
      ensures Step(State(), r) == Ledger.Repeat(old(State()), paymentID, newPaymentID)
    {
      var i := PaymentIndex(paymentID);
      if i.None? {
        return Err(PaymentNotFound);
      }
      var p := payments[i.value];
      r := Pay(p.accountID, p.amount, p.category, newPaymentID);
    }

    /** FavoritePayment (service.go:193-211); `favoriteID` is the fresh uuid. */
    method FavoritePayment(paymentID: string, name: string, favoriteID: string) returns (r: Result<Favorite>)
      modifies this
      ensures Step(State(), r) == Ledger.FavoritePayment(old(State()), paymentID, name, favoriteID)
    {
      var i := PaymentIndex(paymentID);
      if i.None? {
        return Err(PaymentNotFound);
      }
      var p := payments[i.value];
      var favorite := Favorite(favoriteID, p.accountID, name, p.amount, p.category);
      favorites := favorites + [favorite];
      return Ok(favorite);
    }

    /** PayFromFavorite (service.go:214-226); `paymentID` is the fresh uuid. */
    method PayFromFavorite(favoriteID: string, paymentID: string) returns (r: Result<Payment>)
      modifies this
      ensures Step(State(), r) == Ledger.PayFromFavorite(old(State()), favoriteID, paymentID)
    {
      var f := FavoriteIndex(favoriteID);
      if f.None? {
        return Err(FavoriteNotFound);
      }
      var favorite := favorites[f.value];
      r := Pay(favorite.accountID, favorite.amount, favorite.category, paymentID);
    }

    // ----- files -----

    /** The text ExportToFile (service.go:229-263) writes, built field by field. */
    method ExportToFile() returns (text: string)
      ensures text == Records.ExportToFile(accounts)
    {
      text := "";
      var i := 0;
      while i < |accounts|
        invariant 0 <= i <= |accounts|
        invariant text == Records.Dump(Records.AccountBodies(accounts[..i]), '|')
      {
        var account := accounts[i];
        ghost var before := text;
        var id, balance := Itoa(account.id), Itoa(account.balance);
        text := text + (id + ";");
        text := text + (account.phone + ";");
        text := text + (balance + "|");
        assert text == before + (id + ";" + account.phone + ";" + balance + "|");
        assert id + ";" + account.phone + ";" + balance + "|" == Records.AccountFields(account) + "|";
        Records.AccountsPrefix(accounts, i, '|');
        i := i + 1;
      }
      assert accounts[..i] == accounts;
    }

    /** The accounts.dump text of Export. */
    method AccountsDump() returns (text: string)
      ensures text == Records.Dump(Records.AccountBodies(accounts), '\n')
    {
      text := "";
      var i := 0;
      while i < |accounts|
        invariant 0 <= i <= |accounts|
        invariant text == Records.Dump(Records.AccountBodies(accounts[..i]), '\n')
      {
        var v := accounts[i];
        text := text + (Itoa(v.id) + ";" + v.phone + ";" + Itoa(v.balance) + "\n");
        Records.AccountsPrefix(accounts, i, '\n');
        i := i + 1;
      }
      assert accounts[..i] == accounts;
    }

    /** The text of a payments file: one line per payment, in order. */
    static method PaymentsDump(ps: seq<Payment>) returns (text: string)
      ensures text == Records.PaymentsText(ps)
    {
      text := "";
      var i := 0;
      while i < |ps|
        invariant 0 <= i <= |ps|
        invariant text == Records.PaymentsText(ps[..i])
      {
        var v := ps[i];
        text := text + (v.id + ";" + Itoa(v.accountID) + ";" + Itoa(v.amount) + ";" + v.category + ";" + v.status + "\n");
        Records.PaymentsPrefix(ps, i);
        i := i + 1;
      }
      assert ps[..i] == ps;
    }

    /** The favorites.dump text of Export. */
    method FavoritesDump() returns (text: string)
      ensures text == Records.Dump(Records.FavoriteBodies(favorites), '\n')
    {
      text := "";
      var i := 0;
      while i < |favorites|
        invariant 0 <= i <= |favorites|
        invariant text == Records.Dump(Records.FavoriteBodies(favorites[..i]), '\n')
      {
        var v := favorites[i];
        text := text + (v.id + ";" + Itoa(v.accountID) + ";" + Itoa(v.amount) + ";" + v.category + "\n");
        Records.FavoritesPrefix(favorites, i);
        i := i + 1;
      }
      assert favorites[..i] == favorites;
    }

    /** Export (service.go:266-324): the contents of the three files. */
    method Export() returns (d: Records.Dumps)
      ensures d == Records.Export(State())
    {
      var a, p, f := None, None, None;
      if |accounts| > 0 {
        var text := AccountsDump();
        a := Some(text);
      }
      if |payments| > 0 {
        var text := PaymentsDump(payments);
        p := Some(text);
      }
      if |favorites| > 0 {
        var text := FavoritesDump();
        f := Some(text);
      }
      d := Records.Dumps(a, p, f);
    }

    /** ImportFromFile (service.go:327-390) on the file's contents: each line
        read is appended, until the first one that does not parse. */
    method ImportFromFile(data: string) returns (r: Result<()>)
      modifies this
      ensures Step(State(), r) == Records.ImportFromFile(old(State()), data)
    {
      var lines := Records.Lines(data, '|');
      var i := 0;
      while i < |lines|
        invariant 0 <= i <= |lines|
        invariant Records.ImportLines(old(accounts), lines, Records.ParseAccount, Records.AppendAccount)
                  == Records.ImportLines(accounts, lines[i..], Records.ParseAccount, Records.AppendAccount)
        invariant nextAccountID == old(nextAccountID) && payments == old(payments) && favorites == old(favorites)
      {
        var parsed := Records.ParseAccount(lines[i]);
        if parsed.Err? {
          return Err(parsed.error);
        }
        accounts := accounts + [parsed.value];
        assert lines[i..][1..] == lines[i + 1..];
        i := i + 1;
      }
      return Ok(());
    }

    /** The inner loop of Import for an account line (service.go:419-434). */
    method MergeAccount(a: Account)
      modifies this
      ensures accounts == Records.UpsertAccount(old(accounts), a)
      ensures nextAccountID == old(nextAccountID) && payments == old(payments) && favorites == old(favorites)
    {
      var flag := true;
      var i := 0;
      while i < |accounts|
        invariant 0 <= i <= |accounts| == |old(accounts)|
        invariant flag <==> forall j :: 0 <= j < i ==> old(accounts)[j].id != a.id
        invariant forall j :: 0 <= j < i ==> accounts[j] == if old(accounts)[j].id == a.id then a else old(accounts)[j]
        invariant forall j :: i <= j < |accounts| ==> accounts[j] == old(accounts)[j]
        invariant nextAccountID == old(nextAccountID) && payments == old(payments) && favorites == old(favorites)
      {
        if accounts[i].id == a.id {
          accounts := accounts[i := accounts[i].(phone := a.phone, balance := a.balance)];
          flag := false;
        }
        i := i + 1;
      }
      if flag {
        accounts := accounts + [a];
      }
    }

    /** The inner loop of Import for a payment line (service.go:466-485). */
    method MergePayment(p: Payment)
      modifies this
      ensures payments == Records.UpsertPayment(old(payments), p)
      ensures nextAccountID == old(nextAccountID) && accounts == old(accounts) && favorites == old(favorites)
    {
      var flag := true;
      var i := 0;
      while i < |payments|
        invariant 0 <= i <= |payments| == |old(payments)|
        invariant flag <==> forall j :: 0 <= j < i ==> old(payments)[j].id != p.id
        invariant forall j :: 0 <= j < i ==> payments[j] == if old(payments)[j].id == p.id then p else old(payments)[j]
        invariant forall j :: i <= j < |payments| ==> payments[j] == old(payments)[j]
        invariant nextAccountID == old(nextAccountID) && accounts == old(accounts) && favorites == old(favorites)
      {
        if payments[i].id == p.id {
          payments := payments[i := payments[i].(accountID := p.accountID, amount := p.amount,
                                                 category := p.category, status := p.status)];
          flag := false;
        }
        i := i + 1;
      }
      if flag {
        payments := payments + [p];
      }
    }

    /** The inner loop of Import for a favorite line (service.go:517-534): the
        name of a favorite already there is kept. */
    method MergeFavorite(f: Favorite)
      modifies this
      ensures favorites == Records.UpsertFavorite(old(favorites), f)
      ensures nextAccountID == old(nextAccountID) && accounts == old(accounts) && payments == old(payments)
    {
      var flag := true;
      var i := 0;
      while i < |favorites|
        invariant 0 <= i <= |favorites| == |old(favorites)|
        invariant flag <==> forall j :: 0 <= j < i ==> old(favorites)[j].id != f.id
        invariant forall j :: 0 <= j < i ==>
                    favorites[j] == if old(favorites)[j].id == f.id then f.(name := old(favorites)[j].name) else old(favorites)[j]
        invariant forall j :: i <= j < |favorites| ==> favorites[j] == old(favorites)[j]
        invariant nextAccountID == old(nextAccountID) && accounts == old(accounts) && payments == old(payments)
      {
        if favorites[i].id == f.id {
          favorites := favorites[i := favorites[i].(accountID := f.accountID, amount := f.amount, category := f.category)];
          flag := false;
        }
        i := i + 1;
      }
      if flag {
        favorites := favorites + [f];
      }
    }

    /** The accounts part of Import (service.go:395-436). */
    method ImportAccounts(lines: seq<string>) returns (r: Result<()>)
      modifies this
      ensures Step(State(), r) == Records.ImportAccounts(old(State()), lines)
    {
      var i := 0;
      while i < |lines|
        invariant 0 <= i <= |lines|
        invariant Records.ImportLines(old(accounts), lines, Records.ParseAccount, Records.UpsertAccount)
                  == Records.ImportLines(accounts, lines[i..], Records.ParseAccount, Records.UpsertAccount)
        invariant nextAccountID == old(nextAccountID) && payments == old(payments) && favorites == old(favorites)
      {
        var parsed := Records.ParseAccount(lines[i]);
        if parsed.Err? {
          return Err(parsed.error);
        }
        MergeAccount(parsed.value);
        assert lines[i..][1..] == lines[i + 1..];
        i := i + 1;
      }
      return Ok(());
    }

    /** The payments part of Import (service.go:438-487). */
    method ImportPayments(lines: seq<string>) returns (r: Result<()>)
      modifies this
      ensures Step(State(), r) == Records.ImportPayments(old(State()), lines)
    {
      var i := 0;
      while i < |lines|
        invariant 0 <= i <= |lines|
        invariant Records.ImportLines(old(payments), lines, Records.ParsePayment, Records.UpsertPayment)
                  == Records.ImportLines(payments, lines[i..], Records.ParsePayment, Records.UpsertPayment)
        invariant nextAccountID == old(nextAccountID) && accounts == old(accounts) && favorites == old(favorites)
      {
        var parsed := Records.ParsePayment(lines[i]);
        if parsed.Err? {
          return Err(parsed.error);
        }
        MergePayment(parsed.value);
        assert lines[i..][1..] == lines[i + 1..];
        i := i + 1;
      }
      return Ok(());
    }

    /** The favorites part of Import (service.go:489-536). */
    method ImportFavorites(lines: seq<string>) returns (r: Result<()>)
      modifies this
      ensures Step(State(), r) == Records.ImportFavorites(old(State()), lines)
    {
      var i := 0;
      while i < |lines|
        invariant 0 <= i <= |lines|
        invariant Records.ImportLines(old(favorites), lines, Records.ParseFavorite, Records.UpsertFavorite)
                  == Records.ImportLines(favorites, lines[i..], Records.ParseFavorite, Records.UpsertFavorite)
        invariant nextAccountID == old(nextAccountID) && accounts == old(accounts) && payments == old(payments)
      {
        var parsed := Records.ParseFavorite(lines[i]);
        if parsed.Err? {
          return Err(parsed.error);
        }
        MergeFavorite(parsed.value);
        assert lines[i..][1..] == lines[i + 1..];
        i := i + 1;
      }
      return Ok(());
    }

    /** Import (service.go:393-539) on the contents of the files that exist. */
    method Import(d: Records.Dumps) returns (r: Result<()>)
      modifies this
      ensures Step(State(), r) == Records.Import(old(State()), d)
    {
      r := Ok(());
      if d.accounts.Some? {
        r := ImportAccounts(Records.Lines(d.accounts.value, '\n'));
        if r.Err? {
          return;
        }
      }
      if d.payments.Some? {
        r := ImportPayments(Records.Lines(d.payments.value, '\n'));
        if r.Err? {
          return;
        }
      }
      if d.favorites.Some? {
        r := ImportFavorites(Records.Lines(d.favorites.value, '\n'));
      }
    }

    // ----- queries -----

    /** ExportAccountHistory (service.go:542-564): the payments of an existing
        account, in order. */
    method ExportAccountHistory(accountID: Int64) returns (r: Result<seq<Payment>>)
      ensures FindAccountIndex(accounts, accountID).None? ==> r == Err(AccountNotFound)
      ensures FindAccountIndex(accounts, accountID).Some? ==> r == Ok(Filter(payments, OfAccount(accountID)))
    {
      var account := FindAccountByID(accountID);
      if account.Err? {
        return Err(account.error);
      }
      var history := [];
      var i := 0;
      while i < |payments|
        invariant 0 <= i <= |payments|
        invariant history == Filter(payments[..i], OfAccount(accountID))
      {
        var v := payments[i];
        if v.accountID == account.value.id {
          history := history + [v];
        }
        assert payments[..i + 1][..i] == payments[..i];
        i := i + 1;
      }
      assert payments[..i] == payments;
      return Ok(history);
    }

    /** HistoryToFiles (service.go:567-604) on the files' contents: nothing
        for no payments, a single payments.dump when they fit in `records`
        lines, and otherwise the files of ChunkedHistory. */
    static method HistoryToFiles(history: seq<Payment>, records: int) returns (files: seq<Records.DumpFile>)
      ensures files == Records.HistoryFiles(history, records)
    {
      files := [];
      if |history| > 0 {
        if |history| <= records {
          var text := PaymentsDump(history);
          files := [Records.DumpFile("payments.dump", text)];
        } else {
          files := ChunkedHistory(history, records);
        }
      }
    }

    /** The chunked branch of HistoryToFiles (service.go:581-598): one payment
        at a time, a new file payments{t}.dump is opened whenever the counter k
        is 0, and k returns to 0 when the file reaches `records` lines. */
    static method ChunkedHistory(history: seq<Payment>, records: int) returns (files: seq<Records.DumpFile>)
      ensures files == Records.ChunkFiles(Records.Chunks(history, records))
    {
      files := [];
      var k := 0;
      var t := 1;
      var i := 0;
      while i < |history|
        invariant 0 <= i <= |history|
        invariant files == Records.ChunkFiles(Records.Chunks(history[..i], records))
        invariant Counters(Records.Chunks(history[..i], records), records, k, t)
      {
        var v := history[i];
        HistoryStep(history, records, i, k, t, files);
        var line := v.id + ";" + Itoa(v.accountID) + ";" + Itoa(v.amount) + ";" + v.category + ";" + v.status + "\n";
        assert line == Records.PaymentFields(v) + "\n";
        if k == 0 {
          files := files + [Records.DumpFile(Records.FileName(t), "")];
        }
        k := k + 1;
        var last := files[|files| - 1];
        files := files[..|files| - 1] + [last.(content := last.content + line)];
        if k == records {
          t := t + 1;
          k := 0;
        }
        i := i + 1;
      }
      assert history[..i] == history;
    }

    /** SumPayments (service.go:607-648): goroutines-1 workers over ranges of
        `kol` payments and one over the rest, each adding in int64 and the
        partial sums added in int64. */
    method SumPayments(goroutines: Int64) returns (sum: Money)
      requires |payments| <= MaxInt64
      ensures sum == Wrap64(Total(payments))
    {
      var n := |payments|;
      var kol := if goroutines == 0 then n else GoDiv(n, goroutines);
      RangesChain(n, goroutines);
      ghost var rs := Ranges(n, goroutines);
      assert kol == Kol(n, goroutines);
      sum := 0;
      var bound := Wrap64(goroutines - 1);
      var i := 0;
      while i < bound
        invariant 0 <= i < |rs|
        invariant i * kol == rs[i].lo
        invariant sum == Wrap64(Total(payments[..rs[i].lo]))
      {
        ghost var r := rs[i];
        assert r == Range(i * kol, (i + 1) * kol) && rs[i + 1].lo == r.hi;
        var val := SumRange(i * kol, (i + 1) * kol);
        AddPart(payments, sum, r.lo, r.hi);
        sum := Wrap64(sum + val);
        i := i + 1;
      }
      var val := SumRange(i * kol, n);
      AddPart(payments, sum, rs[i].lo, n);
      sum := Wrap64(sum + val);
      assert payments[..n] == payments;
    }

    /** One worker of SumPayments: the int64 sum of `payments[lo..hi]`. */
    method SumRange(lo: int, hi: int) returns (val: Money)
      requires 0 <= lo <= hi <= |payments|
      ensures val == Wrap64(Total(payments[lo..hi]))
    {
      val := 0;
      var i := lo;
      while i < hi
        invariant lo <= i <= hi
        invariant val == Wrap64(Total(payments[lo..i]))
      {
        assert Total(payments[lo..i + 1]) == Total(payments[lo..i]) + payments[i].amount by {
          assert payments[lo..i + 1][..i - lo] == payments[lo..i];
        }
        WrapAdd(Total(payments[lo..i]), payments[i].amount);
        val := Wrap64(val + payments[i].amount);
        i := i + 1;
      }
    }

    /** One worker of FilterPayments and FilterPaymentsByFn: the payments of
        `payments[lo..hi]` that `keep` accepts, in order. */
    method FilterRange(keep: Payment -> bool, lo: int, hi: int) returns (pays: seq<Payment>)
      requires 0 <= lo <= hi <= |payments|
      ensures pays == Filter(payments[lo..hi], keep)
    {
      pays := [];
      var i := lo;
      while i < hi
        invariant lo <= i <= hi
        invariant pays == Filter(payments[lo..i], keep)
      {
        assert payments[lo..i + 1][..i - lo] == payments[lo..i];
        if keep(payments[i]) {
          pays := pays + [payments[i]];
        }
        i := i + 1;
      }
    }

    /** The workers of FilterPayments and FilterPaymentsByFn (service.go:659-713
        and 723-782): goroutines-1 workers over ranges of `kol` payments and one
        over the rest; their parts are appended one after the other. */
    method FilterWorkers(keep: Payment -> bool, goroutines: Int64) returns (ps: seq<Payment>)
      requires |payments| <= MaxInt64
      ensures ps == Filter(payments, keep)
    {
      var n := |payments|;
      var kol := if goroutines == 0 then n else GoDiv(n, goroutines);
      RangesChain(n, goroutines);
      ghost var rs := Ranges(n, goroutines);
      ps := [];
      var bound := Wrap64(goroutines - 1);
      var i := 0;
      while i < bound
        invariant 0 <= i < |rs|
        invariant i * kol == rs[i].lo
        invariant ps == Filter(payments[..rs[i].lo], keep)
      {
        var pays := FilterRange(keep, i * kol, (i + 1) * kol);
        FilterPart(payments, keep, rs[i].lo, rs[i].hi);
        ps := ps + pays;
        i := i + 1;
      }
      var pays := FilterRange(keep, i * kol, n);
      FilterPart(payments, keep, rs[i].lo, n);
      ps := ps + pays;
      assert payments[..n] == payments;
    }

    /** FilterPayments (service.go:651-718): the payments of an existing
        account (nil, that is empty, when there are none). */
    method FilterPayments(accountID: Int64, goroutines: Int64) returns (r: Result<seq<Payment>>)
      requires |payments| <= MaxInt64
      ensures FindAccountIndex(accounts, accountID).None? ==> r == Err(AccountNotFound)
      ensures FindAccountIndex(accounts, accountID).Some? ==> r == Ok(Filter(payments, OfAccount(accountID)))
    {
      var account := FindAccountByID(accountID);
      if account.Err? {
        return Err(account.error);
      }
      var ps := FilterWorkers(OfAccount(account.value.id), goroutines);
      return Ok(ps);
    }

    /** FilterPaymentsByFn (service.go:721-787): the payments `filter` accepts;
        the error it returns is always nil. */
    method FilterPaymentsByFn(filter: Payment -> bool, goroutines: Int64) returns (ps: seq<Payment>)
      requires |payments| <= MaxInt64
      ensures ps == Filter(payments, filter)
    {
      ps := FilterWorkers(filter, goroutines);
    }

    /** SumPaymentsWithProgress (service.go:789-821), as written: each of the
        workers is handed the whole of `s.payments` and reports its length and
        its int64 sum. The records are listed in worker order. */
    method SumPaymentsWithProgress() returns (records: seq<Progress>)
      ensures records == ProgressSum.WholeSlice(payments)
    {
      var n := |payments|;
      var goroutines := n / ProgressSum.SizeOfUnit;
      if goroutines <= 1 {
        goroutines := 1;
      }
      ghost var all := ProgressSum.WholeSlice(payments);
      assert goroutines == |all|;
      records := [];
      var i := 0;
      while i < goroutines
        invariant 0 <= i <= goroutines
        invariant records == all[..i]
      {
        var sum := SumRange(0, n);
        assert payments[0..n] == payments;
        records := records + [Progress(n, sum)];
        assert all[..i + 1] == all[..i] + [all[i]];
        i := i + 1;
      }
      assert all[..goroutines] == all;
    }
  }

  /** The counters k and t of HistoryToFiles after the payments grouped in
      `chunks`: k is the number of lines in the open file (0 when none is
      open) and t the number of the file being written or about to be opened. */
  ghost predicate Counters(chunks: seq<seq<Payment>>, records: int, k: int, t: int)
  {
    if chunks == [] then k == 0 && t == 1
    else if |chunks[|chunks| - 1]| == records then k == 0 && t == |chunks| + 1
    else k == |chunks[|chunks| - 1]| && t == |chunks|
  }

  /** The loop of ChunkedHistory after payment i: FileStep for the chunks of
      the payments before it. */
  lemma HistoryStep(history: seq<Payment>, records: int, i: nat, k: int, t: int, files: seq<Records.DumpFile>)
    requires i < |history|
    requires files == Records.ChunkFiles(Records.Chunks(history[..i], records))
    requires Counters(Records.Chunks(history[..i], records), records, k, t)
    ensures var grown := if k == 0 then files + [Records.DumpFile(Records.FileName(t), "")] else files;
            && grown != []
            && var last := grown[|grown| - 1];
               && grown[..|grown| - 1] + [last.(content := last.content + (Records.PaymentFields(history[i]) + "\n"))]
                  == Records.ChunkFiles(Records.Chunks(history[..i + 1], records))
               && Counters(Records.Chunks(history[..i + 1], records), records,
                           if k + 1 == records then 0 else k + 1, if k + 1 == records then t + 1 else t)
  {
    Records.ChunksSizes(history[..i], records);
    Records.ChunksSnoc(history, records, i);
    FileStep(Records.Chunks(history[..i], records), records, k, t, history[i], files);
  }

  /** One payment through the loop of ChunkedHistory: the file it is written
      to, and the counters afterwards, are those of the chunks with it. */
  lemma FileStep(chunks: seq<seq<Payment>>, records: int, k: int, t: int, v: Payment, files: seq<Records.DumpFile>)
    requires Counters(chunks, records, k, t)
    requires files == Records.ChunkFiles(chunks)
    requires forall c :: 0 <= c < |chunks| ==> |chunks[c]| >= 1
    ensures var grown := if k == 0 then files + [Records.DumpFile(Records.FileName(t), "")] else files;
            && grown != []
            && var last := grown[|grown| - 1];
               var next := if chunks == [] || |chunks[|chunks| - 1]| == records then chunks + [[v]]
                           else chunks[..|chunks| - 1] + [chunks[|chunks| - 1] + [v]];
               && grown[..|grown| - 1] + [last.(content := last.content + (Records.PaymentFields(v) + "\n"))]
                  == Records.ChunkFiles(next)
               && Counters(next, records, if k + 1 == records then 0 else k + 1, if k + 1 == records then t + 1 else t)
  {
    if chunks == [] || |chunks[|chunks| - 1]| == records {
      FileOpen(chunks, records, k, t, v, files);
    } else {
      FileExtend(chunks, records, k, t, v, files);
    }
  }

  /** FileStep when the payment opens a new file. */
  lemma FileOpen(chunks: seq<seq<Payment>>, records: int, k: int, t: int, v: Payment, files: seq<Records.DumpFile>)
    requires Counters(chunks, records, k, t)
    requires files == Records.ChunkFiles(chunks)
    requires chunks == [] || |chunks[|chunks| - 1]| == records
    ensures k == 0
    ensures var grown := files + [Records.DumpFile(Records.FileName(t), "")];
            var last := grown[|grown| - 1];
            var next := chunks + [[v]];
            && grown[..|grown| - 1] + [last.(content := last.content + (Records.PaymentFields(v) + "\n"))]
               == Records.ChunkFiles(next)
            && Counters(next, records, if k + 1 == records then 0 else k + 1, if k + 1 == records then t + 1 else t)
  {
    var line := Records.PaymentFields(v) + "\n";
    var next := chunks + [[v]];
    var grown := files + [Records.DumpFile(Records.FileName(t), "")];
    assert k == 0 && t == |chunks| + 1;
    assert grown[..|grown| - 1] + [grown[|grown| - 1].(content := grown[|grown| - 1].content + line)]
        == files + [Records.DumpFile(Records.FileName(|chunks| + 1), "" + line)];
    Records.ChunkFilesOpen(chunks, v);
    assert |next[|next| - 1]| == 1;
  }

  /** FileStep when the payment joins the open file. */
  lemma FileExtend(chunks: seq<seq<Payment>>, records: int, k: int, t: int, v: Payment, files: seq<Records.DumpFile>)
    requires Counters(chunks, records, k, t)
    requires files == Records.ChunkFiles(chunks)
    requires forall c :: 0 <= c < |chunks| ==> |chunks[c]| >= 1
    requires chunks != [] && |chunks[|chunks| - 1]| != records
    ensures k != 0 && files != []
    ensures var last := files[|files| - 1];
            var next := chunks[..|chunks| - 1] + [chunks[|chunks| - 1] + [v]];
            && files[..|files| - 1] + [last.(content := last.content + (Records.PaymentFields(v) + "\n"))]
               == Records.ChunkFiles(next)
            && Counters(next, records, if k + 1 == records then 0 else k + 1, if k + 1 == records then t + 1 else t)
  {
    var next := chunks[..|chunks| - 1] + [chunks[|chunks| - 1] + [v]];
    assert k == |chunks[|chunks| - 1]| && t == |chunks|;
    Records.ChunkFilesExtend(chunks, v);
    assert |next| == |chunks| && |next[|next| - 1]| == k + 1;
  }

  /** Adding the int64 sum of the next range to the int64 sum of the prefix
      before it gives the int64 sum of the longer prefix. */
  lemma AddPart(ps: seq<Payment>, sum: int, lo: int, hi: int)
    requires 0 <= lo <= hi <= |ps|
    requires sum == Wrap64(Total(ps[..lo]))
    ensures Wrap64(sum + Wrap64(Total(ps[lo..hi]))) == Wrap64(Total(ps[..hi]))
  {
    assert Total(ps[..hi]) == Total(ps[..lo]) + Total(ps[lo..hi]) by {
      assert ps[..hi] == ps[..lo] + ps[lo..hi];
      SumOfAppend(ps[..lo], ps[lo..hi], Amount);
    }
    WrapShift(sum, Total(ps[..lo]), Total(ps[lo..hi]));
  }

  /** Appending the filtered next range to the filtered prefix before it
      gives the filtered longer prefix. */
  lemma FilterPart(ps: seq<Payment>, keep: Payment -> bool, lo: int, hi: int)
    requires 0 <= lo <= hi <= |ps|
    ensures Filter(ps[..lo], keep) + Filter(ps[lo..hi], keep) == Filter(ps[..hi], keep)
  {
    assert ps[..hi] == ps[..lo] + ps[lo..hi];
    FilterAppend(ps[..lo], ps[lo..hi], keep);
  }
}
