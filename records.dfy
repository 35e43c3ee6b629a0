/** The text formats of pkg/wallet/service.go: the accounts file of
    ExportToFile/ImportFromFile ('|'-terminated records), the three dump files
    of Export/Import ('\n'-terminated records), and the payment files of
    HistoryToFiles. Fields are separated by ';' and numbers are written in
    decimal. Files are modelled by their contents; reading and writing them is
    left to WalletService.Service. */
module Records {
  import opened Types
  import opened Text
  import opened Partition
  import opened Ledger

  // ----- encoding one record -----

  /** `ID;Phone;Balance` */
  function AccountFields(a: Account): string
  {
    Itoa(a.id) + ";" + a.phone + ";" + Itoa(a.balance)
  }

  /** `ID;AccountID;Amount;Category;Status` */
  function PaymentFields(p: Payment): string
  {
    p.id + ";" + Itoa(p.accountID) + ";" + Itoa(p.amount) + ";" + p.category + ";" + p.status
  }

  /** `ID;AccountID;Amount;Category` (the name of a favorite is not written). */
  function FavoriteFields(f: Favorite): string
  {
    f.id + ";" + Itoa(f.accountID) + ";" + Itoa(f.amount) + ";" + f.category
  }

  function AccountBodies(accounts: seq<Account>): (bodies: seq<string>)
    ensures |bodies| == |accounts|
  {
    seq(|accounts|, k requires 0 <= k < |accounts| => AccountFields(accounts[k]))
  }

  function PaymentBodies(payments: seq<Payment>): (bodies: seq<string>)
    ensures |bodies| == |payments|
  {
    seq(|payments|, k requires 0 <= k < |payments| => PaymentFields(payments[k]))
  }

  function FavoriteBodies(favorites: seq<Favorite>): (bodies: seq<string>)
    ensures |bodies| == |favorites|
  {
    seq(|favorites|, k requires 0 <= k < |favorites| => FavoriteFields(favorites[k]))
  }

  lemma AccountBodiesTail(accounts: seq<Account>)
    requires accounts != []
    ensures AccountBodies(accounts)[1..] == AccountBodies(accounts[1..])
  {
    var b, t := AccountBodies(accounts)[1..], AccountBodies(accounts[1..]);
    forall k | 0 <= k < |t| ensures b[k] == t[k] {
      assert accounts[1..][k] == accounts[k + 1];
    }
  }

  lemma PaymentBodiesTail(payments: seq<Payment>)
    requires payments != []
    ensures PaymentBodies(payments)[1..] == PaymentBodies(payments[1..])
  {
    var b, t := PaymentBodies(payments)[1..], PaymentBodies(payments[1..]);
    forall k | 0 <= k < |t| ensures b[k] == t[k] {
      assert payments[1..][k] == payments[k + 1];
    }
  }

  lemma FavoriteBodiesTail(favorites: seq<Favorite>)
    requires favorites != []
    ensures FavoriteBodies(favorites)[1..] == FavoriteBodies(favorites[1..])
  {
    var b, t := FavoriteBodies(favorites)[1..], FavoriteBodies(favorites[1..]);
    forall k | 0 <= k < |t| ensures b[k] == t[k] {
      assert favorites[1..][k] == favorites[k + 1];
    }
  }

  lemma AccountBodiesSnoc(accounts: seq<Account>, a: Account)
    ensures AccountBodies(accounts + [a]) == AccountBodies(accounts) + [AccountFields(a)]
  {
    var l, r := AccountBodies(accounts + [a]), AccountBodies(accounts) + [AccountFields(a)];
    forall k | 0 <= k < |l| ensures l[k] == r[k] {
      if k < |accounts| { assert (accounts + [a])[k] == accounts[k]; }
    }
  }

  lemma PaymentBodiesSnoc(payments: seq<Payment>, p: Payment)
    ensures PaymentBodies(payments + [p]) == PaymentBodies(payments) + [PaymentFields(p)]
  {
    var l, r := PaymentBodies(payments + [p]), PaymentBodies(payments) + [PaymentFields(p)];
    forall k | 0 <= k < |l| ensures l[k] == r[k] {
      if k < |payments| { assert (payments + [p])[k] == payments[k]; }
    }
  }

  lemma FavoriteBodiesSnoc(favorites: seq<Favorite>, f: Favorite)
    ensures FavoriteBodies(favorites + [f]) == FavoriteBodies(favorites) + [FavoriteFields(f)]
  {
    var l, r := FavoriteBodies(favorites + [f]), FavoriteBodies(favorites) + [FavoriteFields(f)];
    forall k | 0 <= k < |l| ensures l[k] == r[k] {
      if k < |favorites| { assert (favorites + [f])[k] == favorites[k]; }
    }
  }

  /** A file made of records, each followed by the terminator. */
  function Dump(bodies: seq<string>, sep: char): string
  {
    Concat(Terminated(bodies, sep))
  }

  /** Appending one record to a dump appends its line. */
  lemma DumpSnoc(bodies: seq<string>, x: string, sep: char)
    ensures Dump(bodies + [x], sep) == Dump(bodies, sep) + (x + [sep])
  {
    assert Terminated(bodies + [x], sep) == Terminated(bodies, sep) + [x + [sep]];
    ConcatAppend(Terminated(bodies, sep), [x + [sep]]);
  }

  /** The dump of one more account of a list: the dump of the shorter prefix
      followed by that account's line. */
  lemma AccountsPrefix(accounts: seq<Account>, i: nat, sep: char)
    requires i < |accounts|
    ensures Dump(AccountBodies(accounts[..i + 1]), sep)
            == Dump(AccountBodies(accounts[..i]), sep) + (AccountFields(accounts[i]) + [sep])
  {
    assert accounts[..i + 1] == accounts[..i] + [accounts[i]];
    AccountBodiesSnoc(accounts[..i], accounts[i]);
    DumpSnoc(AccountBodies(accounts[..i]), AccountFields(accounts[i]), sep);
  }

  lemma PaymentsPrefix(payments: seq<Payment>, i: nat)
    requires i < |payments|
    ensures PaymentsText(payments[..i + 1]) == PaymentsText(payments[..i]) + (PaymentFields(payments[i]) + "\n")
  {
    assert payments[..i + 1] == payments[..i] + [payments[i]];
    PaymentBodiesSnoc(payments[..i], payments[i]);
    DumpSnoc(PaymentBodies(payments[..i]), PaymentFields(payments[i]), '\n');
  }

  lemma FavoritesPrefix(favorites: seq<Favorite>, i: nat)
    requires i < |favorites|
    ensures Dump(FavoriteBodies(favorites[..i + 1]), '\n')
            == Dump(FavoriteBodies(favorites[..i]), '\n') + (FavoriteFields(favorites[i]) + "\n")
  {
    assert favorites[..i + 1] == favorites[..i] + [favorites[i]];
    FavoriteBodiesSnoc(favorites[..i], favorites[i]);
    DumpSnoc(FavoriteBodies(favorites[..i]), FavoriteFields(favorites[i]), '\n');
  }

  lemma DumpAppend(a: seq<string>, b: seq<string>, sep: char)
    ensures Dump(a + b, sep) == Dump(a, sep) + Dump(b, sep)
  {
    assert Terminated(a + b, sep) == Terminated(a, sep) + Terminated(b, sep);
    ConcatAppend(Terminated(a, sep), Terminated(b, sep));
  }

  // ----- the files -----

  /** The file ExportToFile writes (service.go:244-254). */
  function ExportToFile(accounts: seq<Account>): string
  {
    Dump(AccountBodies(accounts), '|')
  }

  function PaymentsText(payments: seq<Payment>): string
  {
    Dump(PaymentBodies(payments), '\n')
  }

  /** The three files of Export/Import, by contents; None where there is no file. */
  datatype Dumps = Dumps(accounts: Option<string>, payments: Option<string>, favorites: Option<string>)

  /** Export (service.go:266-324): a file per non-empty slice; an empty slice
      writes nothing. */
  function Export(w: Wallet): (d: Dumps)
    ensures d.accounts.None? <==> w.accounts == []
    ensures d.payments.None? <==> w.payments == []
    ensures d.favorites.None? <==> w.favorites == []
  {
    Dumps(
      if |w.accounts| > 0 then Some(Dump(AccountBodies(w.accounts), '\n')) else None,
      if |w.payments| > 0 then Some(PaymentsText(w.payments)) else None,
      if |w.favorites| > 0 then Some(Dump(FavoriteBodies(w.favorites), '\n')) else None)
  }

  // ----- decoding -----

  /** The records of a file: strings.Split on the terminator, without the
      last piece (what follows the last terminator). */
  function Lines(data: string, sep: char): seq<string>
  {
    var pieces := Split(data, sep);
    pieces[..|pieces| - 1]
  }

  /** Reading back a dump whose records hold no terminator gives the records. */
  lemma LinesOfDump(bodies: seq<string>, sep: char)
    requires forall k :: 0 <= k < |bodies| ==> sep !in bodies[k]
    ensures Lines(Dump(bodies, sep), sep) == bodies
  {
    SplitTerminated(bodies, sep);
  }

  /** An account line, read as both importers read it (service.go:358-378 and
      403-417): field 0 is parsed first, then field 2 must exist and parse;
      field 1 is the phone. A missing field makes Go panic: MalformedRecord. */
  function ParseAccount(line: string): (r: Result<Account>)
    ensures var fields := Split(line, ';');
      r.Ok? <==> |fields| >= 3 && ParseInt(fields[0]).Some? && ParseInt(fields[2]).Some?
    ensures var fields := Split(line, ';');
      r.Ok? ==> r.value == Account(ParseInt(fields[0]).value, fields[1], ParseInt(fields[2]).value)
    // the ID is checked before the field count: a bad ID on a short line is a number error
    ensures ParseInt(Split(line, ';')[0]).None? ==> r == Err(InvalidNumber)
    ensures var fields := Split(line, ';');
      ParseInt(fields[0]).Some? && |fields| < 3 ==> r == Err(MalformedRecord)
    ensures r.Err? ==> r.error == InvalidNumber || r.error == MalformedRecord
  {
    var fields := Split(line, ';');
    match ParseInt(fields[0])
    case None => Err(InvalidNumber)
    case Some(id) =>
      if |fields| < 3 then Err(MalformedRecord)
      else match ParseInt(fields[2])
        case None => Err(InvalidNumber)
        case Some(balance) => Ok(Account(id, fields[1], balance))
  }

  /** A payment line (service.go:450-484): fields 1 and 2 are parsed in that
      order, each after its presence is checked, then fields 3 and 4 are read;
      fields past the fifth are ignored. */
  function ParsePayment(line: string): (r: Result<Payment>)
    ensures var fields := Split(line, ';');
      r.Ok? <==> |fields| >= 5 && ParseInt(fields[1]).Some? && ParseInt(fields[2]).Some?
    ensures var fields := Split(line, ';');
      r.Ok? ==> r.value == Payment(fields[0], ParseInt(fields[2]).value, fields[3], fields[4],
                                   ParseInt(fields[1]).value)
    // each field's presence is checked just before that field is parsed
    ensures |Split(line, ';')| < 2 ==> r == Err(MalformedRecord)
    ensures var fields := Split(line, ';');
      |fields| >= 2 && ParseInt(fields[1]).None? ==> r == Err(InvalidNumber)
    ensures var fields := Split(line, ';');
      |fields| >= 3 && (ParseInt(fields[1]).None? || ParseInt(fields[2]).None?) ==> r == Err(InvalidNumber)
    ensures r.Err? ==> r.error == InvalidNumber || r.error == MalformedRecord
  {
    var fields := Split(line, ';');
    if |fields| < 2 then Err(MalformedRecord)
    else match ParseInt(fields[1])
      case None => Err(InvalidNumber)
      case Some(accountID) =>
        if |fields| < 3 then Err(MalformedRecord)
        else match ParseInt(fields[2])
          case None => Err(InvalidNumber)
          case Some(amount) =>
            if |fields| < 5 then Err(MalformedRecord)
            else Ok(Payment(fields[0], amount, fields[3], fields[4], accountID))
  }

  /** A favorite line (service.go:501-533), checked in the payment order; the
      file holds no name, so a new favorite gets the empty name, and fields
      past the fourth are ignored. */
  function ParseFavorite(line: string): (r: Result<Favorite>)
    ensures var fields := Split(line, ';');
      r.Ok? <==> |fields| >= 4 && ParseInt(fields[1]).Some? && ParseInt(fields[2]).Some?
    ensures var fields := Split(line, ';');
      r.Ok? ==> r.value == Favorite(fields[0], ParseInt(fields[1]).value, "", ParseInt(fields[2]).value,
                                    fields[3])
    ensures |Split(line, ';')| < 2 ==> r == Err(MalformedRecord)
    ensures var fields := Split(line, ';');
      |fields| >= 2 && ParseInt(fields[1]).None? ==> r == Err(InvalidNumber)
    ensures var fields := Split(line, ';');
      |fields| >= 3 && (ParseInt(fields[1]).None? || ParseInt(fields[2]).None?) ==> r == Err(InvalidNumber)
    ensures r.Err? ==> r.error == InvalidNumber || r.error == MalformedRecord
  {
    var fields := Split(line, ';');
    if |fields| < 2 then Err(MalformedRecord)
    else match ParseInt(fields[1])
      case None => Err(InvalidNumber)
      case Some(accountID) =>
        if |fields| < 3 then Err(MalformedRecord)
        else match ParseInt(fields[2])
          case None => Err(InvalidNumber)
          case Some(amount) =>
            if |fields| < 4 then Err(MalformedRecord)
            else Ok(Favorite(fields[0], accountID, "", amount, fields[3]))
  }

  /** Splits `a + ";" + rest` at its first ';'. */
  lemma SplitField(a: string, rest: string)
    requires ';' !in a
    ensures Split(a + ";" + rest, ';') == [a] + Split(rest, ';')
  {
    SplitHead(a, ';', rest);
  }

  lemma SplitAccountFields(a: Account)
    requires ';' !in a.phone
    ensures Split(AccountFields(a), ';') == [Itoa(a.id), a.phone, Itoa(a.balance)]
  {
    ItoaHasNo(a.id, ';');
    ItoaHasNo(a.balance, ';');
    var tail := Itoa(a.balance);
    assert AccountFields(a) == Itoa(a.id) + ";" + (a.phone + ";" + tail);
    SplitField(Itoa(a.id), a.phone + ";" + tail);
    SplitField(a.phone, tail);
    SplitNone(tail, ';');
  }

  /** Every account whose phone holds no ';' reads back as itself. */
  lemma AccountRoundTrip(a: Account)
    requires ';' !in a.phone
    ensures ParseAccount(AccountFields(a)) == Ok(a)
  {
    SplitAccountFields(a);
    ParseItoa(a.id);
    ParseItoa(a.balance);
  }

  lemma SplitPaymentFields(p: Payment)
    requires ';' !in p.id && ';' !in p.category && ';' !in p.status
    ensures Split(PaymentFields(p), ';') == [p.id, Itoa(p.accountID), Itoa(p.amount), p.category, p.status]
  {
    ItoaHasNo(p.accountID, ';');
    ItoaHasNo(p.amount, ';');
    SplitFive(p.id, Itoa(p.accountID), Itoa(p.amount), p.category, p.status);
  }

  /** Five ';'-free fields joined by ';' split back into those five. */
  lemma SplitFive(a: string, b: string, c: string, d: string, e: string)
    requires ';' !in a && ';' !in b && ';' !in c && ';' !in d && ';' !in e
    ensures Split(a + ";" + b + ";" + c + ";" + d + ";" + e, ';') == [a, b, c, d, e]
  {
    var s1 := b + ";" + (c + ";" + (d + ";" + e));
    assert Split(s1, ';') == [b, c, d, e] by {
      SplitFour(b, c, d, e);
    }
    assert a + ";" + b + ";" + c + ";" + d + ";" + e == a + ";" + s1;
    SplitField(a, s1);
  }

  lemma SplitFour(b: string, c: string, d: string, e: string)
    requires ';' !in b && ';' !in c && ';' !in d && ';' !in e
    ensures Split(b + ";" + (c + ";" + (d + ";" + e)), ';') == [b, c, d, e]
  {
    assert Split(c + ";" + (d + ";" + e), ';') == [c, d, e] by {
      assert Split(d + ";" + e, ';') == [d, e] by {
        SplitField(d, e);
        SplitNone(e, ';');
      }
      SplitField(c, d + ";" + e);
    }
    SplitField(b, c + ";" + (d + ";" + e));
  }

  /** Every payment whose strings hold no ';' reads back as itself. */
  lemma PaymentRoundTrip(p: Payment)
    requires ';' !in p.id && ';' !in p.category && ';' !in p.status
    ensures ParsePayment(PaymentFields(p)) == Ok(p)
  {
    SplitPaymentFields(p);
    ParseItoa(p.accountID);
    ParseItoa(p.amount);
  }

  lemma SplitFavoriteFields(f: Favorite)
    requires ';' !in f.id && ';' !in f.category
    ensures Split(FavoriteFields(f), ';') == [f.id, Itoa(f.accountID), Itoa(f.amount), f.category]
  {
    ItoaHasNo(f.accountID, ';');
    ItoaHasNo(f.amount, ';');
    var s2 := Itoa(f.amount) + ";" + f.category;
    var s1 := Itoa(f.accountID) + ";" + s2;
    assert FavoriteFields(f) == f.id + ";" + s1;
    SplitField(f.id, s1);
    SplitField(Itoa(f.accountID), s2);
    SplitField(Itoa(f.amount), f.category);
    SplitNone(f.category, ';');
  }

  /** A favorite reads back as itself except for its name, which is lost. */
  lemma FavoriteRoundTrip(f: Favorite)
    requires ';' !in f.id && ';' !in f.category
    ensures ParseFavorite(FavoriteFields(f)) == Ok(f.(name := ""))
  {
    SplitFavoriteFields(f);
    ParseItoa(f.accountID);
    ParseItoa(f.amount);
  }

  // ----- merging a record into a slice -----

  predicate HasAccount(accounts: seq<Account>, id: int)
  {
    exists k | 0 <= k < |accounts| :: accounts[k].id == id
  }

  predicate HasPayment(payments: seq<Payment>, id: string)
  {
    exists k | 0 <= k < |payments| :: payments[k].id == id
  }

  predicate HasFavorite(favorites: seq<Favorite>, id: string)
  {
    exists k | 0 <= k < |favorites| :: favorites[k].id == id
  }

  /** Import's merge of an account line (service.go:418-433): EVERY account
      with that ID takes the line's phone and balance; when there is none the
      account is appended. */
  function UpsertAccount(accounts: seq<Account>, a: Account): (r: seq<Account>)
    ensures HasAccount(accounts, a.id) ==>
              && |r| == |accounts|
              && forall k :: 0 <= k < |r| ==> r[k] == if accounts[k].id == a.id then a else accounts[k]
    ensures !HasAccount(accounts, a.id) ==> r == accounts + [a]
  {
    if HasAccount(accounts, a.id) then
      seq(|accounts|, k requires 0 <= k < |accounts| =>
        if accounts[k].id == a.id then accounts[k].(phone := a.phone, balance := a.balance) else accounts[k])
    else accounts + [a]
  }

  /** Import's merge of a payment line (service.go:465-484). */
  function UpsertPayment(payments: seq<Payment>, p: Payment): (r: seq<Payment>)
    ensures HasPayment(payments, p.id) ==>
              && |r| == |payments|
              && forall k :: 0 <= k < |r| ==> r[k] == if payments[k].id == p.id then p else payments[k]
    ensures !HasPayment(payments, p.id) ==> r == payments + [p]
  {
    if HasPayment(payments, p.id) then
      seq(|payments|, k requires 0 <= k < |payments| =>
        if payments[k].id == p.id
        then payments[k].(accountID := p.accountID, amount := p.amount, category := p.category, status := p.status)
        else payments[k])
    else payments + [p]
  }

  /** Import's merge of a favorite line (service.go:514-533): a favorite that
      is already there keeps its name. */
  function UpsertFavorite(favorites: seq<Favorite>, f: Favorite): (r: seq<Favorite>)
    ensures HasFavorite(favorites, f.id) ==>
              && |r| == |favorites|
              && forall k :: 0 <= k < |r| ==>
                   r[k] == if favorites[k].id == f.id then f.(name := favorites[k].name) else favorites[k]
    ensures !HasFavorite(favorites, f.id) ==> r == favorites + [f]
  {
    if HasFavorite(favorites, f.id) then
      seq(|favorites|, k requires 0 <= k < |favorites| =>
        if favorites[k].id == f.id
        then favorites[k].(accountID := f.accountID, amount := f.amount, category := f.category)
        else favorites[k])
    else favorites + [f]
  }

  // ----- the importers -----

  /** What one of the importers' loops leaves behind: the slice as far as it
      got, and whether it stopped on a line it could not read. */
  datatype Loaded<T> = Loaded(items: seq<T>, result: Result<()>)

  /** The loop shared by the importers (service.go:364-387, 407-434, 450-485
      and 501-534): lines are read in order and each record is merged into the
      slice; the first line that does not parse stops the loop with its error,
      keeping what the lines before it did. */
  function ImportLines<T>(items: seq<T>, lines: seq<string>, parse: string -> Result<T>,
                          merge: (seq<T>, T) -> seq<T>): Loaded<T>
    decreases |lines|
  {
    if lines == [] then Loaded(items, Ok(()))
    else match parse(lines[0])
      case Err(e) => Loaded(items, Err(e))
      case Ok(x) => ImportLines(merge(items, x), lines[1..], parse, merge)
  }

  /** Merging records one after the other, first to last. */
  function MergeAll<T>(items: seq<T>, records: seq<T>, merge: (seq<T>, T) -> seq<T>): seq<T>
    decreases |records|
  {
    if records == [] then items else MergeAll(merge(items, records[0]), records[1..], merge)
  }

  /** When every line parses, the loop merges all the records, in order. */
  lemma {:induction false} ImportParsed<T>(items: seq<T>, lines: seq<string>, records: seq<T>,
                                           parse: string -> Result<T>, merge: (seq<T>, T) -> seq<T>)
    requires |lines| == |records|
    requires forall k :: 0 <= k < |lines| ==> parse(lines[k]) == Ok(records[k])
    ensures ImportLines(items, lines, parse, merge) == Loaded(MergeAll(items, records, merge), Ok(()))
    decreases |lines|
  {
    if lines != [] {
      assert parse(lines[0]) == Ok(records[0]);
      ImportParsed(merge(items, records[0]), lines[1..], records[1..], parse, merge);
    }
  }

  /** The first line that does not parse stops the loop with its error, after
      the records of the lines before it were merged. */
  lemma {:induction false} ImportStops<T>(items: seq<T>, lines: seq<string>, records: seq<T>,
                                          parse: string -> Result<T>, merge: (seq<T>, T) -> seq<T>)
    requires |records| < |lines|
    requires forall k :: 0 <= k < |records| ==> parse(lines[k]) == Ok(records[k])
    requires parse(lines[|records|]).Err?
    ensures ImportLines(items, lines, parse, merge)
            == Loaded(MergeAll(items, records, merge), Err(parse(lines[|records|]).error))
    decreases |records|
  {
    if records != [] {
      assert parse(lines[0]) == Ok(records[0]);
      assert lines[1..][|records| - 1] == lines[|records|];
      ImportStops(merge(items, records[0]), lines[1..], records[1..], parse, merge);
    }
  }

  function AppendAccount(accounts: seq<Account>, a: Account): seq<Account>
  {
    accounts + [a]
  }

  /** The accounts loop of Import (service.go:407-434). */
  function ImportAccounts(w: Wallet, lines: seq<string>): (s: Step<()>)
    ensures s.wallet.(accounts := w.accounts) == w
  {
    var loaded := ImportLines(w.accounts, lines, ParseAccount, UpsertAccount);
    Step(w.(accounts := loaded.items), loaded.result)
  }

  /** The payments loop of Import (service.go:450-485). */
  function ImportPayments(w: Wallet, lines: seq<string>): (s: Step<()>)
    ensures s.wallet.(payments := w.payments) == w
  {
    var loaded := ImportLines(w.payments, lines, ParsePayment, UpsertPayment);
    Step(w.(payments := loaded.items), loaded.result)
  }

  /** The favorites loop of Import (service.go:501-534). */
  function ImportFavorites(w: Wallet, lines: seq<string>): (s: Step<()>)
    ensures s.wallet.(favorites := w.favorites) == w
  {
    var loaded := ImportLines(w.favorites, lines, ParseFavorite, UpsertFavorite);
    Step(w.(favorites := loaded.items), loaded.result)
  }

  /** Import (service.go:393-539): accounts, then payments, then favorites,
      each only if its file exists; an error stops everything after it. The
      next account ID is not touched. */
  function Import(w: Wallet, d: Dumps): (s: Step<()>)
    ensures s.wallet.nextAccountID == w.nextAccountID
  {
    var s1 := if d.accounts.None? then Step(w, Ok(())) else ImportAccounts(w, Lines(d.accounts.value, '\n'));
    if s1.result.Err? then s1
    else
      var s2 := if d.payments.None? then s1 else ImportPayments(s1.wallet, Lines(d.payments.value, '\n'));
      if s2.result.Err? then s2
      else if d.favorites.None? then s2
      else ImportFavorites(s2.wallet, Lines(d.favorites.value, '\n'))
  }

  /** ImportFromFile (service.go:327-390) on the contents of the file: every
      account read is appended, whether or not its ID is already there. */
  function ImportFromFile(w: Wallet, data: string): (s: Step<()>)
    ensures s.wallet.(accounts := w.accounts) == w
  {
    var loaded := ImportLines(w.accounts, Lines(data, '|'), ParseAccount, AppendAccount);
    Step(w.(accounts := loaded.items), loaded.result)
  }

  // ----- round trips -----

  /** Strings the formats can carry: no field separator, no terminator. */
  predicate Clean(s: string, sep: char)
  {
    ';' !in s && sep !in s
  }

  predicate CleanPayment(p: Payment)
  {
    Clean(p.id, '\n') && Clean(p.category, '\n') && Clean(p.status, '\n')
  }

  predicate CleanFavorite(f: Favorite)
  {
    Clean(f.id, '\n') && Clean(f.category, '\n')
  }

  lemma AccountLines(accounts: seq<Account>, sep: char)
    requires forall a :: a in accounts ==> Clean(a.phone, sep)
    requires sep == '|' || sep == '\n'
    ensures Lines(Dump(AccountBodies(accounts), sep), sep) == AccountBodies(accounts)
  {
    forall k | 0 <= k < |accounts| ensures sep !in AccountBodies(accounts)[k] {
      assert accounts[k] in accounts;
      ItoaHasNo(accounts[k].id, sep);
      ItoaHasNo(accounts[k].balance, sep);
    }
    LinesOfDump(AccountBodies(accounts), sep);
  }

  lemma PaymentLines(payments: seq<Payment>)
    requires forall p :: p in payments ==> CleanPayment(p)
    ensures Lines(PaymentsText(payments), '\n') == PaymentBodies(payments)
  {
    forall k | 0 <= k < |payments| ensures '\n' !in PaymentBodies(payments)[k] {
      assert payments[k] in payments;
      ItoaHasNo(payments[k].accountID, '\n');
      ItoaHasNo(payments[k].amount, '\n');
    }
    LinesOfDump(PaymentBodies(payments), '\n');
  }

  lemma FavoriteLines(favorites: seq<Favorite>)
    requires forall f :: f in favorites ==> CleanFavorite(f)
    ensures Lines(Dump(FavoriteBodies(favorites), '\n'), '\n') == FavoriteBodies(favorites)
  {
    forall k | 0 <= k < |favorites| ensures '\n' !in FavoriteBodies(favorites)[k] {
      assert favorites[k] in favorites;
      ItoaHasNo(favorites[k].accountID, '\n');
      ItoaHasNo(favorites[k].amount, '\n');
    }
    LinesOfDump(FavoriteBodies(favorites), '\n');
  }

  /** The exported records read back one for one (favorites without names). */
  lemma AccountsParse(accounts: seq<Account>)
    requires forall a :: a in accounts ==> ';' !in a.phone
    ensures forall k :: 0 <= k < |accounts| ==> ParseAccount(AccountBodies(accounts)[k]) == Ok(accounts[k])
  {
    forall k | 0 <= k < |accounts| ensures ParseAccount(AccountBodies(accounts)[k]) == Ok(accounts[k]) {
      assert accounts[k] in accounts;
      AccountRoundTrip(accounts[k]);
    }
  }

  lemma PaymentsParse(payments: seq<Payment>)
    requires forall p :: p in payments ==> CleanPayment(p)
    ensures forall k :: 0 <= k < |payments| ==> ParsePayment(PaymentBodies(payments)[k]) == Ok(payments[k])
  {
    forall k | 0 <= k < |payments| ensures ParsePayment(PaymentBodies(payments)[k]) == Ok(payments[k]) {
      assert payments[k] in payments;
      PaymentRoundTrip(payments[k]);
    }
  }

  lemma FavoritesParse(favorites: seq<Favorite>)
    requires forall f :: f in favorites ==> CleanFavorite(f)
    ensures forall k :: 0 <= k < |favorites| ==> ParseFavorite(FavoriteBodies(favorites)[k]) == Ok(Unnamed(favorites)[k])
  {
    forall k | 0 <= k < |favorites| ensures ParseFavorite(FavoriteBodies(favorites)[k]) == Ok(Unnamed(favorites)[k]) {
      assert favorites[k] in favorites;
      FavoriteRoundTrip(favorites[k]);
    }
  }

  /** The favorites as a dump carries them: without names. */
  function Unnamed(favorites: seq<Favorite>): (r: seq<Favorite>)
    ensures |r| == |favorites|
    ensures forall k :: 0 <= k < |r| ==> r[k] == favorites[k].(name := "")
  {
    seq(|favorites|, k requires 0 <= k < |favorites| => favorites[k].(name := ""))
  }

  /** Appending records one at a time appends them all. */
  lemma {:induction false} MergeAppend(accounts: seq<Account>, records: seq<Account>)
    ensures MergeAll(accounts, records, AppendAccount) == accounts + records
    decreases |records|
  {
    if records != [] {
      MergeAppend(accounts + [records[0]], records[1..]);
      assert accounts + [records[0]] + records[1..] == accounts + records;
    }
  }

  /** ExportToFile then ImportFromFile appends the exported accounts, in order,
      to whatever the service holds. */
  lemma ImportFromFileRoundTrip(w: Wallet, accounts: seq<Account>)
    requires forall a :: a in accounts ==> Clean(a.phone, '|')
    ensures ImportFromFile(w, ExportToFile(accounts)) == Step(w.(accounts := w.accounts + accounts), Ok(()))
  {
    AccountLines(accounts, '|');
    AccountsParse(accounts);
    ImportParsed(w.accounts, AccountBodies(accounts), accounts, ParseAccount, AppendAccount);
    MergeAppend(w.accounts, accounts);
  }

  /** No two entries share an ID. */
  predicate DistinctIDs(w: Wallet)
  {
    && (forall i, j :: 0 <= i < j < |w.accounts| ==> w.accounts[i].id != w.accounts[j].id)
    && (forall i, j :: 0 <= i < j < |w.payments| ==> w.payments[i].id != w.payments[j].id)
    && (forall i, j :: 0 <= i < j < |w.favorites| ==> w.favorites[i].id != w.favorites[j].id)
  }

  /** Every string field the dump files carry is free of ';' and '\n'. */
  predicate Exportable(w: Wallet)
  {
    && (forall a :: a in w.accounts ==> Clean(a.phone, '\n'))
    && (forall p :: p in w.payments ==> CleanPayment(p))
    && (forall f :: f in w.favorites ==> CleanFavorite(f))
  }

  /** Merging an account already present, in a slice without duplicate IDs,
      changes nothing. */
  lemma UpsertPresentAccount(accounts: seq<Account>, k: nat)
    requires k < |accounts|
    requires forall i, j :: 0 <= i < j < |accounts| ==> accounts[i].id != accounts[j].id
    ensures UpsertAccount(accounts, accounts[k]) == accounts
  {
  }

  lemma UpsertPresentPayment(payments: seq<Payment>, k: nat)
    requires k < |payments|
    requires forall i, j :: 0 <= i < j < |payments| ==> payments[i].id != payments[j].id
    ensures UpsertPayment(payments, payments[k]) == payments
  {
  }

  /** Merging a favorite read back from its own line changes nothing: the name
      it lost is the one the merge keeps. */
  lemma UpsertPresentFavorite(favorites: seq<Favorite>, k: nat)
    requires k < |favorites|
    requires forall i, j :: 0 <= i < j < |favorites| ==> favorites[i].id != favorites[j].id
    ensures UpsertFavorite(favorites, favorites[k].(name := "")) == favorites
  {
  }

  lemma {:induction false} MergeOwnAccounts(accounts: seq<Account>, from: nat)
    requires from <= |accounts|
    requires forall i, j :: 0 <= i < j < |accounts| ==> accounts[i].id != accounts[j].id
    ensures MergeAll(accounts, accounts[from..], UpsertAccount) == accounts
    decreases |accounts| - from
  {
    if from < |accounts| {
      UpsertPresentAccount(accounts, from);
      assert accounts[from..][1..] == accounts[from + 1..];
      MergeOwnAccounts(accounts, from + 1);
    }
  }

  lemma {:induction false} MergeOwnPayments(payments: seq<Payment>, from: nat)
    requires from <= |payments|
    requires forall i, j :: 0 <= i < j < |payments| ==> payments[i].id != payments[j].id
    ensures MergeAll(payments, payments[from..], UpsertPayment) == payments
    decreases |payments| - from
  {
    if from < |payments| {
      UpsertPresentPayment(payments, from);
      assert payments[from..][1..] == payments[from + 1..];
      MergeOwnPayments(payments, from + 1);
    }
  }

  lemma {:induction false} MergeOwnFavorites(favorites: seq<Favorite>, from: nat)
    requires from <= |favorites|
    requires forall i, j :: 0 <= i < j < |favorites| ==> favorites[i].id != favorites[j].id
    ensures MergeAll(favorites, Unnamed(favorites)[from..], UpsertFavorite) == favorites
    decreases |favorites| - from
  {
    if from < |favorites| {
      UpsertPresentFavorite(favorites, from);
      assert Unnamed(favorites)[from..][1..] == Unnamed(favorites)[from + 1..];
      MergeOwnFavorites(favorites, from + 1);
    }
  }

  /** Importing what Export just wrote changes nothing, provided no two
      entries share an ID (otherwise the merge makes them all equal to the
      last line with that ID). */
  lemma ImportOwnExport(w: Wallet)
    requires DistinctIDs(w) && Exportable(w)
    ensures Import(w, Export(w)) == Step(w, Ok(()))
  {
    var d := Export(w);
    if |w.accounts| > 0 {
      AccountLines(w.accounts, '\n');
      AccountsParse(w.accounts);
      ImportParsed(w.accounts, AccountBodies(w.accounts), w.accounts, ParseAccount, UpsertAccount);
      MergeOwnAccounts(w.accounts, 0);
      assert w.accounts[0..] == w.accounts;
    }
    if |w.payments| > 0 {
      PaymentLines(w.payments);
      PaymentsParse(w.payments);
      ImportParsed(w.payments, PaymentBodies(w.payments), w.payments, ParsePayment, UpsertPayment);
      MergeOwnPayments(w.payments, 0);
      assert w.payments[0..] == w.payments;
    }
    if |w.favorites| > 0 {
      FavoriteLines(w.favorites);
      FavoritesParse(w.favorites);
      ImportParsed(w.favorites, FavoriteBodies(w.favorites), Unnamed(w.favorites), ParseFavorite, UpsertFavorite);
      MergeOwnFavorites(w.favorites, 0);
      assert Unnamed(w.favorites)[0..] == Unnamed(w.favorites);
    }
  }

  lemma {:induction false} MergeFreshAccounts(accounts: seq<Account>, records: seq<Account>)
    requires forall i, j :: 0 <= i < j < |records| ==> records[i].id != records[j].id
    requires forall k :: 0 <= k < |records| ==> !HasAccount(accounts, records[k].id)
    ensures MergeAll(accounts, records, UpsertAccount) == accounts + records
    decreases |records|
  {
    if records != [] {
      var next := accounts + [records[0]];
      forall k | 0 <= k < |records| - 1 ensures !HasAccount(next, records[1..][k].id) {
        assert records[1..][k] == records[k + 1];
      }
      MergeFreshAccounts(next, records[1..]);
      assert next + records[1..] == accounts + records;
    }
  }

  lemma {:induction false} MergeFreshPayments(payments: seq<Payment>, records: seq<Payment>)
    requires forall i, j :: 0 <= i < j < |records| ==> records[i].id != records[j].id
    requires forall k :: 0 <= k < |records| ==> !HasPayment(payments, records[k].id)
    ensures MergeAll(payments, records, UpsertPayment) == payments + records
    decreases |records|
  {
    if records != [] {
      var next := payments + [records[0]];
      forall k | 0 <= k < |records| - 1 ensures !HasPayment(next, records[1..][k].id) {
        assert records[1..][k] == records[k + 1];
      }
      MergeFreshPayments(next, records[1..]);
      assert next + records[1..] == payments + records;
    }
  }

  lemma {:induction false} MergeFreshFavorites(favorites: seq<Favorite>, records: seq<Favorite>)
    requires forall i, j :: 0 <= i < j < |records| ==> records[i].id != records[j].id
    requires forall k :: 0 <= k < |records| ==> !HasFavorite(favorites, records[k].id)
    ensures MergeAll(favorites, records, UpsertFavorite) == favorites + records
    decreases |records|
  {
    if records != [] {
      var next := favorites + [records[0]];
      forall k | 0 <= k < |records| - 1 ensures !HasFavorite(next, records[1..][k].id) {
        assert records[1..][k] == records[k + 1];
      }
      MergeFreshFavorites(next, records[1..]);
      assert next + records[1..] == favorites + records;
    }
  }

  /** Importing accounts whose IDs are new appends them, in order. */
  lemma ReadFreshAccounts(w: Wallet, accounts: seq<Account>)
    requires forall i, j :: 0 <= i < j < |accounts| ==> accounts[i].id != accounts[j].id
    requires forall k :: 0 <= k < |accounts| ==> !HasAccount(w.accounts, accounts[k].id)
    requires forall a :: a in accounts ==> Clean(a.phone, '\n')
    ensures ImportAccounts(w, Lines(Dump(AccountBodies(accounts), '\n'), '\n'))
            == Step(w.(accounts := w.accounts + accounts), Ok(()))
  {
    AccountLines(accounts, '\n');
    AccountsParse(accounts);
    ImportParsed(w.accounts, AccountBodies(accounts), accounts, ParseAccount, UpsertAccount);
    MergeFreshAccounts(w.accounts, accounts);
  }

  /** Importing payments whose IDs are new appends them, in order. */
  lemma ReadFreshPayments(w: Wallet, payments: seq<Payment>)
    requires forall i, j :: 0 <= i < j < |payments| ==> payments[i].id != payments[j].id
    requires forall k :: 0 <= k < |payments| ==> !HasPayment(w.payments, payments[k].id)
    requires forall p :: p in payments ==> CleanPayment(p)
    ensures ImportPayments(w, Lines(PaymentsText(payments), '\n'))
            == Step(w.(payments := w.payments + payments), Ok(()))
  {
    PaymentLines(payments);
    PaymentsParse(payments);
    ImportParsed(w.payments, PaymentBodies(payments), payments, ParsePayment, UpsertPayment);
    MergeFreshPayments(w.payments, payments);
  }

  /** Importing favorites whose IDs are new appends them, in order, without
      their names. */
  lemma ReadFreshFavorites(w: Wallet, favorites: seq<Favorite>)
    requires forall i, j :: 0 <= i < j < |favorites| ==> favorites[i].id != favorites[j].id
    requires forall k :: 0 <= k < |favorites| ==> !HasFavorite(w.favorites, favorites[k].id)
    requires forall f :: f in favorites ==> CleanFavorite(f)
    ensures ImportFavorites(w, Lines(Dump(FavoriteBodies(favorites), '\n'), '\n'))
            == Step(w.(favorites := w.favorites + Unnamed(favorites)), Ok(()))
  {
    var records := Unnamed(favorites);
    FavoriteLines(favorites);
    FavoritesParse(favorites);
    ImportParsed(w.favorites, FavoriteBodies(favorites), records, ParseFavorite, UpsertFavorite);
    assert forall k :: 0 <= k < |records| ==> records[k].id == favorites[k].id;
    MergeFreshFavorites(w.favorites, records);
  }

  /** Export then Import into a new service restores every account and
      payment, and every favorite without its name; the next account ID stays 0. */
  lemma ExportImportRoundTrip(w: Wallet)
    requires DistinctIDs(w) && Exportable(w)
    ensures Import(Empty, Export(w)) == Step(Wallet(0, w.accounts, w.payments, Unnamed(w.favorites)), Ok(()))
  {
    var d := Export(w);
    var w1 := Wallet(0, w.accounts, [], []);
    var w2 := Wallet(0, w.accounts, w.payments, []);
    var s1 := if d.accounts.None? then Step(Empty, Ok(())) else ImportAccounts(Empty, Lines(d.accounts.value, '\n'));
    var s2 := if d.payments.None? then s1 else ImportPayments(w1, Lines(d.payments.value, '\n'));
    var s3 := if d.favorites.None? then s2 else ImportFavorites(w2, Lines(d.favorites.value, '\n'));
    AccountsStage(w);
    PaymentsStage(w);
    FavoritesStage(w);
    assert Import(Empty, d) == s3;
  }

  /** The accounts file of Export(w), read into a new service. */
  lemma AccountsStage(w: Wallet)
    requires DistinctIDs(w) && Exportable(w)
    ensures var d := Export(w);
            (if d.accounts.None? then Step(Empty, Ok(())) else ImportAccounts(Empty, Lines(d.accounts.value, '\n')))
            == Step(Wallet(0, w.accounts, [], []), Ok(()))
  {
    if |w.accounts| > 0 {
      ReadFreshAccounts(Empty, w.accounts);
      assert [] + w.accounts == w.accounts;
    }
  }

  /** The payments file of Export(w), read after its accounts. */
  lemma PaymentsStage(w: Wallet)
    requires DistinctIDs(w) && Exportable(w)
    ensures var d := Export(w);
            var w1 := Wallet(0, w.accounts, [], []);
            (if d.payments.None? then Step(w1, Ok(())) else ImportPayments(w1, Lines(d.payments.value, '\n')))
            == Step(w1.(payments := w.payments), Ok(()))
  {
    if |w.payments| > 0 {
      ReadFreshPayments(Wallet(0, w.accounts, [], []), w.payments);
      assert [] + w.payments == w.payments;
    }
  }

  /** The favorites file of Export(w), read after its accounts and payments. */
  lemma FavoritesStage(w: Wallet)
    requires DistinctIDs(w) && Exportable(w)
    ensures var d := Export(w);
            var w2 := Wallet(0, w.accounts, w.payments, []);
            (if d.favorites.None? then Step(w2, Ok(())) else ImportFavorites(w2, Lines(d.favorites.value, '\n')))
            == Step(w2.(favorites := Unnamed(w.favorites)), Ok(()))
  {
    if |w.favorites| > 0 {
      ReadFreshFavorites(Wallet(0, w.accounts, w.payments, []), w.favorites);
      assert [] + Unnamed(w.favorites) == Unnamed(w.favorites);
    }
  }

  // ----- HistoryToFiles -----

  /** A file written by HistoryToFiles: its name in the directory and its contents. */
  datatype DumpFile = DumpFile(name: string, content: string)

  /** `"payments" + fmt.Sprint(t) + ".dump"` */
  function FileName(t: nat): string
  {
    "payments" + Itoa(t) + ".dump"
  }

  /** How the chunked branch of HistoryToFiles (service.go:581-598) groups the
      payments, one payment at a time: a payment opens a new file when the
      counter k is 0 (at the start, and after a file reaches `records`
      lines), and otherwise goes into the current one. */
  function Chunks(payments: seq<Payment>, records: int): (chunks: seq<seq<Payment>>)
  {
    if payments == [] then []
    else
      var chunks := Chunks(payments[..|payments| - 1], records);
      var p := payments[|payments| - 1];
      if chunks == [] || |chunks[|chunks| - 1]| == records then chunks + [[p]]
      else chunks[..|chunks| - 1] + [chunks[|chunks| - 1] + [p]]
  }

  /** The chunks hold the payments, in order. */
  lemma {:induction false} ChunksFlatten(payments: seq<Payment>, records: int)
    ensures Flatten(Chunks(payments, records)) == payments
  {
    if payments != [] {
      var init := payments[..|payments| - 1];
      var p := payments[|payments| - 1];
      ChunksFlatten(init, records);
      var prev := Chunks(init, records);
      assert payments == init + [p];
      if prev == [] || |prev[|prev| - 1]| == records {
        FlattenAppend(prev, [[p]]);
        assert Flatten([[p]]) == [p];
      } else {
        var last := prev[|prev| - 1];
        assert prev == prev[..|prev| - 1] + [last];
        FlattenAppend(prev[..|prev| - 1], [last]);
        FlattenAppend(prev[..|prev| - 1], [last + [p]]);
        assert Flatten([last]) == last;
        assert Flatten([last + [p]]) == last + [p];
      }
    }
  }

  /** No chunk is empty, every chunk but the last has exactly `records`
      payments and none has more; with `records <= 0` the counter never comes
      back to 0, so everything goes into one chunk. */
  lemma {:induction false} ChunksSizes(payments: seq<Payment>, records: int)
    ensures var chunks := Chunks(payments, records);
            && (chunks == [] <==> payments == [])
            && (forall c :: 0 <= c < |chunks| ==> |chunks[c]| >= 1)
            && (forall c :: 0 <= c < |chunks| - 1 ==> |chunks[c]| == records)
            && (records >= 1 ==> forall c :: 0 <= c < |chunks| ==> |chunks[c]| <= records)
            && (records <= 0 ==> |chunks| <= 1)
  {
    ChunksNonEmpty(payments, records);
    ChunksFull(payments, records);
    if records >= 1 {
      ChunksBounded(payments, records);
    }
    if |Chunks(payments, records)| > 1 {
      // the first chunk is full, and no chunk is empty
      assert |Chunks(payments, records)[0]| == records >= 1;
    }
  }

  lemma {:induction false} ChunksNonEmpty(payments: seq<Payment>, records: int)
    ensures var chunks := Chunks(payments, records);
            && (chunks == [] <==> payments == [])
            && (forall c :: 0 <= c < |chunks| ==> |chunks[c]| >= 1)
  {
    if payments != [] {
      var init := payments[..|payments| - 1];
      var p := payments[|payments| - 1];
      ChunksNonEmpty(init, records);
      var prev := Chunks(init, records);
      var chunks := Chunks(payments, records);
      if prev == [] || |prev[|prev| - 1]| == records {
        assert chunks == prev + [[p]];
      } else {
        assert chunks == prev[..|prev| - 1] + [prev[|prev| - 1] + [p]];
      }
    }
  }

  lemma {:induction false} ChunksFull(payments: seq<Payment>, records: int)
    ensures forall c :: 0 <= c < |Chunks(payments, records)| - 1 ==> |Chunks(payments, records)[c]| == records
  {
    if payments != [] {
      var init := payments[..|payments| - 1];
      var p := payments[|payments| - 1];
      ChunksFull(init, records);
      var prev := Chunks(init, records);
      var chunks := Chunks(payments, records);
      if prev == [] || |prev[|prev| - 1]| == records {
        assert chunks == prev + [[p]];
        forall c | 0 <= c < |chunks| - 1 ensures |chunks[c]| == records {
          assert chunks[c] == prev[c];
        }
      } else {
        assert chunks == prev[..|prev| - 1] + [prev[|prev| - 1] + [p]];
        assert forall c :: 0 <= c < |prev| - 1 ==> chunks[c] == prev[c];
      }
    }
  }

  lemma {:induction false} ChunksBounded(payments: seq<Payment>, records: int)
    requires records >= 1
    ensures forall c :: 0 <= c < |Chunks(payments, records)| ==> |Chunks(payments, records)[c]| <= records
  {
    if payments != [] {
      var init := payments[..|payments| - 1];
      var p := payments[|payments| - 1];
      ChunksBounded(init, records);
      var prev := Chunks(init, records);
      var chunks := Chunks(payments, records);
      if prev == [] || |prev[|prev| - 1]| == records {
        assert chunks == prev + [[p]];
        forall c | 0 <= c < |chunks| ensures |chunks[c]| <= records {
          if c < |prev| {
            assert chunks[c] == prev[c];
          }
        }
      } else {
        assert chunks == prev[..|prev| - 1] + [prev[|prev| - 1] + [p]];
        assert forall c :: 0 <= c < |prev| - 1 ==> chunks[c] == prev[c];
        assert |chunks[|prev| - 1]| == |prev[|prev| - 1]| + 1;
      }
    }
  }

  /** The files of the chunked branch: chunk c goes to payments{c+1}.dump. */
  function ChunkFiles(chunks: seq<seq<Payment>>): (files: seq<DumpFile>)
    ensures |files| == |chunks|
  {
    seq(|chunks|, c requires 0 <= c < |chunks| => DumpFile(FileName(c + 1), PaymentsText(chunks[c])))
  }

  /** One more payment: it opens a new chunk when there is none or the last
      one is full, and otherwise joins the last one. */
  lemma ChunksSnoc(payments: seq<Payment>, records: int, i: nat)
    requires i < |payments|
    ensures var chunks := Chunks(payments[..i], records);
            var p := payments[i];
            Chunks(payments[..i + 1], records) ==
              if chunks == [] || |chunks[|chunks| - 1]| == records then chunks + [[p]]
              else chunks[..|chunks| - 1] + [chunks[|chunks| - 1] + [p]]
  {
    assert payments[..i + 1][..i] == payments[..i];
  }

  /** The files after a new chunk is opened: one more, named after the new
      chunk's number, holding the payment's line. */
  lemma ChunkFilesOpen(chunks: seq<seq<Payment>>, p: Payment)
    ensures ChunkFiles(chunks + [[p]]) ==
              ChunkFiles(chunks) + [DumpFile(FileName(|chunks| + 1), "" + (PaymentFields(p) + "\n"))]
  {
    PaymentBodiesSnoc([], p);
    DumpSnoc([], PaymentFields(p), '\n');
    assert PaymentBodies([]) == [];
    assert Terminated([], '\n') == [];
    assert [] + [p] == [p];
    var l, r := ChunkFiles(chunks + [[p]]), ChunkFiles(chunks) + [DumpFile(FileName(|chunks| + 1), "" + (PaymentFields(p) + "\n"))];
    forall c | 0 <= c < |l| ensures l[c] == r[c] {
      if c < |chunks| { assert (chunks + [[p]])[c] == chunks[c]; }
    }
  }

  /** The files after a payment joins the last chunk: its line is added to the
      last file. */
  lemma ChunkFilesExtend(chunks: seq<seq<Payment>>, p: Payment)
    requires chunks != []
    ensures var files := ChunkFiles(chunks);
            var last := files[|files| - 1];
            ChunkFiles(chunks[..|chunks| - 1] + [chunks[|chunks| - 1] + [p]]) ==
              files[..|files| - 1] + [last.(content := last.content + (PaymentFields(p) + "\n"))]
  {
    var c := chunks[|chunks| - 1];
    PaymentBodiesSnoc(c, p);
    DumpSnoc(PaymentBodies(c), PaymentFields(p), '\n');
    var l := ChunkFiles(chunks[..|chunks| - 1] + [c + [p]]);
    var files := ChunkFiles(chunks);
    var r := files[..|files| - 1] + [files[|files| - 1].(content := files[|files| - 1].content + (PaymentFields(p) + "\n"))];
    forall j | 0 <= j < |l| ensures l[j] == r[j] {
      if j < |chunks| - 1 { assert (chunks[..|chunks| - 1] + [c + [p]])[j] == chunks[j]; }
    }
  }

  /** HistoryToFiles (service.go:567-604): nothing for no payments; a single
      payments.dump when they fit in `records` lines; otherwise the chunks. */
  function HistoryFiles(payments: seq<Payment>, records: int): seq<DumpFile>
  {
    if |payments| == 0 then []
    else if |payments| <= records then [DumpFile("payments.dump", PaymentsText(payments))]
    else ChunkFiles(Chunks(payments, records))
  }

  function Contents(files: seq<DumpFile>): (texts: seq<string>)
    ensures |texts| == |files|
  {
    seq(|files|, k requires 0 <= k < |files| => files[k].content)
  }

  lemma PaymentBodiesAppend(a: seq<Payment>, b: seq<Payment>)
    ensures PaymentBodies(a + b) == PaymentBodies(a) + PaymentBodies(b)
  {
  }

  lemma {:induction false} PaymentsTextFlatten(chunks: seq<seq<Payment>>)
    ensures Concat(seq(|chunks|, c requires 0 <= c < |chunks| => PaymentsText(chunks[c]))) == PaymentsText(Flatten(chunks))
    decreases |chunks|
  {
    var texts := seq(|chunks|, c requires 0 <= c < |chunks| => PaymentsText(chunks[c]));
    if chunks != [] {
      PaymentsTextFlatten(chunks[1..]);
      assert texts[1..] == seq(|chunks| - 1, c requires 0 <= c < |chunks| - 1 => PaymentsText(chunks[1..][c]));
      PaymentBodiesAppend(chunks[0], Flatten(chunks[1..]));
      DumpAppend(PaymentBodies(chunks[0]), PaymentBodies(Flatten(chunks[1..])), '\n');
    } else {
      assert PaymentBodies([]) == [];
      assert Terminated([], '\n') == [];
    }
  }

  /** The files hold, in order, exactly the lines of all the payments: none
      is lost or written twice. */
  lemma HistoryFilesCover(payments: seq<Payment>, records: int)
    ensures Concat(Contents(HistoryFiles(payments, records))) == PaymentsText(payments)
  {
    var files := HistoryFiles(payments, records);
    if |payments| == 0 {
      assert PaymentBodies(payments) == [];
      assert Terminated([], '\n') == [];
    } else if |payments| <= records {
      assert Contents(files) == [PaymentsText(payments)];
    } else {
      var chunks := Chunks(payments, records);
      ChunksFlatten(payments, records);
      assert Contents(files) == seq(|chunks|, c requires 0 <= c < |chunks| => PaymentsText(chunks[c]));
      PaymentsTextFlatten(chunks);
    }
  }

  /** Each file of the chunked branch reads back as the lines of its chunk. */
  lemma ChunkLines(payments: seq<Payment>, records: int)
    requires forall p :: p in payments ==> CleanPayment(p)
    ensures var chunks := Chunks(payments, records);
            forall c :: 0 <= c < |chunks| ==> Lines(ChunkFiles(chunks)[c].content, '\n') == PaymentBodies(chunks[c])
  {
    var chunks := Chunks(payments, records);
    ChunksFlatten(payments, records);
    forall c | 0 <= c < |chunks| ensures Lines(ChunkFiles(chunks)[c].content, '\n') == PaymentBodies(chunks[c]) {
      FlattenMember(chunks, c);
      PaymentLines(chunks[c]);
    }
  }

  /** Every file but the last holds exactly `records` payments, the last at
      most that many, and no file is empty; with `records <= 0` there is one
      file, holding every payment. */
  lemma HistoryFilesSizes(payments: seq<Payment>, records: int)
    requires |payments| >= 1 && |payments| > records
    requires forall p :: p in payments ==> CleanPayment(p)
    ensures var files := HistoryFiles(payments, records);
            && |files| >= 1
            && (records <= 0 ==> |files| == 1 && Lines(files[0].content, '\n') == PaymentBodies(payments))
            && (forall c :: 0 <= c < |files| ==> 1 <= |Lines(files[c].content, '\n')|)
            && (forall c :: 0 <= c < |files| - 1 ==> |Lines(files[c].content, '\n')| == records)
            && (records >= 1 ==> forall c :: 0 <= c < |files| ==> |Lines(files[c].content, '\n')| <= records)
  {
    var chunks := Chunks(payments, records);
    assert HistoryFiles(payments, records) == ChunkFiles(chunks);
    ChunksSizes(payments, records);
    ChunkLines(payments, records);
    if records <= 0 {
      ChunksFlatten(payments, records);
      assert chunks == [chunks[0]];
      assert Flatten(chunks) == chunks[0] + Flatten(chunks[1..]);
    }
  }

  /** Every element of a part is an element of the flattened sequence. */
  lemma {:induction false} FlattenMember<T>(parts: seq<seq<T>>, c: nat)
    requires c < |parts|
    ensures forall x :: x in parts[c] ==> x in Flatten(parts)
    decreases |parts|
  {
    if c > 0 {
      FlattenMember(parts[1..], c - 1);
    }
  }

  /** The number a chunk file's name carries, read back. */
  function FileNumber(name: string): Option<nat>
  {
    if |name| < 13 then None else ParseDigits(name[8..|name| - 5])
  }

  /** A chunk file's name gives back its number, so different numbers make
      different names. */
  lemma FileNameNumber(t: nat)
    ensures FileNumber(FileName(t)) == Some(t)
  {
    var name := FileName(t);
    assert name[8..|name| - 5] == Digits(t);
    DigitsRoundTrip(t);
  }

  /** The files have pairwise different names, so none overwrites another. */
  lemma HistoryFileNamesDistinct(payments: seq<Payment>, records: int)
    ensures var files := HistoryFiles(payments, records);
            forall i, j :: 0 <= i < j < |files| ==> files[i].name != files[j].name
  {
    if |payments| > 0 && |payments| > records {
      ChunkFileNamesDistinct(Chunks(payments, records));
    }
  }

  lemma ChunkFileNamesDistinct(chunks: seq<seq<Payment>>)
    ensures var files := ChunkFiles(chunks);
            forall i, j :: 0 <= i < j < |files| ==> files[i].name != files[j].name
  {
    var files := ChunkFiles(chunks);
    forall i, j | 0 <= i < j < |files| ensures files[i].name != files[j].name {
      FileNamesDiffer(i + 1, j + 1);
    }
  }

  lemma FileNamesDiffer(s: nat, t: nat)
    requires s != t
    ensures FileName(s) != FileName(t)
  {
    FileNameNumber(s);
    FileNameNumber(t);
  }
}
