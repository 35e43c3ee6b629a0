# Wallet ledger, modelled in Dafny

This project models the in-memory e-wallet service of `pkg/wallet`, along with the record types of
`pkg/types`. A `Service` holds:

- a counter for account IDs;
- slices of accounts, payments and favorites.

It lets a client:

- register accounts by phone number, deposit money and pay;
- find accounts, payments and favorites by ID;
- reject a payment (refunding it) or repeat it;
- save a payment as a favorite and pay from it;
- export and import the whole state as `;`-separated text dumps;
- write an account's payment history into files of at most `records` lines;
- sum and filter payments by splitting the slice among several workers.

The project has these modules:

- `Types` (types.dfy) holds the records of `pkg/types/types.go`.
  - `Money` is an int64.
  - `Wrap64` is two's-complement wrap-around. Every `+=` that can overflow goes through it.
- `Text` (text.dfy) models the Go library calls the dumps rely on: `strings.Split`, `strconv.Itoa`/`fmt.Sprint` on integers, and `strconv.ParseInt`/`Atoi`. It proves that they round-trip.
- `Partition` (partition.dfy) covers the worker arithmetic shared by `SumPayments`, `FilterPayments` and `FilterPaymentsByFn`: `kol = n / goroutines`, then `goroutines - 1` ranges and a tail. It also defines the sequential total and filter, and proves that any merge order of the workers' results gives the same sum and the same multiset.
- `Ledger` (ledger.dfy) is the service's state as a value, `Wallet`. Every guarded update is a function returning the new wallet and a `Result`, and the lemmas relate the operations.
- `Records` (records.dfy) holds:
  - the line encoders of the dumps;
  - the parsers and merge ("upsert") rules of the importers;
  - the chunking of `HistoryToFiles`;
  - the round-trip and coverage lemmas.
- `ProgressSum` (progress.dfy) holds the records emitted by `SumPaymentsWithProgress`, both as written and as intended (see Findings).
- `WalletService` (service.dfy) has the class `Service`. Its fields are the Go struct's fields, and its methods run the source's loops.
  - Every mutating method ties its new state and result to a `Ledger` or `Records` function of the old state. Most ensure `Step(State(), r) == Ledger.Op(old(State()), …)`. `Import` and `ImportFromFile` use the `Records` importers. The `Merge*` methods ensure that one slice becomes its upsert and the other fields are unchanged.
  - Every query or loop method ensures its result equals the specification function from the modules above.
  - So each property proved about the functions holds for the class.

## Model

| member | source | states |
|---|---|---|
| Types.Wrap64 | pkg/types/types.go:3 | Money and int64 values are two's-complement 64-bit: an in-range sum is unchanged, an out-of-range one wraps to the congruent value in range |
| Types.WrapAdd | pkg/wallet/service.go:625-628 | wrapping after every addition gives the same int64 as wrapping once at the end, so a running `+=` sum equals the wrapped exact total |
| Ledger.FindAccountIndex | pkg/wallet/service.go:113-127 | the lookup finds the first account with that ID, and finds none exactly when no account has it |
| Ledger.FindPaymentIndex | pkg/wallet/service.go:131-145 | the loop has no break, so the lookup finds the last payment with that ID; none exactly when no payment has it |
| Ledger.FindFavoriteIndex | pkg/wallet/service.go:183-190 | the first favorite with that ID; none exactly when no favorite has it |
| Ledger.RegisterAccount | pkg/wallet/service.go:37-52 | a phone already in use gives ErrPhoneRegistered and leaves everything unchanged; otherwise the ID counter goes up by one and one account with that ID, the phone and balance 0 is appended, nothing else changes |
| Ledger.Deposit | pkg/wallet/service.go:56-75 | a non-positive amount is refused before the account lookup; an unknown account gives ErrAccountNotFound; otherwise only the found account changes, by +amount in int64 |
| Ledger.Pay | pkg/wallet/service.go:79-109 | checks amount, then account, then balance, each error leaving the wallet unchanged; on success the account loses exactly amount and one INPROGRESS payment with the given ID is appended |
| Ledger.Reject | pkg/wallet/service.go:149-164 | unknown payment or owner gives an error and no change; otherwise that payment becomes FAIL and its amount is added back to its owner, whatever its previous status, and nothing else changes |
| Ledger.FavoritePayment | pkg/wallet/service.go:193-211 | an unknown payment gives ErrPaymentNotFound and no change; a found payment always succeeds, appending one favorite with the fresh ID and name that copies the payment's account, amount and category |
| Ledger.RepeatCopiesPayment | pkg/wallet/service.go:168-180 | a successful Repeat appends a payment with the original's account, amount and category, the new ID and status INPROGRESS |
| Ledger.FavoriteThenPayIsRepeat | pkg/wallet/service.go:214-226 | paying from a favorite just saved from a payment is the same step as repeating that payment, and the new payment starts INPROGRESS since a favorite has no status |
| Ledger.NewestPaymentFound | pkg/wallet/service.go:134-138 | after a payment is appended, a lookup by its ID finds that newest payment even when an older one shares the ID |
| Ledger.PayThenRejectRestores | pkg/wallet/service.go:79-164 | rejecting the payment just made restores every account balance and leaves that payment recorded as FAIL |
| Ledger.RejectTwiceRefundsTwice | pkg/wallet/service.go:149-164 | Reject does not check the status: a second reject of the same payment succeeds again and credits the amount a second time |
| Ledger.RegisterKeepsPhonesUnique | pkg/wallet/service.go:38-43 | registering keeps phone numbers unique among accounts |
| Ledger.PayConserves | pkg/wallet/service.go:79-109 | a payment moves money from a balance into an outstanding payment: balances plus non-failed payments stay constant |
| Ledger.DepositAdds | pkg/wallet/service.go:56-75 | a deposit (without overflow) increases the money held by exactly the amount |
| Ledger.RejectRefunds | pkg/wallet/service.go:149-164 | rejecting a payment that had not failed keeps the money held constant; rejecting an already failed one creates its amount again |
| Text.SplitJoin | pkg/wallet/service.go:359 | `strings.Split` pieces joined back with the separator give the input, and no piece contains the separator |
| Text.SplitTerminated | pkg/wallet/service.go:359-363 | splitting a dump of separator-terminated lines gives the lines and one empty trailing piece, the one the importers drop |
| Text.ParseItoa | pkg/wallet/service.go:247-249 | decimal printing of an int64 parses back to the same int64 |
| Partition.RangesChain | pkg/wallet/service.go:613-637 | for every int64 `goroutines` (and a slice length n that fits an int), the workers' ranges are consecutive, in bounds and run from 0 to n: `goroutines` of them when goroutines >= 2, the single range [0, n) for MinInt64 < goroutines <= 1, and, at MinInt64, where `goroutines-1` wraps to MaxInt64, 2^63 - 1 empty ranges followed by [0, n) |
| Partition.RangesCoverOnce | pkg/wallet/service.go:618-637 | every payment index lies in exactly one worker's range |
| Partition.PartitionedSum | pkg/wallet/service.go:607-648 | whatever order the workers add their partial sums in, the result is the total of all amounts |
| Partition.PartitionedWrappedSum | pkg/wallet/service.go:607-648 | whatever order the workers take the mutex in, adding their int64 partial sums into `sum` in int64 gives the int64 total of all amounts |
| Partition.PartitionedFilter | pkg/wallet/service.go:664-711 | whatever order the workers' results are appended in, the merged result is, as a multiset, exactly the payments the filter keeps |
| Records.Export | pkg/wallet/service.go:266-324 | a dump file is written exactly when its slice is non-empty |
| Records.ParseAccount | pkg/wallet/service.go:409-417 | an account line is accepted exactly when it has at least three `;`-fields and fields 0 and 2 are int64 numbers, giving ID, phone (field 1) and balance; extra fields are ignored; the ID is parsed before the field count is checked, so a bad ID on a short line is `InvalidNumber`, and a good ID on a short line is `MalformedRecord` |
| Records.ParsePayment | pkg/wallet/service.go:452-465 | a payment line is accepted exactly when it has at least five fields and fields 1 (account) and 2 (amount) are int64 numbers, giving ID, amount, category and status from fields 0, 2, 3, 4; extra fields are ignored; each field's presence is checked just before it is parsed, so fewer than two fields is `MalformedRecord` and a bad number in a present field is `InvalidNumber` |
| Records.ParseFavorite | pkg/wallet/service.go:503-516 | a favorite line is accepted exactly when it has at least four fields and fields 1 and 2 are int64 numbers; the favorite gets the empty name; extra fields are ignored; errors come in the payment order (`MalformedRecord` below two fields, `InvalidNumber` for a present bad number) |
| Records.AccountRoundTrip | pkg/wallet/service.go:279-282 | an account line `ID;phone;balance` parses back to the same account when the phone holds neither `;` nor a terminator |
| Records.PaymentRoundTrip | pkg/wallet/service.go:298-300 | a payment line parses back to the same payment, all five fields, when its ID, category and status contain no `;` |
| Records.FavoriteRoundTrip | pkg/wallet/service.go:317-319 | a favorite line parses back to the same favorite except its name, which the line does not carry, when its ID and category contain no `;` |
| Records.UpsertAccount | pkg/wallet/service.go:419-434 | importing an account line overwrites every account with that ID, and appends only when there is none |
| Records.UpsertPayment | pkg/wallet/service.go:466-485 | importing a payment line overwrites every payment with that ID, and appends only when there is none |
| Records.UpsertFavorite | pkg/wallet/service.go:517-534 | importing a favorite line overwrites every favorite with that ID but keeps its name, and appends only when there is none |
| Records.ImportStops | pkg/wallet/service.go:364-387 | the import loop stops at the first unparsable line and keeps what it merged before it |
| Records.ImportParsed | pkg/wallet/service.go:407-434 | when every line parses, the import loop merges all records in order |
| Records.ImportFromFileRoundTrip | pkg/wallet/service.go:229-390 | when no phone contains `;` or `|`, reading the `|`-terminated account dump back appends exactly the exported accounts, in order |
| Records.ImportOwnExport | pkg/wallet/service.go:266-539 | for a wallet with distinct IDs and separator-free text fields, importing its own dumps into it succeeds and changes nothing |
| Records.ExportImportRoundTrip | pkg/wallet/service.go:266-539 | for a wallet with distinct IDs and separator-free text fields, importing its dumps into a new service rebuilds its accounts and payments, its favorites without names, and leaves the ID counter at 0 |
| Records.ChunksFlatten | pkg/wallet/service.go:581-598 | the chunks of the history, concatenated in order, are the history |
| Records.ChunksSizes | pkg/wallet/service.go:581-598 | every chunk is non-empty, every one but the last holds exactly `records` payments, and none holds more when records >= 1 |
| Records.HistoryFilesCover | pkg/wallet/service.go:567-604 | the files' contents, concatenated in order, are exactly the lines of all payments: none lost or written twice |
| Records.HistoryFilesSizes | pkg/wallet/service.go:567-604 | for at least one payment and more payments than `records`, when no ID, category or status contains a newline: each file reads back as at least one line; every file but the last has `records` lines; with records <= 0 there is one file holding every payment |
| Records.HistoryFileNamesDistinct | pkg/wallet/service.go:578-587 | the history files have pairwise different names, so none overwrites another |
| ProgressSum.Goroutines | pkg/wallet/service.go:792-796 | at least one worker; one exactly when there are fewer than two units of 1 000 000 payments |
| ProgressSum.WholeSliceOvercounts | pkg/wallet/service.go:800-813 | as written, from two units on, the records claim Goroutines times the payments and their results add to Goroutines times the sum |
| ProgressSum.WholeSliceSmall | pkg/wallet/service.go:792-813 | as written, below two units there is one record with every payment and their sum, so zero payments give the record {0, 0} |
| ProgressSum.ChunkedCovers | pkg/wallet/service.go:789-821 | with each worker on its own unit, the records cover every payment exactly once and their results add (in int64) to the int64 total |
| WalletService.Service.constructor | pkg/wallet/service.go:28-33 | a new service holds no accounts, payments or favorites and starts its ID counter at 0 |
| WalletService.Service.FindAccountByID | pkg/wallet/service.go:113-127 | returns the first account with the ID, or ErrAccountNotFound exactly when there is none |
| WalletService.Service.FindPaymentByID | pkg/wallet/service.go:131-145 | returns the last payment with the ID, or ErrPaymentNotFound exactly when there is none |
| WalletService.Service.FindFavoriteByID | pkg/wallet/service.go:183-190 | returns the first favorite with the ID, or ErrFavoriteNotFound exactly when there is none |
| WalletService.Service.RegisterAccount | pkg/wallet/service.go:37-52 | the new state and result are those of Ledger.RegisterAccount |
| WalletService.Service.Deposit | pkg/wallet/service.go:56-75 | the new state and result are those of Ledger.Deposit |
| WalletService.Service.Pay | pkg/wallet/service.go:79-109 | the new state and result are those of Ledger.Pay |
| WalletService.Service.Reject | pkg/wallet/service.go:149-164 | the new state and result are those of Ledger.Reject |
| WalletService.Service.Repeat | pkg/wallet/service.go:168-180 | the new state and result are those of paying again with the found payment's account, amount and category |
| WalletService.Service.FavoritePayment | pkg/wallet/service.go:193-211 | the new state and result are those of Ledger.FavoritePayment |
| WalletService.Service.PayFromFavorite | pkg/wallet/service.go:214-226 | the new state and result are those of paying with the found favorite's account, amount and category |
| WalletService.Service.ExportToFile | pkg/wallet/service.go:229-263 | the loop writes the accounts as `ID;phone;balance|` records in order |
| WalletService.Service.Export | pkg/wallet/service.go:266-324 | the three dumps built by the loops are those of Records.Export, one `\n`-terminated line per record |
| WalletService.Service.ImportFromFile | pkg/wallet/service.go:327-390 | appends the parsed accounts in order, stopping with an error at the first bad record |
| WalletService.Service.MergeAccount | pkg/wallet/service.go:419-434 | the accounts become their upsert with the parsed account; nothing else changes |
| WalletService.Service.MergePayment | pkg/wallet/service.go:466-485 | the payments become their upsert with the parsed payment; nothing else changes |
| WalletService.Service.MergeFavorite | pkg/wallet/service.go:517-534 | the favorites become their upsert with the parsed favorite; nothing else changes |
| WalletService.Service.Import | pkg/wallet/service.go:393-539 | accounts, then payments, then favorites are merged from whichever dumps exist, stopping at the first bad line |
| WalletService.Service.ExportAccountHistory | pkg/wallet/service.go:542-564 | an unknown account gives ErrAccountNotFound; otherwise copies of exactly that account's payments, in order |
| WalletService.Service.HistoryToFiles | pkg/wallet/service.go:567-604 | no files for no payments, one payments.dump when they fit in `records` lines, otherwise payments1.dump, payments2.dump, … as Records.HistoryFiles |
| WalletService.Service.ChunkedHistory | pkg/wallet/service.go:581-598 | the `k`/`t` counter loop writes chunk c into payments{c+1}.dump |
| WalletService.Service.SumPayments | pkg/wallet/service.go:607-648 | for every worker count, the result is the int64 sum of all payment amounts |
| WalletService.Service.FilterPayments | pkg/wallet/service.go:651-718 | an unknown account gives ErrAccountNotFound before any work; otherwise exactly the account's payments, for every worker count |
| WalletService.Service.FilterPaymentsByFn | pkg/wallet/service.go:721-787 | exactly the payments the filter keeps, for every worker count |
| WalletService.Service.SumPaymentsWithProgress | pkg/wallet/service.go:789-821 | as written: one record per unit of 1 000 000 payments (at least one), and since every worker is handed the whole slice, each record holds the number of all payments and their int64 sum (see Findings) |

## Left out

- Goroutines, `sync.WaitGroup`, `sync.Mutex` and the channels are left out. The workers of `SumPayments`, `FilterPayments`, `FilterPaymentsByFn` and `SumPaymentsWithProgress` run one after another, in worker order. `Partition.PartitionedSum` and `Partition.PartitionedFilter` show that any other completion order gives the same sum and the same multiset.
- File-system calls are left out: `os.Create`, `os.OpenFile`, `os.Stat`, the 4-byte read loops, `ioutil.ReadFile`, `Close`, and their I/O errors. A dump's contents are a method's result or parameter. A directory holds only the file names the model produces.
- `Export` leaves an old dump in place when a slice is empty. Without a file system, the model only says that no dump is written.
- `uuid.New()` becomes a parameter: the new payment or favorite ID. Only `Ledger.FavoriteThenPayIsRepeat` assumes that the ID is fresh.
- `fmt.Println` and `log.Print` calls are left out. They have no effect on the state.
- Go returns pointers into the slices. The model returns copies, so it does not capture a caller mutating a returned account.
- A panic on an import line with too few fields is modelled as the error `MalformedRecord`. A failing `strconv` parse is modelled as `InvalidNumber`.
- A filter function passed to `FilterPaymentsByFn` is total here and cannot panic.
- `FilterPaymentsByFn` declares an error result that is always nil. The model returns only the payments.
- `Import` does not advance `NextAccountID`, and the model keeps that behaviour. So registering after an import can reuse an imported ID.
- Favorite names are not written to the dump, so a favorite read back has an empty name. `Records.Unnamed` states this in the round-trip lemmas.
- `types.Progress` and the payment status type used by the service are not part of `pkg/types/types.go`. They are modelled as `Progress(part, result)` and `Status`.
- `Ledger.RejectTwiceRefundsTwice`: the second refund is stated relative to the balance after the first reject, not as twice the amount. The two agree unless a wrap-around happens in between.
- `Ledger.DepositAdds`, `Ledger.RejectRefunds`: the conservation statements assume that the resulting balance does not overflow. With overflow the int64 balance wraps, as `Ledger.Deposit` and `Ledger.Reject` state.
- The worker count of `SumPayments`, `FilterPayments` and `FilterPaymentsByFn` is an int64, as Go's `int` is on 64-bit platforms. These methods, and `Partition.RangesChain`, `Partition.RangesCoverOnce`, `Partition.PartitionedSum` and `Partition.PartitionedFilter`, require the number of payments to fit an int64, because the length of a Go slice is an `int`.
- The model does not capture that starting 2^63 - 1 goroutines at `goroutines` = MinInt64 exhausts memory in practice. The model runs those workers, on empty ranges, and returns.
- `cmd/main.go` is not part of this model. It is a demo driver.

## Findings

| source | as written | input that shows it | evidently intended | confidence | as-written member | corrected member |
|---|---|---|---|---|---|---|
| pkg/wallet/service.go:800-813 | each of the `len/1_000_000` workers is handed the whole `s.payments` slice, so every record reports every payment and the full sum | 2 000 000 payments: two records, each with Part 2 000 000, so the parts add to 4 000 000 and the results to twice the total | each worker sums its own unit of 1 000 000 payments (the method's comment: split into pieces and sum them in parallel), so the parts add to n and the results to the total | not executed | ProgressSum.WholeSliceOvercounts | ProgressSum.ChunkedCovers |
