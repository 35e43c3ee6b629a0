/** Record types and status constants of the wallet (pkg/types/types.go), plus
    the two's-complement arithmetic of Go's int64, on which every Money value lives. */
module Types {

  const MinInt64: int := -0x8000_0000_0000_0000
  const MaxInt64: int := 0x7fff_ffff_ffff_ffff
  /** 2^64: the period of int64 wrap-around. */
  const Modulus: int := 0x1_0000_0000_0000_0000

  /** Go's int64 (and int, on the 64-bit platforms the service targets). */
  type Int64 = x: int | MinInt64 <= x <= MaxInt64

  /** `type Money int64` */
  type Money = Int64

  /** The value Go's int64 arithmetic produces for the mathematical result x:
      x moved into [MinInt64, MaxInt64] by whole multiples of 2^64. */
  function Wrap64(x: int): (r: Int64)
    ensures MinInt64 <= x <= MaxInt64 ==> r == x
    decreases WrapDistance(x)
  {
    if x < MinInt64 then Wrap64(x + Modulus)
    else if x > MaxInt64 then Wrap64(x - Modulus)
    else x
  }

  /** How far x lies outside the int64 range. */
  function WrapDistance(x: int): nat
  {
    if x < MinInt64 then MinInt64 - x else if x > MaxInt64 then x - MaxInt64 else 0
  }

  /** Wrapping only ever moves a value by a multiple of 2^64. */
  lemma {:induction false} WrapResidue(x: int)
    ensures (x - Wrap64(x)) % Modulus == 0 && (Wrap64(x) - x) % Modulus == 0
    decreases WrapDistance(x)
  {
    if x < MinInt64 {
      WrapResidue(x + Modulus);
      assert x - Wrap64(x) == (x + Modulus - Wrap64(x + Modulus)) - Modulus;
      assert Wrap64(x) - x == (Wrap64(x + Modulus) - (x + Modulus)) + Modulus;
    } else if x > MaxInt64 {
      WrapResidue(x - Modulus);
      assert x - Wrap64(x) == (x - Modulus - Wrap64(x - Modulus)) + Modulus;
      assert Wrap64(x) - x == (Wrap64(x - Modulus) - (x - Modulus)) - Modulus;
    }
  }

  /** Wrapping is compatible with addition: reducing an operand first does not
      change the wrapped sum. This is why a sum accumulated in int64 pieces, in
      any grouping, equals the wrapped mathematical total. */
  lemma WrapAdd(a: int, b: int)
    ensures Wrap64(Wrap64(a) + b) == Wrap64(a + b)
    ensures Wrap64(a + Wrap64(b)) == Wrap64(a + b)
  {
    WrapResidue(a);
    assert (Wrap64(a) + b) - (a + b) == Wrap64(a) - a;
    WrapCongruent(Wrap64(a) + b, a + b);
    WrapResidue(b);
    assert (a + Wrap64(b)) - (a + b) == Wrap64(b) - b;
    WrapCongruent(a + Wrap64(b), a + b);
  }

  /** Adding the next wrapped piece to two running sums that agree in int64
      keeps them agreeing. */
  lemma WrapShift(r: int, l: int, t: int)
    requires Wrap64(r) == Wrap64(l)
    ensures Wrap64(r + Wrap64(t)) == Wrap64(l + t)
  {
    WrapAdd(r, t);
    WrapAdd(l, t);
  }

  /** Two integers that differ by a multiple of 2^64 wrap to the same int64. */
  lemma WrapCongruent(x: int, y: int)
    requires (x - y) % Modulus == 0
    ensures Wrap64(x) == Wrap64(y)
  {
    WrapResidue(x);
    WrapResidue(y);
    var q := (x - y) / Modulus;
    assert x == y + q * Modulus;
    var rx, ry := Wrap64(x), Wrap64(y);
    var qx, qy := (x - rx) / Modulus, (y - ry) / Modulus;
    assert x == rx + qx * Modulus;
    assert y == ry + qy * Modulus;
    assert rx - ry == (qy + q - qx) * Modulus;
  }

  /** `type Status string`; Import may store any string read from a dump file. */
  type Status = string

  const PaymentStatusOk: Status := "OK"
  const PaymentStatusFail: Status := "FAIL"
  const PaymentStatusInProgress: Status := "INPROGRESS"

  type PaymentCategory = string
  type Phone = string

  datatype Payment = Payment(
    id: string,
    amount: Money,
    category: PaymentCategory,
    status: Status,
    accountID: Int64)

  datatype Account = Account(id: Int64, phone: Phone, balance: Money)

  /** A favorite has no status: a payment made from it always starts INPROGRESS. */
  datatype Favorite = Favorite(
    id: string,
    accountID: Int64,
    name: string,
    amount: Money,
    category: PaymentCategory)

  /** One record of SumPaymentsWithProgress: how many payments a worker summed
      and their (int64) sum. The type is used by pkg/wallet/service.go but is not
      declared in pkg/types/types.go; its two fields are those service.go sets. */
  datatype Progress = Progress(part: nat, result: Money)
}
