/** The pieces of Go's `strings` and `strconv` the dump formats rely on:
    strings.Split on a one-character separator, decimal formatting of an int64
    (strconv.Itoa, fmt.Sprint) and decimal parsing (strconv.Atoi, strconv.ParseInt
    with base 10 and bit size 64). */
module Text {
  import opened Types

  datatype Option<T> = None | Some(value: T)

  /** Concatenation of a list of strings, in order. */
  function Concat(ss: seq<string>): string
  {
    if ss == [] then "" else ss[0] + Concat(ss[1..])
  }

  lemma {:induction false} ConcatAppend(a: seq<string>, b: seq<string>)
    ensures Concat(a + b) == Concat(a) + Concat(b)
  {
    if a == [] {
      assert a + b == b;
    } else {
      assert (a + b)[1..] == a[1..] + b;
      ConcatAppend(a[1..], b);
    }
  }

  /** strings.Split(s, string(sep)): the maximal pieces of s between occurrences
      of sep, so that there is always one more piece than separators; in
      particular Split("") is [""]. */
  function Split(s: string, sep: char): (pieces: seq<string>)
    ensures |pieces| >= 1
  {
    if s == [] then [""]
    else
      var rest := Split(s[1..], sep);
      if s[0] == sep then [""] + rest else [[s[0]] + rest[0]] + rest[1..]
  }

  /** Joining the pieces again with the separator gives back the input, and no
      piece contains the separator: Split loses nothing and invents nothing. */
  lemma SplitJoin(s: string, sep: char)
    ensures Join(Split(s, sep), sep) == s
    ensures forall k :: 0 <= k < |Split(s, sep)| ==> sep !in Split(s, sep)[k]
  {
    SplitJoinRec(s, sep);
    SplitPiecesFree(s, sep);
  }

  lemma {:induction false} SplitJoinRec(s: string, sep: char)
    ensures Join(Split(s, sep), sep) == s
  {
    if s != [] {
      SplitJoinRec(s[1..], sep);
      var rest := Split(s[1..], sep);
      if s[0] == sep {
        assert Split(s, sep) == [""] + rest;
        assert Join(Split(s, sep), sep) == "" + [sep] + Join(rest, sep);
      } else {
        var pieces := Split(s, sep);
        assert pieces == [[s[0]] + rest[0]] + rest[1..];
        if |rest| == 1 {
          assert Join(pieces, sep) == [s[0]] + rest[0];
        } else {
          assert rest == [rest[0]] + rest[1..];
          assert Join(rest, sep) == rest[0] + [sep] + Join(rest[1..], sep);
        }
      }
    }
  }

  lemma {:induction false} SplitPiecesFree(s: string, sep: char)
    ensures forall k :: 0 <= k < |Split(s, sep)| ==> sep !in Split(s, sep)[k]
  {
    if s != [] {
      SplitPiecesFree(s[1..], sep);
      var rest := Split(s[1..], sep);
      var pieces := Split(s, sep);
      if s[0] != sep {
        forall k | 0 <= k < |pieces| ensures sep !in pieces[k] {
          if k == 0 {
            assert pieces[0] == [s[0]] + rest[0];
          } else {
            assert pieces[k] == rest[k];
          }
        }
      }
    }
  }

  /** Inverse of Split: the pieces glued with the separator. */
  function Join(pieces: seq<string>, sep: char): string
    requires |pieces| >= 1
  {
    if |pieces| == 1 then pieces[0] else pieces[0] + [sep] + Join(pieces[1..], sep)
  }

  /** A piece free of the separator, followed by the separator, splits off as
      the first piece. */
  lemma {:induction false} SplitHead(p: string, sep: char, rest: string)
    requires sep !in p
    ensures Split(p + [sep] + rest, sep) == [p] + Split(rest, sep)
  {
    if p == [] {
      assert p + [sep] + rest == [sep] + rest;
      assert ([sep] + rest)[1..] == rest;
    } else {
      assert (p + [sep] + rest)[1..] == p[1..] + [sep] + rest;
      SplitHead(p[1..], sep, rest);
      assert [p[0]] + p[1..] == p;
    }
  }

  /** A string free of the separator is one piece. */
  lemma {:induction false} SplitNone(p: string, sep: char)
    requires sep !in p
    ensures Split(p, sep) == [p]
  {
    if p != [] {
      SplitNone(p[1..], sep);
      assert [p[0]] + p[1..] == p;
    }
  }

  /** Each body followed by the separator. */
  function Terminated(bodies: seq<string>, sep: char): (lines: seq<string>)
    ensures |lines| == |bodies|
    ensures forall k :: 0 <= k < |bodies| ==> lines[k] == bodies[k] + [sep]
  {
    seq(|bodies|, k requires 0 <= k < |bodies| => bodies[k] + [sep])
  }

  /** Splitting a dump made of separator-terminated bodies yields the bodies
      followed by one empty trailing piece (the one the importers drop). */
  lemma {:induction false} SplitTerminated(bodies: seq<string>, sep: char)
    requires forall k :: 0 <= k < |bodies| ==> sep !in bodies[k]
    ensures Split(Concat(Terminated(bodies, sep)), sep) == bodies + [""]
  {
    if bodies == [] {
      assert Terminated(bodies, sep) == [];
    } else {
      var lines := Terminated(bodies, sep);
      assert lines == [bodies[0] + [sep]] + Terminated(bodies[1..], sep);
      assert Concat(lines) == bodies[0] + [sep] + Concat(Terminated(bodies[1..], sep));
      SplitHead(bodies[0], sep, Concat(Terminated(bodies[1..], sep)));
      SplitTerminated(bodies[1..], sep);
      assert bodies == [bodies[0]] + bodies[1..];
    }
  }

  // ----- decimal numbers -----

  predicate IsDigit(c: char) { '0' <= c <= '9' }

  function DigitChar(d: nat): (c: char)
    requires d < 10
    ensures IsDigit(c)
  {
    ['0', '1', '2', '3', '4', '5', '6', '7', '8', '9'][d]
  }

  function DigitValue(c: char): (d: nat)
    requires IsDigit(c)
    ensures d < 10 && DigitChar(d) == c
  {
    (c as int - '0' as int)
  }

  predicate AllDigits(s: string) { forall k :: 0 <= k < |s| ==> IsDigit(s[k]) }

  /** The shortest decimal spelling of n (no leading zeros; "0" for zero). */
  function Digits(n: nat): (s: string)
    ensures |s| >= 1 && AllDigits(s)
  {
    if n < 10 then [DigitChar(n)] else Digits(n / 10) + [DigitChar(n % 10)]
  }

  /** The value of a string of decimal digits, most significant first, or None
      when some character is not a digit. */
  function ParseDigits(s: string): Option<nat>
  {
    if s == [] then Some(0)
    else match ParseDigits(s[..|s| - 1])
      case None => None
      case Some(v) => if IsDigit(s[|s| - 1]) then Some(v * 10 + DigitValue(s[|s| - 1])) else None
  }

  lemma {:induction false} DigitsRoundTrip(n: nat)
    ensures ParseDigits(Digits(n)) == Some(n)
  {
    var s := Digits(n);
    if n < 10 {
      assert s[..|s| - 1] == [];
    } else {
      assert s[..|s| - 1] == Digits(n / 10);
      DigitsRoundTrip(n / 10);
    }
  }

  /** strconv.Itoa / fmt.Sprint of an integer: an optional '-' and the digits of
      its magnitude. */
  function Itoa(x: int): (s: string)
    ensures forall k :: 0 <= k < |s| ==> IsDigit(s[k]) || s[k] == '-'
  {
    if x < 0 then "-" + Digits(-x) else Digits(x)
  }

  /** strconv.ParseInt(s, 10, 64): an optional sign then at least one decimal
      digit, whose value must fit in int64; anything else is an error (None). */
  function ParseInt(s: string): (r: Option<Int64>)
  {
    if s == [] then None
    else
      var digits := if s[0] == '-' || s[0] == '+' then s[1..] else s;
      if digits == [] then None
      else match ParseDigits(digits)
        case None => None
        case Some(m) =>
          var v: int := if s[0] == '-' then -(m as int) else m;
          if MinInt64 <= v <= MaxInt64 then Some(v) else None
  }

  /** Formatting then parsing gives back every int64, including MinInt64. */
  lemma ParseItoa(x: Int64)
    ensures ParseInt(Itoa(x)) == Some(x)
  {
    var s := Itoa(x);
    if x < 0 {
      var m: nat := -(x as int);
      assert s == "-" + Digits(m);
      assert s[1..] == Digits(m);
      DigitsRoundTrip(m);
      SignedValue(s, m);
    } else {
      var m: nat := x;
      assert s == Digits(m);
      DigitsRoundTrip(m);
      assert IsDigit(s[0]);
      SignedValue(s, m);
    }
  }

  /** ParseInt in terms of the value of its digits. */
  lemma SignedValue(s: string, m: nat)
    requires s != []
    requires ParseDigits(if s[0] == '-' || s[0] == '+' then s[1..] else s) == Some(m)
    requires (if s[0] == '-' || s[0] == '+' then s[1..] else s) != []
    requires MinInt64 <= (if s[0] == '-' then -(m as int) else m) <= MaxInt64
    ensures ParseInt(s) == Some(if s[0] == '-' then -(m as int) else m)
  {
  }

  /** A formatted number never contains a separator the dump formats use. */
  lemma ItoaHasNo(x: int, c: char)
    requires !IsDigit(c) && c != '-'
    ensures c !in Itoa(x)
  {
  }
}
