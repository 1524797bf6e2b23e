/** Values shared by every part of the parking-registration bot: the records
    it passes around, Go's fixed-width integers, and the decimal text forms
    that Go's `fmt` and `strconv` packages give to those integers (used in
    store keys, request bodies and the parsing of Discord and portal ids). */
module Types {

  datatype Option<T> = None | Some(value: T) {
    function GetOr(default: T): T {
      if Some? then value else default
    }
  }

  /** A Go `(value, error)` pair: the value, or the error when it is not nil. */
  datatype Result<T, E> = Success(value: T) | Failure(error: E)

  /** A registerable location as scraped from the portal (types.go). The
      scraper reads `id` with a 32-bit `strconv.ParseUint`; scraping is not
      modelled, so here `id` is any natural number. */
  datatype Location = Location(id: nat, key: string, name: string, address: string)

  /** One visible form field: its label text and its input id. */
  datatype Field = Field(text: string, id: string)

  /** The tri-state "does this location need a guest code" flag. */
  datatype CodeRequirement = Unknown | GuestCodeRequired | GuestCodeNotRequired

  const U64: nat := 0x1_0000_0000_0000_0000
  const MaxInt64: int := 0x7fff_ffff_ffff_ffff
  const MinInt64: int := -0x8000_0000_0000_0000

  /** Go's `int64` (and `int`, on the 64-bit platforms the bot runs on). */
  type Int64 = x: int | MinInt64 <= x <= MaxInt64

  /** Go's `uint` / `uint64`. */
  type Uint64 = x: nat | x < U64

  /** Go's conversion `uint(x)` of a signed value: the same 64 bits read as
      unsigned, so a negative value becomes x + 2^64. */
  function ToUint(x: Int64): Uint64 {
    if x >= 0 then x else x + U64
  }

  /** Go's `int64` addition, which wraps around modulo 2^64. */
  function AddInt64(a: Int64, b: Int64): (r: Int64)
    ensures MinInt64 <= a + b <= MaxInt64 ==> r == a + b
    ensures (r - (a + b)) % U64 == 0
  {
    var s := a + b;
    if s > MaxInt64 then s - U64 else if s < MinInt64 then s + U64 else s
  }

  /** An `int64` result of a Go operation whose exact value is x: x
      reduced into the `int64` range modulo 2^64. */
  function WrapInt64(x: int): (r: Int64)
    ensures MinInt64 <= x <= MaxInt64 ==> r == x
    ensures (r - x) % U64 == 0
  {
    ((x - MinInt64) % U64) + MinInt64
  }

  /** Go's integer division, which truncates toward zero (Dafny's `/` is
      Euclidean and differs for a negative dividend): the remainder
      `a - q * b` has the sign of the dividend and is smaller than the
      divisor in magnitude. */
  function GoDiv(a: int, b: int): (q: int)
    requires b > 0
    ensures a >= 0 ==> 0 <= a - q * b < b
    ensures a < 0 ==> -b < a - q * b <= 0
  {
    if a >= 0 then a / b else -((-a) / b)
  }

  // ---------------------------------------------------------------- digits

  predicate IsDigit(c: char) {
    '0' <= c <= '9'
  }

  predicate AllDigits(s: string) {
    forall i :: 0 <= i < |s| ==> IsDigit(s[i])
  }

  function DigitChar(d: nat): (c: char)
    requires d < 10
    ensures IsDigit(c)
  {
    (('0' as int) + d) as char
  }

  function DigitValue(c: char): (d: nat)
    requires IsDigit(c)
    ensures d < 10
  {
    (c as int) - ('0' as int)
  }

  /** The decimal digits of n, most significant first, without leading
      zeros: what `%d`, `strconv.Itoa` and `strconv.FormatUint` print for a
      non-negative value. */
  function NatDigits(n: nat): (s: string)
    ensures |s| > 0 && AllDigits(s)
    ensures n < 10 <==> |s| == 1
    decreases n
  {
    if n < 10 then [DigitChar(n)] else NatDigits(n / 10) + [DigitChar(n % 10)]
  }

  /** Go's `%d` / `strconv.Itoa` of a signed value. */
  function Decimal(n: int): (s: string)
    ensures |s| > 0
    ensures forall i :: 0 <= i < |s| ==> IsDigit(s[i]) || (i == 0 && s[i] == '-')
    ensures n < 0 <==> s[0] == '-'
  {
    if n < 0 then "-" + NatDigits(-n) else NatDigits(n)
  }

  // ---------------------------------------------------------------- parsing

  /** The error part of a `strconv` parse: none, `strconv.ErrSyntax` or
      `strconv.ErrRange`. */
  datatype NumError = NoError | ErrSyntax | ErrRange

  /** The two results of a `strconv` parse: the value Go returns (also on
      error) and the error. */
  datatype NumResult = NumResult(value: int, err: NumError)

  /** Value of a digit string read left to right, starting from `acc`. */
  function Horner(s: string, acc: nat): nat
    requires AllDigits(s)
  {
    if s == [] then acc else Horner(s[1..], acc * 10 + DigitValue(s[0]))
  }

  /** The digit loop of `strconv.ParseUint(s, 10, 64)`: it stops at the
      first non-digit with a syntax error, and at the first digit that
      would take the value past 2^64 - 1 with a range error and the
      maximum value, whichever comes first. */
  function ScanUint(s: string, acc: nat): (r: NumResult)
    requires acc < U64
    ensures r.err == NoError ==> AllDigits(s) && acc <= r.value < U64
    ensures r.err == ErrSyntax ==> r.value == 0 && !AllDigits(s)
    ensures r.err == ErrRange ==> r.value == U64 - 1
  {
    if s == [] then NumResult(acc, NoError)
    else if !IsDigit(s[0]) then NumResult(0, ErrSyntax)
    else
      var n := acc * 10 + DigitValue(s[0]);
      if n >= U64 then NumResult(U64 - 1, ErrRange)
      else
        var r := ScanUint(s[1..], n);
        if AllDigits(s) then AllDigitsTail(s); r else r
  }

  lemma AllDigitsTail(s: string)
    requires s != [] && AllDigits(s)
    ensures AllDigits(s[1..])
  {
    forall i | 0 <= i < |s[1..]| ensures IsDigit(s[1..][i]) { assert s[1..][i] == s[i + 1]; }
  }

  /** Go's `strconv.ParseUint(s, 10, 64)`. */
  function ParseUint(s: string): (r: NumResult)
    ensures r.err == NoError ==> s != [] && AllDigits(s) && 0 <= r.value < U64
    ensures r.err == ErrSyntax ==> r.value == 0
    ensures r.err == ErrRange ==> r.value == U64 - 1
    ensures s == [] ==> r == NumResult(0, ErrSyntax)
  {
    if s == [] then NumResult(0, ErrSyntax) else ScanUint(s, 0)
  }

  /** Go's `strconv.Atoi(s)` on a 64-bit platform: an optional sign, then
      `ParseUint`; a syntax error gives 0, an out-of-range value is clamped
      to the nearest `int64` bound. */
  function Atoi(s: string): (r: NumResult)
    ensures MinInt64 <= r.value <= MaxInt64
    ensures r.err == ErrSyntax ==> r.value == 0
    ensures r.err == ErrRange ==> r.value == MaxInt64 || r.value == MinInt64
    ensures s == [] ==> r.err == ErrSyntax
  {
    if s == [] then NumResult(0, ErrSyntax)
    else
      var neg := s[0] == '-';
      var rest := if s[0] == '-' || s[0] == '+' then s[1..] else s;
      var u := ParseUint(rest);
      if u.err == ErrSyntax then NumResult(0, ErrSyntax)
      else if !neg && u.value > MaxInt64 then NumResult(MaxInt64, ErrRange)
      else if neg && u.value > -MinInt64 then NumResult(MinInt64, ErrRange)
      else if neg then NumResult(-u.value, u.err)
      else NumResult(u.value, u.err)
  }

  // ---------------------------------------------------------------- round trips

  lemma {:induction false} HornerAtLeast(s: string, acc: nat)
    requires AllDigits(s)
    ensures Horner(s, acc) >= acc
    decreases |s|
  {
    if s != [] {
      AllDigitsTail(s);
      HornerAtLeast(s[1..], acc * 10 + DigitValue(s[0]));
    }
  }

  lemma {:induction false} HornerSnoc(s: string, c: char, acc: nat)
    requires AllDigits(s) && IsDigit(c)
    ensures AllDigits(s + [c])
    ensures Horner(s + [c], acc) == Horner(s, acc) * 10 + DigitValue(c)
    decreases |s|
  {
    assert AllDigits(s + [c]) by {
      forall i | 0 <= i < |s + [c]| ensures IsDigit((s + [c])[i]) {
        if i < |s| { assert (s + [c])[i] == s[i]; }
      }
    }
    if s == [] {
      assert [c][1..] == [];
    } else {
      AllDigitsTail(s);
      assert (s + [c])[1..] == s[1..] + [c];
      HornerSnoc(s[1..], c, acc * 10 + DigitValue(s[0]));
    }
  }

  lemma {:induction false} HornerDigits(n: nat)
    ensures Horner(NatDigits(n), 0) == n
    decreases n
  {
    if n < 10 {
      assert NatDigits(n)[1..] == [];
    } else {
      HornerDigits(n / 10);
      HornerSnoc(NatDigits(n / 10), DigitChar(n % 10), 0);
    }
  }

  lemma {:induction false} ScanUintHorner(s: string, acc: nat)
    requires AllDigits(s) && acc < U64
    requires Horner(s, acc) < U64
    ensures ScanUint(s, acc) == NumResult(Horner(s, acc), NoError)
    decreases |s|
  {
    if s != [] {
      var n := acc * 10 + DigitValue(s[0]);
      AllDigitsTail(s);
      HornerAtLeast(s[1..], n);
      ScanUintHorner(s[1..], n);
    }
  }

  /** `strconv.ParseUint` reads back what `strconv.FormatUint` wrote. */
  lemma ParseUintOfDigits(n: Uint64)
    ensures ParseUint(NatDigits(n)) == NumResult(n, NoError)
  {
    HornerDigits(n);
    ScanUintHorner(NatDigits(n), 0);
  }

  /** `strconv.Atoi` reads back what `strconv.Itoa` (or `%d`) wrote. */
  lemma AtoiOfDecimal(n: Int64)
    ensures Atoi(Decimal(n)) == NumResult(n, NoError)
  {
    if n < 0 { AtoiOfNegative(n); } else { AtoiOfNonNegative(n); }
  }

  lemma AtoiOfNegative(n: Int64)
    requires n < 0
    ensures Atoi(Decimal(n)) == NumResult(n, NoError)
  {
    var m: Uint64 := -(n as int);
    var s := "-" + NatDigits(m);
    assert Decimal(n) == s;
    assert s[1..] == NatDigits(m);
    ParseUintOfDigits(m);
    var u := ParseUint(s[1..]);
    assert u == NumResult(m, NoError);
    assert Atoi(s) == NumResult(-u.value, u.err);
  }

  lemma AtoiOfNonNegative(n: Int64)
    requires n >= 0
    ensures Atoi(Decimal(n)) == NumResult(n, NoError)
  {
    var s := NatDigits(n);
    assert Decimal(n) == s;
    assert IsDigit(s[0]);
    ParseUintOfDigits(n);
    assert ParseUint(s) == NumResult(n, NoError);
  }

  /** Distinct `int64` values print differently. */
  lemma DecimalInjective(a: Int64, b: Int64)
    requires Decimal(a) == Decimal(b)
    ensures a == b
  {
    AtoiOfDecimal(a);
    AtoiOfDecimal(b);
  }
}
