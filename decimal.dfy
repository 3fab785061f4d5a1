/**
 * Decimal text of integers: Go's strconv.Itoa / Rust's `{}` formatting,
 * Go's strconv.Atoi on a 64-bit platform and Rust's `str::parse::<usize>()`.
 */
module Decimal {
  import opened Bytes
  import opened Optional

  const ZERO: byte := 48   // '0'
  const PLUS: byte := 43   // '+'
  const MINUS: byte := 45  // '-'

  const INT64_MIN: int := -0x8000_0000_0000_0000
  const INT64_MAX: int := 0x7fff_ffff_ffff_ffff
  const USIZE_MAX: int := 0xffff_ffff_ffff_ffff

  predicate IsDigit(b: byte) {
    ZERO <= b <= ZERO + 9
  }

  predicate AllDigits(s: seq<byte>) {
    forall i :: 0 <= i < |s| ==> IsDigit(s[i])
  }

  predicate InInt64(i: int) {
    INT64_MIN <= i <= INT64_MAX
  }

  /** The shortest decimal digits of `n`. */
  function Digits(n: nat): (r: seq<byte>)
    ensures |r| >= 1 && AllDigits(r)
    ensures r[0] == ZERO ==> n == 0
    decreases n
  {
    if n < 10 then [ZERO + n as byte] else Digits(n / 10) + [ZERO + (n % 10) as byte]
  }

  /**
   * The number a string of decimal digits denotes (leading zeros allowed,
   * the empty string denotes 0), or None when some byte is not a digit.
   */
  function DigitsValue(s: seq<byte>): (r: Option<nat>)
    ensures r.Some? && s != [] ==> IsDigit(s[0])
    decreases |s|
  {
    if s == [] then Some(0)
    else
      match DigitsValue(s[..|s| - 1])
      case None => None
      case Some(v) => if IsDigit(s[|s| - 1]) then Some(10 * v + (s[|s| - 1] - ZERO) as nat) else None
  }

  /** DigitsValue accepts exactly the strings made of decimal digits. */
  lemma {:induction false} DigitsValueAccepts(s: seq<byte>)
    ensures DigitsValue(s).Some? <==> AllDigits(s)
    decreases |s|
  {
    if s != [] {
      var init := s[..|s| - 1];
      DigitsValueAccepts(init);
      if AllDigits(s) {
        assert forall i :: 0 <= i < |init| ==> init[i] == s[i];
      } else if DigitsValue(init).Some? {
        assert forall i :: 0 <= i < |init| ==> IsDigit(s[i]);
      }
    }
  }

  /** Reading the digits of n gives n back. */
  lemma {:induction false} DigitsValueOfDigits(n: nat)
    ensures DigitsValue(Digits(n)) == Some(n)
    decreases n
  {
    if n >= 10 {
      var d := Digits(n);
      assert d[..|d| - 1] == Digits(n / 10);
      DigitsValueOfDigits(n / 10);
    }
  }

  /** strconv.Itoa / Rust `{}`: a minus sign for negative numbers, then the digits. */
  function IntText(i: int): (r: seq<byte>)
    ensures |r| >= 1
    ensures forall k :: 0 <= k < |r| ==> r[k] != CR && r[k] != LF
  {
    if i < 0 then [MINUS] + Digits(-i) else Digits(i)
  }

  /**
   * strconv.Atoi with a 64-bit int: an optional sign, one or more decimal
   * digits and nothing else, denoting a value that fits in 64 bits.
   */
  function Atoi(s: seq<byte>): (r: Option<int>)
    ensures r.Some? ==> InInt64(r.value)
    ensures r.Some? ==> |s| >= 1 && (IsDigit(s[0]) || s[0] == PLUS || s[0] == MINUS)
    ensures r.Some? && r.value < 0 ==> s[0] == MINUS
  {
    if s == [] then None
    else
      var signed := s[0] == PLUS || s[0] == MINUS;
      var body := if signed then s[1..] else s;
      if body == [] then None
      else
        match DigitsValue(body)
        case None => None
        case Some(m) =>
          var v: int := if s[0] == MINUS then 0 - m else m;
          if InInt64(v) then Some(v) else None
  }

  /**
   * What Atoi accepts: a sign or not, then a non-empty run of digits; and
   * every such string is accepted exactly when the signed value of its
   * digits lies in the 64-bit range, and then denotes that value.
   */
  lemma {:induction false} AtoiAccepts(s: seq<byte>)
    ensures Atoi(s).Some? ==>
      var body := if s[0] == PLUS || s[0] == MINUS then s[1..] else s;
      body != [] && AllDigits(body)
    ensures s != [] ==>
      var body := if s[0] == PLUS || s[0] == MINUS then s[1..] else s;
      body != [] && AllDigits(body) ==>
        && DigitsValue(body).Some?
        && var v := if s[0] == MINUS then 0 - DigitsValue(body).value else DigitsValue(body).value;
          Atoi(s) == if InInt64(v) then Some(v) else None
  {
    if s != [] {
      DigitsValueAccepts(if s[0] == PLUS || s[0] == MINUS then s[1..] else s);
    }
  }

  /** Every 64-bit integer survives printing and parsing back. */
  lemma {:induction false} AtoiIntText(i: int)
    requires InInt64(i)
    ensures Atoi(IntText(i)) == Some(i)
  {
    if i < 0 {
      assert IntText(i)[1..] == Digits(-i);
      DigitsValueOfDigits(-i);
    } else {
      DigitsValueOfDigits(i);
    }
  }

  /**
   * Rust `str::parse::<usize>()` on a 64-bit target: an optional `+`, one or
   * more decimal digits and nothing else, at most 2^64 - 1.
   */
  function ParseUsize(s: seq<byte>): (r: Option<nat>)
    ensures r.Some? ==> r.value <= USIZE_MAX && |s| >= 1 && s[0] != MINUS
  {
    if s == [] then None
    else
      var body := if s[0] == PLUS then s[1..] else s;
      if body == [] then None
      else
        match DigitsValue(body)
        case None => None
        case Some(m) => if m > USIZE_MAX then None else Some(m)
  }

  /** Every usize survives printing and parsing back. */
  lemma {:induction false} ParseUsizeDigits(n: nat)
    requires n <= USIZE_MAX
    ensures ParseUsize(Digits(n)) == Some(n)
  {
    DigitsValueOfDigits(n);
  }
}
