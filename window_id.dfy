/**
 * Parsing the window id of a per-window capture: every leading "0x" is
 * stripped, and the rest is read as a base-16 `u64` the way
 * `u64::from_str_radix(_, 16)` reads it.
 */
module WindowId {
  import opened Wrappers
  import opened Images

  const U64Limit: nat := 0x1_0000_0000_0000_0000

  /** `k` copies of "0x". */
  function ZeroXs(k: nat): string {
    if k == 0 then "" else "0x" + ZeroXs(k - 1)
  }

  predicate StartsWith0x(s: string) {
    |s| >= 2 && s[0] == '0' && s[1] == 'x'
  }

  /**
   * `trim_start_matches("0x")`: repeatedly remove a leading "0x".  What is
   * removed is a run of "0x"s, and what is left does not start with "0x".
   */
  function TrimHexPrefix(s: string): (t: string)
    ensures exists k: nat :: s == ZeroXs(k) + t
    ensures !StartsWith0x(t)
    decreases |s|
  {
    if StartsWith0x(s) then
      var t := TrimHexPrefix(s[2..]);
      var k: nat :| s[2..] == ZeroXs(k) + t;
      assert s == ZeroXs(k + 1) + t by {
        assert s == "0x" + s[2..];
      }
      t
    else
      assert s == ZeroXs(0) + s;
      s
  }

  /** `char::to_digit(16)` succeeds. */
  predicate IsHexDigit(c: char) {
    '0' <= c <= '9' || 'a' <= c <= 'f' || 'A' <= c <= 'F'
  }

  function DigitValue(c: char): (v: nat)
    requires IsHexDigit(c)
    ensures v < 16
  {
    if '0' <= c <= '9' then c as int - '0' as int
    else if 'a' <= c <= 'f' then c as int - 'a' as int + 10
    else c as int - 'A' as int + 10
  }

  predicate AllHex(s: string) {
    forall i :: 0 <= i < |s| ==> IsHexDigit(s[i])
  }

  /** The value of a string of hex digits, most significant digit first. */
  function HexValue(s: string): nat
    requires AllHex(s)
  {
    if s == [] then 0 else HexValue(s[..|s| - 1]) * 16 + DigitValue(s[|s| - 1])
  }

  function Pow16(n: nat): (p: nat)
    ensures p >= 1
  {
    if n == 0 then 1 else 16 * Pow16(n - 1)
  }

  /** The `IntErrorKind`s `from_str_radix` reports for an unsigned type. */
  datatype IntErrorKind = Empty | InvalidDigit | PosOverflow

  /**
   * The digit loop of `from_str_radix`: left to right, reject a non-digit,
   * otherwise multiply by 16 and add, failing as soon as the value leaves
   * `u64`.
   */
  function Accumulate(digits: string, acc: nat): Result<nat, IntErrorKind>
    requires acc < U64Limit
    decreases |digits|
  {
    if digits == [] then Ok(acc)
    else if !IsHexDigit(digits[0]) then Err(InvalidDigit)
    else
      var next := acc * 16 + DigitValue(digits[0]);
      if next >= U64Limit then Err(PosOverflow) else Accumulate(digits[1..], next)
  }

  /**
   * `u64::from_str_radix(s, 16)`: empty input is an error, a lone sign is an
   * invalid digit, and one leading '+' is accepted.
   */
  function FromStrRadix16(s: string): Result<nat, IntErrorKind> {
    if s == [] then Err(Empty)
    else if (s[0] == '+' || s[0] == '-') && |s| == 1 then Err(InvalidDigit)
    else Accumulate(Digits(s), 0)
  }

  /** The digits `from_str_radix` reads from `s`: `s` without one leading '+'. */
  function Digits(s: string): string {
    if |s| > 0 && s[0] == '+' then s[1..] else s
  }

  /** `window_screenshot`'s parse of its id argument, with its error. */
  function ParseWindowId(id: string): Result<nat, ImageError> {
    match FromStrRadix16(TrimHexPrefix(id))
    case Ok(v) => Ok(v)
    case Err(_) => Err(IoError(InvalidInput, "failed to parse window_id."))
  }

  lemma AllHexCons(c: char, rest: string)
    requires IsHexDigit(c) && AllHex(rest)
    ensures AllHex([c] + rest)
  {
    var s := [c] + rest;
    forall i | 0 <= i < |s| ensures IsHexDigit(s[i]) {
      if i > 0 { assert s[i] == rest[i - 1]; }
    }
  }

  /** The value of a digit string whose first digit is `c`. */
  lemma {:induction false} HexValueCons(c: char, rest: string)
    requires IsHexDigit(c) && AllHex(rest)
    ensures AllHex([c] + rest)
    ensures HexValue([c] + rest) == DigitValue(c) * Pow16(|rest|) + HexValue(rest)
    decreases |rest|
  {
    AllHexCons(c, rest);
    var s := [c] + rest;
    if rest == [] {
      assert s[..|s| - 1] == [];
    } else {
      var init, last := rest[..|rest| - 1], rest[|rest| - 1];
      assert s[..|s| - 1] == [c] + init;
      assert AllHex(init) by {
        forall i | 0 <= i < |init| ensures IsHexDigit(init[i]) { assert init[i] == rest[i]; }
      }
      HexValueCons(c, init);
      ShiftDigit(DigitValue(c), Pow16(|init|), HexValue(init), DigitValue(last));
    }
  }

  lemma ShiftDigit(d: nat, p: nat, h: nat, e: nat)
    ensures (d * p + h) * 16 + e == d * (16 * p) + (h * 16 + e)
  {
  }

  /**
   * The digit loop succeeds exactly when every character is a hex digit and
   * the number they spell, after `acc`, fits in 64 bits; it then returns that
   * number.
   */
  lemma {:induction false} AccumulateValue(digits: string, acc: nat)
    requires acc < U64Limit
    ensures Accumulate(digits, acc).Ok? <==>
      AllHex(digits) && acc * Pow16(|digits|) + HexValue(digits) < U64Limit
    ensures Accumulate(digits, acc).Ok? ==>
      Accumulate(digits, acc).value == acc * Pow16(|digits|) + HexValue(digits)
    decreases |digits|
  {
    if digits != [] && IsHexDigit(digits[0]) {
      var c, rest := digits[0], digits[1..];
      assert digits == [c] + rest;
      assert AllHex(digits) <==> AllHex(rest) by {
        if AllHex(digits) {
          forall i | 0 <= i < |rest| ensures IsHexDigit(rest[i]) { assert rest[i] == digits[i + 1]; }
        }
        if AllHex(rest) { AllHexCons(c, rest); }
      }
      var next := acc * 16 + DigitValue(c);
      var p := Pow16(|rest|);
      if AllHex(rest) {
        HexValueCons(c, rest);
        AppendDigit(acc, DigitValue(c), p, HexValue(rest));
      }
      if next < U64Limit {
        AccumulateValue(rest, next);
      }
    }
  }

  /** Reading one more digit: the value of `acc` followed by the digits equals that of `acc * 16 + d` followed by the rest. */
  lemma AppendDigit(acc: nat, d: nat, p: nat, h: nat)
    requires p >= 1
    ensures acc * (16 * p) + (d * p + h) == (acc * 16 + d) * p + h
    ensures (acc * 16 + d) * p + h >= acc * 16 + d
  {
    assert (acc * 16 + d) * p == acc * 16 * p + d * p;
    assert (acc * 16 + d) * p >= acc * 16 + d;
  }

  /**
   * The id parses exactly when what is left after the "0x" prefixes (less
   * one leading '+') is a non-empty string of hex digits whose value fits in
   * 64 bits, and the id is that value; anything else is an `InvalidInput`
   * error.
   */
  lemma ParseWindowIdSpec(id: string)
    ensures var d := Digits(TrimHexPrefix(id));
      ParseWindowId(id).Ok? <==> |d| > 0 && AllHex(d) && HexValue(d) < U64Limit
    ensures var d := Digits(TrimHexPrefix(id));
      ParseWindowId(id).Ok? ==> AllHex(d) && ParseWindowId(id).value == HexValue(d)
    ensures ParseWindowId(id).Err? ==>
      ParseWindowId(id).error == IoError(InvalidInput, "failed to parse window_id.")
  {
    var t := TrimHexPrefix(id);
    AccumulateValue(Digits(t), 0);
  }

  /** The digit for a value below 16, in lower case as `{:x}` prints it. */
  function HexDigit(v: nat): (c: char)
    requires v < 16
    ensures IsHexDigit(c) && DigitValue(c) == v
  {
    if v < 10 then ('0' as int + v) as char else ('a' as int + v - 10) as char
  }

  /** `n` in lower-case hexadecimal without leading zeros (`format!("{:x}", n)`). */
  function ToHex(n: nat): (s: string)
    ensures |s| > 0 && AllHex(s) && HexValue(s) == n
    ensures |s| > 1 ==> s[0] != '0'
    ensures s[0] != '+' && s[0] != '-'
  {
    if n < 16 then [HexDigit(n)]
    else
      var s := ToHex(n / 16) + [HexDigit(n % 16)];
      assert s[..|s| - 1] == ToHex(n / 16);
      s
  }

  /** Printing a window id as "0x…" and parsing it gives the id back. */
  lemma ParsePrintedWindowId(n: nat)
    requires n < U64Limit
    ensures ParseWindowId("0x" + ToHex(n)) == Ok(n)
  {
    var h := ToHex(n);
    assert ("0x" + h)[2..] == h;
    assert StartsWith0x("0x" + h);
    assert !StartsWith0x(h);
    AccumulateValue(h, 0);
  }

  /** Every "0x" prefix is removed: "0x0x1f" is window 0x1f. */
  lemma RepeatedPrefix()
    ensures ParseWindowId("0x0x1f") == Ok(0x1f)
  {
    assert "0x0x1f"[2..] == "0x1f";
    assert "0x1f"[2..] == "1f";
    AccumulateValue("1f", 0);
    assert "1f"[..1] == "1";
    assert "1"[..0] == "";
  }

  /** A name that is not a hex number is an `InvalidInput` error. */
  lemma NotAWindow()
    ensures ParseWindowId("not-a-window") == Err(IoError(InvalidInput, "failed to parse window_id."))
  {
  }
}
