/** Zero-padded numbers in file names, and reading them back (src/index.rs, src/bandid.rs). */
module Decimal {
  import opened Base

  const MAX_U32 := 0xFFFF_FFFF

  function Digit(d: nat): char
    requires d < 10
  {
    ('0' as int + d) as char
  }

  predicate IsDigit(c: char) {
    '0' <= c <= '9'
  }

  predicate AllDigits(s: string) {
    forall i :: 0 <= i < |s| ==> IsDigit(s[i])
  }

  function ToDecimal(n: nat): (s: string)
    ensures AllDigits(s) && |s| >= 1
  {
    if n < 10 then [Digit(n)] else ToDecimal(n / 10) + [Digit(n % 10)]
  }

  /** Pad on the left with zeros to at least `width` characters. */
  function PadTo(s: string, width: nat): (r: string)
    requires AllDigits(s)
    ensures AllDigits(r) && |r| == if |s| >= width then |s| else width
    decreases width - |s|
  {
    if |s| >= width then s else PadTo("0" + s, width)
  }

  function Value(s: string): nat
    requires AllDigits(s)
  {
    if s == "" then 0 else Value(s[..|s| - 1]) * 10 + (s[|s| - 1] as int - '0' as int)
  }

  /** Parsing an unsigned 32-bit number: an optional plus sign, then digits, within range. */
  function ParseU32(s: string): Option<nat> {
    var digits := if |s| > 0 && s[0] == '+' then s[1..] else s;
    if digits == "" || !AllDigits(digits) || Value(digits) > MAX_U32 then None else Some(Value(digits))
  }

  lemma {:induction false} ValueOfDecimal(n: nat)
    ensures Value(ToDecimal(n)) == n
  {
    var s := ToDecimal(n);
    if n < 10 {
      assert s[..|s| - 1] == "";
    } else {
      assert s[..|s| - 1] == ToDecimal(n / 10);
      ValueOfDecimal(n / 10);
    }
  }

  lemma {:induction false} ValueOfZeroAnd(s: string)
    requires AllDigits(s)
    ensures AllDigits("0" + s) && Value("0" + s) == Value(s)
  {
    var t := "0" + s;
    if s == "" {
      assert t[..|t| - 1] == "";
    } else {
      assert t[..|t| - 1] == "0" + s[..|s| - 1];
      ValueOfZeroAnd(s[..|s| - 1]);
    }
  }

  lemma {:induction false} ValueOfPadded(s: string, width: nat)
    requires AllDigits(s)
    ensures Value(PadTo(s, width)) == Value(s)
    decreases width - |s|
  {
    if |s| < width {
      ValueOfZeroAnd(s);
      ValueOfPadded("0" + s, width);
    }
  }

  function Padded(n: nat, width: nat): string {
    PadTo(ToDecimal(n), width)
  }

  /** A padded number reads back as itself, exactly when it fits in 32 bits. */
  lemma PaddedParses(n: nat, width: nat)
    ensures ParseU32(Padded(n, width)) == if n <= 4_294_967_295 then Some(n) else None
  {
    ValueOfDecimal(n);
    ValueOfPadded(ToDecimal(n), width);
    var s := Padded(n, width);
    assert IsDigit(s[0]);
  }

  /** A plus sign in front is accepted, and nothing else but digits. */
  lemma PlusParses(n: nat, width: nat)
    ensures ParseU32("+" + Padded(n, width)) == ParseU32(Padded(n, width))
  {
    PaddedParses(n, width);
    assert ("+" + Padded(n, width))[1..] == Padded(n, width);
    assert IsDigit(Padded(n, width)[0]);
  }

  lemma OnlyDigitsParse(s: string)
    ensures ParseU32(s).Some? ==> |s| > 0 && forall i :: 0 < i < |s| ==> '0' <= s[i] <= '9'
    ensures ParseU32(s).Some? ==> ('0' <= s[0] <= '9' || (s[0] == '+' && |s| > 1)) && ParseU32(s).value <= 4_294_967_295
  {
  }

  function Power(k: nat): nat {
    if k == 0 then 1 else 10 * Power(k - 1)
  }

  lemma {:induction false} DecimalWidth(n: nat, k: nat)
    requires k > 0
    ensures |ToDecimal(n)| <= k <==> n < Power(k)
    decreases n
  {
    if n >= 10 && k > 1 {
      DecimalWidth(n / 10, k - 1);
    } else if k > 1 {
      PowerAtLeast(k);
    }
  }

  lemma {:induction false} PowerAtLeast(k: nat)
    requires k > 0
    ensures Power(k) >= 10
  {
    if k > 1 {
      PowerAtLeast(k - 1);
    }
  }

  /** A padded number has exactly its width if it fits, and otherwise as many digits as it needs. */
  lemma PaddedWidth(n: nat, width: nat)
    requires width > 0
    ensures |Padded(n, width)| >= width && (|Padded(n, width)| == width <==> n < Power(width))
  {
    DecimalWidth(n, width);
  }

  // ----- band ids

  function BandName(id: nat): string {
    "b" + Padded(id, 4)
  }

  function ParseBandName(s: string): Option<nat> {
    if |s| > 0 && s[0] == 'b' then ParseU32(s[1..]) else None
  }

  /** A band directory's name reads back as the band's id, so distinct bands have distinct names. */
  lemma BandNameParses(id: nat)
    requires id <= 4_294_967_295
    ensures ParseBandName(BandName(id)) == Some(id) && BandName(id)[0] == 'b'
    ensures |BandName(id)| >= 5 && (|BandName(id)| == 5 <==> id < 10_000)
  {
    PaddedParses(id, 4);
    PaddedWidth(id, 4);
    assert Power(4) == 10_000 by { assert Power(2) == 100; }
    assert BandName(id)[1..] == Padded(id, 4);
  }
}
