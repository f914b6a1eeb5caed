/**
 ASCII string helpers in the meaning Python gives them: `strip`, `rstrip`, `isdigit`,
 `upper`, `int(...)`, zero padding and space padding.
 */
module Text {
  import opened Wrappers

  /** `str.isspace` restricted to ASCII: tab..CR, FS..US and the blank. */
  predicate IsSpace(c: char) {
    9 as char <= c <= 13 as char || 28 as char <= c <= 32 as char
  }

  predicate IsDigit(c: char) {
    '0' <= c <= '9'
  }

  /** `str.isdigit`: at least one character, digits only. */
  predicate AllDigits(s: string) {
    s != [] && forall i :: 0 <= i < |s| ==> IsDigit(s[i])
  }

  function RStrip(s: string): string {
    if s != [] && IsSpace(s[|s| - 1]) then RStrip(s[..|s| - 1]) else s
  }

  function LStrip(s: string): string {
    if s != [] && IsSpace(s[0]) then LStrip(s[1..]) else s
  }

  function Strip(s: string): string {
    RStrip(LStrip(s))
  }

  /** A string `strip` leaves alone. */
  predicate Trimmed(s: string) {
    s == [] || (!IsSpace(s[0]) && !IsSpace(s[|s| - 1]))
  }

  function Spaces(n: nat): (r: string)
    ensures |r| == n
  {
    seq(n, _ => ' ')
  }

  /** `str.ljust(width)`. */
  function PadRight(s: string, width: nat): (r: string)
    requires |s| <= width
    ensures |r| == width && s <= r
  {
    s + Spaces(width - |s|)
  }

  lemma {:induction false} RStripPadded(s: string, n: nat)
    requires s == [] || !IsSpace(s[|s| - 1])
    ensures RStrip(s + Spaces(n)) == s
  {
    if n == 0 {
      assert s + Spaces(0) == s;
    } else {
      assert (s + Spaces(n))[..|s| + n - 1] == s + Spaces(n - 1);
      RStripPadded(s, n - 1);
    }
  }

  lemma StripTrimmed(s: string)
    requires Trimmed(s)
    ensures Strip(s) == s
  {
  }

  lemma {:induction false} RStripKeepsStart(s: string)
    requires s == [] || !IsSpace(s[0])
    ensures Trimmed(RStrip(s))
  {
    if s != [] && IsSpace(s[|s| - 1]) {
      RStripKeepsStart(s[..|s| - 1]);
    }
  }

  lemma {:induction false} LStripStarts(s: string)
    ensures LStrip(s) == [] || !IsSpace(LStrip(s)[0])
  {
    if s != [] && IsSpace(s[0]) {
      LStripStarts(s[1..]);
    }
  }

  /** `strip` is idempotent. */
  lemma StripTwice(s: string)
    ensures Strip(Strip(s)) == Strip(s)
  {
    LStripStarts(s);
    RStripKeepsStart(LStrip(s));
    StripTrimmed(Strip(s));
  }

  predicate AllSpace(s: string) {
    forall i :: 0 <= i < |s| ==> IsSpace(s[i])
  }

  lemma {:induction false} RStripsToNothingIff(s: string)
    ensures RStrip(s) == "" <==> AllSpace(s)
  {
    if s != [] && IsSpace(s[|s| - 1]) {
      RStripsToNothingIff(s[..|s| - 1]);
    }
  }

  lemma {:induction false} LStripKeepsBlankness(s: string)
    ensures AllSpace(LStrip(s)) <==> AllSpace(s)
  {
    if s != [] && IsSpace(s[0]) {
      LStripKeepsBlankness(s[1..]);
      assert s == [s[0]] + s[1..];
    }
  }

  /** `strip` leaves nothing exactly of a string that is all white space. */
  lemma StripsToNothingIff(s: string)
    ensures Strip(s) == "" <==> AllSpace(s)
  {
    LStripKeepsBlankness(s);
    RStripsToNothingIff(LStrip(s));
  }

  /** Right-padding is undone by `strip`. */
  lemma {:induction false} StripPadded(s: string, width: nat)
    requires |s| <= width && Trimmed(s)
    ensures Strip(PadRight(s, width)) == s
  {
    if s == [] {
      BlankStrips(width);
      assert PadRight(s, width) == Spaces(width);
    } else {
      assert LStrip(PadRight(s, width)) == PadRight(s, width);
      RStripPadded(s, width - |s|);
    }
  }

  lemma {:induction false} BlankStrips(n: nat)
    ensures Strip(Spaces(n)) == []
  {
    if n > 0 {
      assert Spaces(n)[1..] == Spaces(n - 1);
      BlankStrips(n - 1);
    }
  }

  function UpperChar(c: char): char {
    if 'a' <= c <= 'z' then c - 32 as char else c
  }

  function Upper(s: string): (r: string)
    ensures |r| == |s|
    ensures forall i :: 0 <= i < |s| ==> r[i] == UpperChar(s[i])
  {
    seq(|s|, i requires 0 <= i < |s| => UpperChar(s[i]))
  }

  predicate AllUpperLetters(s: string, n: nat) {
    |s| == n && forall i :: 0 <= i < |s| ==> 'A' <= s[i] <= 'Z'
  }

  // ---- decimal digits ----

  function DigitValue(c: char): (v: nat)
    requires IsDigit(c)
    ensures v <= 9
  {
    (c - '0') as nat
  }

  function DigitChar(d: nat): (c: char)
    requires d <= 9
    ensures IsDigit(c) && DigitValue(c) == d
  {
    '0' + d as char
  }

  /** Value of a run of decimal digits. */
  function DigitsValue(s: string): nat
    requires forall i :: 0 <= i < |s| ==> IsDigit(s[i])
  {
    if s == [] then 0 else DigitsValue(s[..|s| - 1]) * 10 + DigitValue(s[|s| - 1])
  }

  function Pow10(n: nat): (p: nat)
    ensures p >= 1
  {
    if n == 0 then 1 else 10 * Pow10(n - 1)
  }

  /** `n` in exactly `width` digits, high-order digits first. */
  function ZeroPadded(n: nat, width: nat): (s: string)
    ensures |s| == width
    ensures forall i :: 0 <= i < |s| ==> IsDigit(s[i])
  {
    if width == 0 then [] else ZeroPadded(n / 10, width - 1) + [DigitChar(n % 10)]
  }

  lemma TenthFits(n: nat, p: nat)
    requires n < 10 * p
    ensures n / 10 < p && n == n / 10 * 10 + n % 10
  {
  }

  lemma DigitsValueAppend(s: string, c: char)
    requires (forall i :: 0 <= i < |s| ==> IsDigit(s[i])) && IsDigit(c)
    ensures DigitsValue(s + [c]) == DigitsValue(s) * 10 + DigitValue(c)
  {
    assert (s + [c])[..|s|] == s;
  }

  lemma {:induction false} ZeroPaddedValue(n: nat, width: nat)
    requires n < Pow10(width)
    ensures DigitsValue(ZeroPadded(n, width)) == n
  {
    if width > 0 {
      var high := ZeroPadded(n / 10, width - 1);
      TenthFits(n, Pow10(width - 1));
      ZeroPaddedValue(n / 10, width - 1);
      DigitsValueAppend(high, DigitChar(n % 10));
    }
  }

  /** A digit string is the zero-padded form of its own value. */
  lemma {:induction false} DigitsArePadded(s: string)
    requires forall i :: 0 <= i < |s| ==> IsDigit(s[i])
    ensures DigitsValue(s) < Pow10(|s|)
    ensures ZeroPadded(DigitsValue(s), |s|) == s
  {
    if s != [] {
      DigitsArePadded(s[..|s| - 1]);
      assert s == s[..|s| - 1] + [s[|s| - 1]];
    }
  }

  lemma DigitsTrimmed(s: string)
    requires forall i :: 0 <= i < |s| ==> IsDigit(s[i])
    ensures Trimmed(s) && Strip(s) == s
  {
    StripTrimmed(s);
  }

  // ---- int(...) ----

  /** Digits with single underscores strictly between them, as `int` accepts. */
  predicate GroupedDigits(s: string) {
    && s != [] && IsDigit(s[0]) && IsDigit(s[|s| - 1])
    && (forall i :: 0 <= i < |s| ==> IsDigit(s[i]) || s[i] == '_')
    && (forall i :: 0 < i < |s| ==> s[i - 1] == '_' ==> s[i] != '_')
  }

  function OnlyDigits(s: string): (r: string)
    ensures forall i :: 0 <= i < |r| ==> IsDigit(r[i])
  {
    if s == [] then []
    else if IsDigit(s[0]) then [s[0]] + OnlyDigits(s[1..])
    else OnlyDigits(s[1..])
  }

  lemma {:induction false} OnlyDigitsOfDigits(s: string)
    requires forall i :: 0 <= i < |s| ==> IsDigit(s[i])
    ensures OnlyDigits(s) == s
  {
    if s != [] {
      OnlyDigitsOfDigits(s[1..]);
    }
  }

  /** Python's `int(s)` on an already stripped string: optional sign, grouped digits. */
  function ParseInt(s: string): Option<int> {
    var body := if s != [] && (s[0] == '+' || s[0] == '-') then s[1..] else s;
    if !GroupedDigits(body) then None
    else
      var magnitude: int := DigitsValue(OnlyDigits(body));
      Some(if s[0] == '-' then -magnitude else magnitude)
  }

  lemma DigitsAreGrouped(s: string)
    requires AllDigits(s)
    ensures GroupedDigits(s) && s[0] != '+' && s[0] != '-'
  {
  }

  lemma ParseIntPadded(n: nat, width: nat)
    requires 0 < width && n < Pow10(width)
    ensures ParseInt(ZeroPadded(n, width)) == Some(n)
  {
    var s := ZeroPadded(n, width);
    ZeroPaddedValue(n, width);
    OnlyDigitsOfDigits(s);
    DigitsAreGrouped(s);
  }
}
