/**
 The passport (TD-3) machine readable zone parser: check digits, dates, name fields, and the
 pair-of-lines parser, as specified in ICAO Doc 9303.
 */
module Mrz {
  import opened Wrappers
  import opened Text

  datatype CheckedField = DocumentNumber | BirthDate | ExpiryDate | Composite

  datatype MrzError =
    | BadLength(line: nat, length: nat)
    | BadDocumentCode(code: char)
    | NoNameSeparator
    | IllegalCharacter(c: char)
    | BadCheckDigit(field: CheckedField, got: char, expected: char)
    | BadDate(text: string)
    | BadSex(c: char)

  datatype Sex = M | F | X

  datatype Passport = Passport(
    documentNumber: string,
    surname: string,
    givenNames: string,
    nationality: string,
    dateOfBirth: string,
    sex: Sex,
    expirationDate: string,
    rawMrz: (string, string))

  // ---- check digits ----

  predicate Legal(c: char) {
    IsDigit(c) || 'A' <= c <= 'Z' || c == '<'
  }

  predicate AllLegal(s: string) {
    forall i :: 0 <= i < |s| ==> Legal(s[i])
  }

  function Value(c: char): nat
    requires Legal(c)
  {
    if IsDigit(c) then DigitValue(c) else if c == '<' then 0 else (c - 'A') as nat + 10
  }

  /** `v` times the weight of position `i`: 7, 3, 1, 7, 3, 1, ... */
  function Weighted(v: int, i: nat): int {
    if i % 3 == 0 then 7 * v else if i % 3 == 1 then 3 * v else v
  }

  function WeightedSum(s: string): int
    requires AllLegal(s)
  {
    if s == [] then 0
    else WeightedSum(s[..|s| - 1]) + Weighted(Value(s[|s| - 1]), |s| - 1)
  }

  function FirstIllegal(s: string): (c: char)
    requires !AllLegal(s)
  {
    if !Legal(s[0]) then s[0] else FirstIllegal(s[1..])
  }

  /** What `mrzCheckDigit` returns, as a digit character, or the character it rejects. */
  function CheckDigitOf(s: string): Result<char, MrzError> {
    if AllLegal(s) then Ok(DigitChar(WeightedSum(s) % 10)) else Err(IllegalCharacter(FirstIllegal(s)))
  }

  lemma {:induction false} FirstIllegalAt(s: string, k: nat)
    requires k < |s| && AllLegal(s[..k]) && !Legal(s[k])
    ensures FirstIllegal(s) == s[k]
  {
    if k > 0 {
      assert Legal(s[..k][0]);
      assert s[1..][..k - 1] == s[..k][1..];
      FirstIllegalAt(s[1..], k - 1);
    }
  }

  method MrzCheckDigit(input: string) returns (r: Result<char, MrzError>)
    ensures r == CheckDigitOf(input)
  {
    var weights := [7, 3, 1];
    var sum := 0;
    for i := 0 to |input|
      invariant AllLegal(input[..i]) && sum == WeightedSum(input[..i])
    {
      var ch := input[i];
      var v: nat;
      if '0' <= ch <= '9' {
        v := (ch as int) - 48;
      } else if 'A' <= ch <= 'Z' {
        v := (ch as int) - 55;
      } else if ch == '<' {
        v := 0;
      } else {
        FirstIllegalAt(input, i);
        return Err(IllegalCharacter(ch));
      }
      sum := sum + v * weights[i % 3];
      assert input[..i + 1][..i] == input[..i];
    }
    assert input[..|input|] == input;
    return Ok(DigitChar(sum % 10));
  }

  /** One replaced character moves the sum by its value change times its weight. */
  lemma {:induction false} SumAfterReplacement(s: string, k: nat, c: char)
    requires AllLegal(s) && k < |s| && Legal(c)
    ensures AllLegal(s[k := c])
    ensures WeightedSum(s[k := c]) == WeightedSum(s) + Weighted(Value(c) - Value(s[k]), k)
  {
    var n := |s| - 1;
    if k == n {
      assert s[k := c][..n] == s[..n];
    } else {
      assert s[k := c][..n] == s[..n][k := c];
      SumAfterReplacement(s[..n], k, c);
    }
  }

  // ---- the digit from the published table ----

  /** The characters in order of their values 0 to 35; the filler counts as 0. */
  const CHARACTERS := "0123456789ABCDEFGHIJKLMNOPQRSTUVWXYZ"

  const WEIGHTS := [7, 3, 1]

  lemma LettersInOrder(j: nat)
    requires j < 36
    ensures CHARACTERS[j] == if j < 10 then '0' + j as char else 'A' + (j - 10) as char
  {
    if j < 12 {
    } else if j < 24 {
    } else {
    }
  }

  /** Character `c` is number `j` of the table; the filler counts as number 0. */
  predicate IsNumber(c: char, j: nat) {
    j < 36 && (c == CHARACTERS[j] || (c == '<' && j == 0))
  }

  lemma ValueByTable(c: char, j: nat)
    requires IsNumber(c, j)
    ensures Legal(c) && Value(c) == j
  {
    if c != '<' {
      LettersInOrder(j);
    }
  }

  /** What the character numbered `j` adds at place `i`. */
  function Contribution(j: nat, i: nat): nat {
    j * WEIGHTS[i % 3]
  }

  lemma WeightByTable(j: nat, i: nat)
    ensures Weighted(j, i) == Contribution(j, i)
  {
  }

  predicate Spells(s: string, places: seq<nat>) {
    |s| == |places| && forall i :: 0 <= i < |s| ==> IsNumber(s[i], places[i])
  }

  function TableSum(places: seq<nat>): nat {
    if places == [] then 0
    else TableSum(places[..|places| - 1]) + Contribution(places[|places| - 1], |places| - 1)
  }

  lemma SumStep(s: string, places: seq<nat>, n: nat)
    requires |s| == |places| == n + 1 && AllLegal(s) && Value(s[n]) == places[n]
    requires WeightedSum(s[..n]) == TableSum(places[..n])
    ensures WeightedSum(s) == TableSum(places)
  {
    WeightByTable(places[n], n);
  }

  lemma {:induction false} SumIsTableSum(s: string, places: seq<nat>)
    requires Spells(s, places)
    ensures AllLegal(s) && WeightedSum(s) == TableSum(places)
  {
    if s != [] {
      var n := |s| - 1;
      forall i | 0 <= i <= n
        ensures Legal(s[i])
      {
        ValueByTable(s[i], places[i]);
      }
      assert IsNumber(s[n], places[n]);
      ValueByTable(s[n], places[n]);
      SumIsTableSum(s[..n], places[..n]);
      SumStep(s, places, n);
    }
  }

  /**
   The check digit of any string, from the published table and weights: the places of its characters in the table,
   times 7, 3, 1 in turn, summed modulo 10. A string with a character outside the table and not a filler has none.
   */
  lemma DigitByTable(s: string, places: seq<nat>)
    requires Spells(s, places)
    ensures CheckDigitOf(s) == Ok(DigitChar(TableSum(places) % 10))
  {
    SumIsTableSum(s, places);
  }

  lemma ListedIsLegal(c: char)
    requires c in CHARACTERS
    ensures Legal(c)
  {
    var j :| 0 <= j < |CHARACTERS| && CHARACTERS[j] == c;
    LettersInOrder(j);
  }

  lemma LegalIsListed(c: char)
    requires Legal(c) && c != '<'
    ensures c in CHARACTERS
  {
    LettersInOrder(Value(c));
    assert CHARACTERS[Value(c)] in CHARACTERS;
  }

  lemma LegalIff(c: char)
    ensures Legal(c) <==> c == '<' || c in CHARACTERS
  {
    if c in CHARACTERS {
      ListedIsLegal(c);
    } else if Legal(c) && c != '<' {
      LegalIsListed(c);
    }
  }

  lemma {:induction false} ZerosSumToNothing(places: seq<nat>)
    requires forall i :: 0 <= i < |places| ==> places[i] == 0
    ensures TableSum(places) == 0
  {
    if places != [] {
      ZerosSumToNothing(places[..|places| - 1]);
    }
  }

  lemma {:induction false} OneCharacterSum(n: nat, i: nat, j: nat)
    requires i < n && j < 36
    ensures TableSum(seq(n, k => if k == i then j else 0)) == Contribution(j, i)
  {
    var places := seq(n, k => if k == i then j else 0);
    assert places[..n - 1] == seq(n - 1, k => if k == i then j else 0);
    if i == n - 1 {
      ZerosSumToNothing(places[..n - 1]);
    } else {
      OneCharacterSum(n - 1, i, j);
    }
  }

  /** A string of zeros but for character number `j` of the table at place `i`, for every length. */
  lemma DigitOfOneCharacter(n: nat, i: nat, j: nat)
    requires i < n && j < 36
    ensures CheckDigitOf(seq(n, k => if k == i then CHARACTERS[j] else '0')) == Ok(DigitChar(j * [7, 3, 1][i % 3] % 10))
  {
    var places := seq(n, k => if k == i then j else 0);
    assert Spells(seq(n, k => if k == i then CHARACTERS[j] else '0'), places);
    DigitByTable(seq(n, k => if k == i then CHARACTERS[j] else '0'), places);
    OneCharacterSum(n, i, j);
  }

  /** A field together with its check digit. */
  predicate Checks(s: string, digit: char) {
    AllLegal(s) && IsDigit(digit) && WeightedSum(s) % 10 == DigitValue(digit)
  }

  lemma ChecksIff(s: string, digit: char)
    ensures Checks(s, digit) <==> CheckDigitOf(s) == Ok(digit)
  {
    if IsDigit(digit) {
      assert DigitChar(DigitValue(digit)) == digit;
    }
  }

  lemma SameResidue(a: int, b: int)
    ensures (a + b) % 10 == a % 10 <==> b % 10 == 0
  {
    if (a + b) % 10 == a % 10 {
      assert b == 10 * ((a + b) / 10 - a / 10);
    }
    if b % 10 == 0 {
      assert a + b == 10 * (a / 10 + b / 10) + a % 10;
    }
  }

  /** A multiple of ten plus a remainder below ten. */
  lemma Remainder10(x: int, q: int, r: int)
    requires x == 10 * q + r && 0 <= r < 10
    ensures x % 10 == r
  {
  }

  lemma Times3(d: int)
    ensures 3 * d % 10 == 0 <==> d % 10 == 0
  {
    var q, r := d / 10, d % 10;
    var carry := if r <= 3 then 0 else if r <= 6 then 1 else 2;
    Remainder10(3 * d, 3 * q + carry, 3 * r - 10 * carry);
  }

  lemma Times7(d: int)
    ensures 7 * d % 10 == 0 <==> d % 10 == 0
  {
    Times3(-d);
    NegatedMultiple(d);
    assert 7 * d == 10 * d + 3 * (-d);
    ShiftByTens(3 * (-d), d);
  }

  lemma ShiftByTens(x: int, q: int)
    ensures (10 * q + x) % 10 == x % 10
  {
    Remainder10(10 * q + x, q + x / 10, x % 10);
  }

  lemma NegatedMultiple(d: int)
    ensures -d % 10 == 0 <==> d % 10 == 0
  {
    var q, r := d / 10, d % 10;
    if r == 0 {
      Remainder10(-d, -q, 0);
    } else {
      Remainder10(-d, -q - 1, 10 - r);
    }
  }

  lemma WeightsAreUnits(d: int, k: nat)
    ensures Weighted(d, k) % 10 == 0 <==> d % 10 == 0
  {
    Times3(d);
    Times7(d);
  }

  lemma Times2(d: int)
    ensures 2 * d % 10 == 0 <==> d % 5 == 0
  {
    Remainder10(2 * d, d / 5, 2 * (d % 5));
  }

  lemma Times4(d: int)
    ensures 4 * d % 10 == 0 <==> d % 5 == 0
  {
    var q, r := d / 5, d % 5;
    var carry := if r <= 2 then 0 else 1;
    Remainder10(4 * d, 2 * q + carry, 4 * r - 10 * carry);
  }

  lemma TimesMinus6(d: int)
    ensures -6 * d % 10 == 0 <==> d % 5 == 0
  {
    Times4(d);
    assert -6 * d == 10 * (-d) + 4 * d;
    ShiftByTens(4 * d, -d);
  }

  lemma WeightGap(d: int, k: nat)
    ensures var gap := Weighted(d, k) + Weighted(-d, k + 1);
            gap == if k % 3 == 0 then 4 * d else if k % 3 == 1 then 2 * d else -6 * d
  {
  }

  lemma WeightGapsAreTwiceUnits(d: int, k: nat)
    ensures (Weighted(d, k) + Weighted(-d, k + 1)) % 10 == 0 <==> d % 5 == 0
  {
    WeightGap(d, k);
    Times2(d);
    Times4(d);
    TimesMinus6(d);
  }

  /** Two characters whose values a modulus cannot tell apart. */
  predicate SameMod(m: int, a: char, b: char)
    requires m > 0 && Legal(a) && Legal(b)
  {
    (Value(a) - Value(b)) % m == 0
  }

  /** A check digit misses a replaced character exactly when the two values agree modulo 10. */
  lemma ReplacementAgainstDigit(s: string, digit: char, k: nat, c: char)
    requires Checks(s, digit) && k < |s|
    ensures Checks(s[k := c], digit) <==> Legal(c) && SameMod(10, c, s[k])
  {
    assert s[k := c][k] == c;
    if Legal(c) {
      var d := Value(c) - Value(s[k]);
      SumAfterReplacement(s, k, c);
      SameResidue(WeightedSum(s), Weighted(d, k));
      WeightsAreUnits(d, k);
    }
  }

  function Swapped(s: string, k: nat): (r: string)
    requires k + 1 < |s|
    ensures |r| == |s|
  {
    s[k := s[k + 1]][k + 1 := s[k]]
  }

  /** A check digit misses a swap of neighbours exactly when the two values agree modulo 5. */
  lemma SwapAgainstDigit(s: string, digit: char, k: nat)
    requires Checks(s, digit) && k + 1 < |s|
    ensures Checks(Swapped(s, k), digit) <==> SameMod(5, s[k + 1], s[k])
  {
    var d := Value(s[k + 1]) - Value(s[k]);
    SumAfterReplacement(s, k, s[k + 1]);
    SumAfterReplacement(s[k := s[k + 1]], k + 1, s[k]);
    SameResidue(WeightedSum(s), Weighted(d, k) + Weighted(-d, k + 1));
    WeightGapsAreTwiceUnits(d, k);
  }

  // ---- dates ----

  function IsoDate(year: nat, month: nat, day: nat): (s: string) {
    ZeroPadded(year, 4) + "-" + ZeroPadded(month, 2) + "-" + ZeroPadded(day, 2)
  }

  predicate SixDigits(s: string) {
    |s| == 6 && forall i :: 0 <= i < |s| ==> IsDigit(s[i])
  }

  function ParseMrzDate(yyMMdd: string, pivot: nat): Result<string, MrzError> {
    if !SixDigits(yyMMdd) then Err(BadDate(yyMMdd))
    else
      var yy := DigitsValue(yyMMdd[0..2]);
      var mm := DigitsValue(yyMMdd[2..4]);
      var dd := DigitsValue(yyMMdd[4..6]);
      if mm < 1 || mm > 12 || dd < 1 || dd > 31 then Err(BadDate(yyMMdd))
      else Ok(IsoDate(if yy <= pivot then 2000 + yy else 1900 + yy, mm, dd))
  }

  function MrzDate(year: nat, month: nat, day: nat): (s: string)
    ensures SixDigits(s)
  {
    ZeroPadded(year % 100, 2) + ZeroPadded(month, 2) + ZeroPadded(day, 2)
  }

  predicate DateFits(year: nat, month: nat, day: nat) {
    year <= 9999 && 1 <= month <= 12 && 1 <= day <= 31
  }

  lemma PaddedInjective(a: nat, b: nat, width: nat)
    requires a < Pow10(width) && b < Pow10(width)
    ensures ZeroPadded(a, width) == ZeroPadded(b, width) ==> a == b
  {
    ZeroPaddedValue(a, width);
    ZeroPaddedValue(b, width);
  }

  lemma TwoDigits(n: nat)
    requires n <= 99
    ensures DigitsValue(ZeroPadded(n, 2)) == n
  {
    assert Pow10(2) == 100;
    ZeroPaddedValue(n, 2);
  }

  lemma ThreePairs(a: string, b: string, c: string)
    requires |a| == |b| == |c| == 2
    ensures (a + b + c)[0..2] == a && (a + b + c)[2..4] == b && (a + b + c)[4..6] == c
  {
  }

  lemma ReadBack(year: nat, month: nat, day: nat, pivot: nat)
    requires DateFits(year, month, day)
    ensures ParseMrzDate(MrzDate(year, month, day), pivot)
         == Ok(IsoDate(if year % 100 <= pivot then 2000 + year % 100 else 1900 + year % 100, month, day))
  {
    ThreePairs(ZeroPadded(year % 100, 2), ZeroPadded(month, 2), ZeroPadded(day, 2));
    TwoDigits(year % 100);
    TwoDigits(month);
    TwoDigits(day);
  }

  lemma CenturyOf(year: nat, pivot: nat)
    requires pivot <= 99
    ensures (if year % 100 <= pivot then 2000 + year % 100 else 1900 + year % 100) == year
       <==> 1900 + pivot < year <= 2000 + pivot
  {
  }

  /** The text of a date: four, two and two digits with hyphens between, year first. */
  lemma IsoDateColumns(year: nat, month: nat, day: nat)
    requires DateFits(year, month, day)
    ensures var s := IsoDate(year, month, day);
            && |s| == 10 && s[4] == '-' && s[7] == '-'
            && (forall i :: 0 <= i < 10 && i != 4 && i != 7 ==> IsDigit(s[i]))
            && DigitsValue(s[0..4]) == year && DigitsValue(s[5..7]) == month && DigitsValue(s[8..10]) == day
  {
    var s := IsoDate(year, month, day);
    assert Pow10(4) == 10000;
    assert s[0..4] == ZeroPadded(year, 4) && s[5..7] == ZeroPadded(month, 2) && s[8..10] == ZeroPadded(day, 2);
    ZeroPaddedValue(year, 4);
    TwoDigits(month);
    TwoDigits(day);
  }

  /** A written date is read back exactly when its year lies in the century ending at the pivot. */
  lemma DateRoundTrip(year: nat, month: nat, day: nat, pivot: nat)
    requires DateFits(year, month, day) && pivot <= 99
    ensures ParseMrzDate(MrzDate(year, month, day), pivot) == Ok(IsoDate(year, month, day))
       <==> 1900 + pivot < year <= 2000 + pivot
  {
    var full := if year % 100 <= pivot then 2000 + year % 100 else 1900 + year % 100;
    ReadBack(year, month, day, pivot);
    CenturyOf(year, pivot);
    assert IsoDate(full, month, day)[..4] == ZeroPadded(full, 4);
    assert IsoDate(year, month, day)[..4] == ZeroPadded(year, 4);
    assert Pow10(4) == 10000;
    PaddedInjective(full, year, 4);
  }

  // ---- names ----

  /** `\s` of a JavaScript regular expression, and what `trim` removes, restricted to ASCII. */
  predicate IsBlank(c: char) {
    9 as char <= c <= 13 as char || c == ' '
  }

  function Replace(s: string, from: char, to: char): (r: string)
    ensures |r| == |s|
  {
    seq(|s|, i requires 0 <= i < |s| => if s[i] == from then to else s[i])
  }

  function TrimStart(s: string): string {
    if s != [] && IsBlank(s[0]) then TrimStart(s[1..]) else s
  }

  function TrimEnd(s: string): string {
    if s != [] && IsBlank(s[|s| - 1]) then TrimEnd(s[..|s| - 1]) else s
  }

  /** `replace(/\s+/g, " ")`: each run of blanks becomes one space. */
  function CollapseBlanks(s: string): string {
    if s == [] then []
    else if !IsBlank(s[0]) then [s[0]] + CollapseBlanks(s[1..])
    else if |s| > 1 && IsBlank(s[1]) then CollapseBlanks(s[1..])
    else [' '] + CollapseBlanks(s[1..])
  }

  function StripFiller(s: string): string {
    CollapseBlanks(TrimEnd(TrimStart(Replace(s, '<', ' '))))
  }

  /** No filler, no blank but the space, no space at either end, no two in a row. */
  predicate SingleSpaced(s: string) {
    && (forall i :: 0 <= i < |s| ==> s[i] != '<' && (IsBlank(s[i]) ==> s[i] == ' '))
    && (forall i :: 0 < i < |s| ==> !(s[i - 1] == ' ' && s[i] == ' '))
    && (s != [] ==> s[0] != ' ' && s[|s| - 1] != ' ')
  }

  lemma {:induction false} TrimEndOfFilled(s: string, n: nat)
    requires s != [] ==> !IsBlank(s[|s| - 1])
    ensures TrimEnd(s + Spaces(n)) == s
  {
    if n == 0 {
      assert s + Spaces(0) == s;
    } else {
      assert (s + Spaces(n))[..|s| + n - 1] == s + Spaces(n - 1);
      TrimEndOfFilled(s, n - 1);
    }
  }

  lemma {:induction false} TrimStartOfBlank(n: nat)
    ensures TrimStart(Spaces(n)) == []
  {
    if n > 0 {
      assert Spaces(n)[1..] == Spaces(n - 1);
      TrimStartOfBlank(n - 1);
    }
  }

  lemma {:induction false} CollapseKeepsSingle(s: string)
    requires forall i :: 0 <= i < |s| ==> IsBlank(s[i]) ==> s[i] == ' '
    requires forall i :: 0 < i < |s| ==> !(s[i - 1] == ' ' && s[i] == ' ')
    ensures CollapseBlanks(s) == s
  {
    if s != [] {
      CollapseKeepsSingle(s[1..]);
      assert s == [s[0]] + s[1..];
      if |s| > 1 {
        assert !(s[1 - 1] == ' ' && s[1] == ' ');
      }
    }
  }

  function Fillers(n: nat): (s: string)
    ensures |s| == n
  {
    seq(n, _ => '<')
  }

  /** A name as it is printed: spaces become fillers, then fillers up to the end of the field. */
  lemma NameRoundTrip(name: string, n: nat)
    requires SingleSpaced(name)
    ensures StripFiller(Replace(name, ' ', '<') + Fillers(n)) == name
  {
    assert Replace(Replace(name, ' ', '<') + Fillers(n), '<', ' ') == name + Spaces(n);
    if name == [] {
      assert name + Spaces(n) == Spaces(n);
      TrimStartOfBlank(n);
    } else {
      assert TrimStart(name + Spaces(n)) == name + Spaces(n);
      TrimEndOfFilled(name, n);
      CollapseKeepsSingle(name);
    }
  }

  /** `indexOf("<<")`. */
  function SeparatorIndex(s: string): (r: Option<nat>)
    ensures r.Some? ==> r.value + 2 <= |s| && s[r.value] == '<' && s[r.value + 1] == '<'
  {
    if |s| < 2 then None
    else if s[0] == '<' && s[1] == '<' then Some(0)
    else match SeparatorIndex(s[1..]) case None => None case Some(i) => Some(i + 1)
  }

  lemma {:induction false} SeparatorIsFirst(s: string, k: nat)
    requires k + 2 <= |s| && s[k] == '<' && s[k + 1] == '<'
    requires forall i :: 0 <= i < k ==> !(s[i] == '<' && s[i + 1] == '<')
    ensures SeparatorIndex(s) == Some(k)
  {
    if k > 0 {
      assert !(s[0] == '<' && s[0 + 1] == '<');
      var t := s[1..];
      forall i | 0 <= i < k - 1 ensures !(t[i] == '<' && t[i + 1] == '<') {
        assert !(s[i + 1] == '<' && s[(i + 1) + 1] == '<');
      }
      SeparatorIsFirst(t, k - 1);
    }
  }

  /** `replace(/</g, "")`. */
  function RemoveFillers(s: string): string {
    if s == [] then [] else (if s[0] == '<' then [] else [s[0]]) + RemoveFillers(s[1..])
  }

  predicate NoFiller(s: string) {
    forall i :: 0 <= i < |s| ==> s[i] != '<'
  }

  function FillTo(s: string, width: nat): (r: string)
    requires |s| <= width
    ensures |r| == width
  {
    s + Fillers(width - |s|)
  }

  lemma {:induction false} FillerRoundTrip(s: string, width: nat)
    requires |s| <= width && NoFiller(s)
    ensures RemoveFillers(FillTo(s, width)) == s
  {
    var r := FillTo(s, width);
    if s != [] {
      assert r[1..] == FillTo(s[1..], width - 1);
      FillerRoundTrip(s[1..], width - 1);
    } else if width > 0 {
      assert r[1..] == FillTo(s, width - 1);
      FillerRoundTrip(s, width - 1);
    }
  }

  // ---- the pair of lines ----

  const LINE_LENGTH := 44
  const BIRTH_PIVOT := 30
  const EXPIRY_PIVOT := 79

  function VerifyCheck(field: CheckedField, input: string, digit: char): Result<(), MrzError> {
    var expected :- CheckDigitOf(input);
    if digit == expected then Ok(()) else Err(BadCheckDigit(field, digit, expected))
  }

  function ParseSex(c: char): Result<Sex, MrzError> {
    if c == 'M' then Ok(M) else if c == 'F' then Ok(F)
    else if c == 'X' || c == '<' then Ok(X) else Err(BadSex(c))
  }

  /** The characters the last check digit covers: all checked fields with their own digits. */
  function CompositeInput(line2: string): (s: string)
    requires |line2| == LINE_LENGTH
    ensures |s| == 39
  {
    line2[0..10] + line2[13..20] + line2[21..43]
  }

  /** The checks of line two, in their order, or the error of the first that fails. */
  function VerifyChecks(line2: string): Result<(), MrzError>
    requires |line2| == LINE_LENGTH
  {
    var _ :- VerifyCheck(DocumentNumber, line2[0..9], line2[9]);
    var _ :- VerifyCheck(BirthDate, line2[13..19], line2[19]);
    var _ :- VerifyCheck(ExpiryDate, line2[21..27], line2[27]);
    VerifyCheck(Composite, CompositeInput(line2), line2[43])
  }

  /** What the second line yields. */
  datatype LineTwo = LineTwo(documentNumber: string, nationality: string, birth: string, sex: Sex, expiry: string)

  function ParseLineTwo(line2: string): Result<LineTwo, MrzError>
    requires |line2| == LINE_LENGTH
  {
    var _ :- VerifyChecks(line2);
    var birth :- ParseMrzDate(line2[13..19], BIRTH_PIVOT);
    var expiry :- ParseMrzDate(line2[21..27], EXPIRY_PIVOT);
    var sex :- ParseSex(line2[20]);
    Ok(LineTwo(RemoveFillers(line2[0..9]), RemoveFillers(line2[10..13]), birth, sex, expiry))
  }

  function ParseMrz(line1: string, line2: string): Result<Passport, MrzError> {
    if |line1| != LINE_LENGTH then Err(BadLength(1, |line1|))
    else if |line2| != LINE_LENGTH then Err(BadLength(2, |line2|))
    else if line1[0] != 'P' then Err(BadDocumentCode(line1[0]))
    else
      var issuingState := RemoveFillers(line1[2..5]);
      var nameField := line1[5..44];
      var separator := SeparatorIndex(nameField);
      if separator.None? then Err(NoNameSeparator)
      else
        var surname := StripFiller(nameField[..separator.value]);
        var givenNames := StripFiller(nameField[separator.value + 2..]);
        var two :- ParseLineTwo(line2);
        Ok(Passport(two.documentNumber, surname, givenNames,
                    if two.nationality != [] then two.nationality else issuingState,
                    two.birth, two.sex, two.expiry, (line1, line2)))
  }

  predicate LineOneAccepted(line1: string) {
    |line1| == LINE_LENGTH && line1[0] == 'P' && SeparatorIndex(line1[5..44]).Some?
  }

  /** What the parser demands of the second line, check by check. */
  predicate LineTwoAccepted(line2: string) {
    && |line2| == LINE_LENGTH
    && Checks(line2[0..9], line2[9])
    && Checks(line2[13..19], line2[19])
    && Checks(line2[21..27], line2[27])
    && Checks(CompositeInput(line2), line2[43])
    && ParseMrzDate(line2[13..19], BIRTH_PIVOT).Ok?
    && ParseMrzDate(line2[21..27], EXPIRY_PIVOT).Ok?
    && ParseSex(line2[20]).Ok?
  }

  lemma LineTwoAcceptance(line2: string)
    requires |line2| == LINE_LENGTH
    ensures ParseLineTwo(line2).Ok? <==> LineTwoAccepted(line2)
  {
    ChecksIff(line2[0..9], line2[9]);
    ChecksIff(line2[13..19], line2[19]);
    ChecksIff(line2[21..27], line2[27]);
    ChecksIff(CompositeInput(line2), line2[43]);
  }

  lemma AcceptanceByLine(line1: string, line2: string)
    ensures ParseMrz(line1, line2).Ok? <==> LineOneAccepted(line1) && LineTwoAccepted(line2)
  {
    if |line2| == LINE_LENGTH {
      LineTwoAcceptance(line2);
    }
  }

  // ---- what a rejection says ----

  lemma {:induction false} NoSeparator(s: string)
    requires SeparatorIndex(s).None?
    ensures forall i :: 0 <= i < |s| - 1 ==> !(s[i] == '<' && s[i + 1] == '<')
  {
    if |s| >= 2 {
      NoSeparator(s[1..]);
      forall i | 0 <= i < |s| - 1
        ensures !(s[i] == '<' && s[i + 1] == '<')
      {
        if i > 0 {
          assert s[i] == s[1..][i - 1] && s[i + 1] == s[1..][i];
        }
      }
    }
  }

  lemma {:induction false} FirstIllegalIsThere(s: string)
    requires !AllLegal(s)
    ensures FirstIllegal(s) in s && !Legal(FirstIllegal(s))
  {
    if Legal(s[0]) {
      assert exists i :: 1 <= i < |s| && !Legal(s[i]);
      var i :| 1 <= i < |s| && !Legal(s[i]);
      assert s[1..][i - 1] == s[i];
      FirstIllegalIsThere(s[1..]);
    }
  }

  /** Columns that fail their check digit, and the digit they should have had. */
  predicate FailsCheck(s: string, got: char, expected: char) {
    Checks(s, expected) && got != expected
  }

  /** What is wrong with the second line. */
  predicate LineTwoFails(e: MrzError, line2: string)
    requires |line2| == LINE_LENGTH
  {
    match e
    case IllegalCharacter(c) => c in line2 && !Legal(c)
    case BadCheckDigit(DocumentNumber, got, expected) =>
      got == line2[9] && FailsCheck(line2[0..9], got, expected)
    case BadCheckDigit(BirthDate, got, expected) =>
      got == line2[19] && FailsCheck(line2[13..19], got, expected)
    case BadCheckDigit(ExpiryDate, got, expected) =>
      got == line2[27] && FailsCheck(line2[21..27], got, expected)
    case BadCheckDigit(Composite, got, expected) =>
      got == line2[43] && FailsCheck(line2[0..10] + line2[13..20] + line2[21..43], got, expected)
    case BadDate(text) =>
      && (text == line2[13..19] || text == line2[21..27])
      && (SixDigits(text) ==> !(1 <= DigitsValue(text[2..4]) <= 12 && 1 <= DigitsValue(text[4..6]) <= 31))
    case BadSex(c) => c == line2[20] && c !in "MFX<"
    case _ => false
  }

  predicate Fails(e: MrzError, line1: string, line2: string) {
    match e
    case BadLength(line, n) =>
      (line == 1 && n == |line1| != 44) || (line == 2 && |line1| == 44 && n == |line2| != 44)
    case BadDocumentCode(c) => |line1| == |line2| == 44 && c == line1[0] != 'P'
    case NoNameSeparator =>
      && |line1| == |line2| == 44 && line1[0] == 'P'
      && forall i :: 5 <= i < 43 ==> !(line1[i] == '<' && line1[i + 1] == '<')
    case _ => |line2| == 44 && LineOneAccepted(line1) && LineTwoFails(e, line2)
  }

  lemma CheckRejection(field: CheckedField, input: string, digit: char)
    requires VerifyCheck(field, input, digit).Err?
    ensures match VerifyCheck(field, input, digit).error
            case IllegalCharacter(c) => c in input && !Legal(c)
            case BadCheckDigit(f, got, expected) => f == field && got == digit && FailsCheck(input, got, expected)
            case _ => false
  {
    if AllLegal(input) {
      ChecksIff(input, CheckDigitOf(input).value);
    } else {
      FirstIllegalIsThere(input);
    }
  }

  lemma ChecksRejection(line2: string)
    requires |line2| == LINE_LENGTH && VerifyChecks(line2).Err?
    ensures LineTwoFails(VerifyChecks(line2).error, line2)
  {
    if VerifyCheck(DocumentNumber, line2[0..9], line2[9]).Err? {
      CheckRejection(DocumentNumber, line2[0..9], line2[9]);
    } else if VerifyCheck(BirthDate, line2[13..19], line2[19]).Err? {
      CheckRejection(BirthDate, line2[13..19], line2[19]);
    } else if VerifyCheck(ExpiryDate, line2[21..27], line2[27]).Err? {
      CheckRejection(ExpiryDate, line2[21..27], line2[27]);
    } else {
      CheckRejection(Composite, CompositeInput(line2), line2[43]);
    }
  }

  lemma LineTwoRejection(line2: string)
    requires |line2| == LINE_LENGTH && ParseLineTwo(line2).Err?
    ensures LineTwoFails(ParseLineTwo(line2).error, line2)
  {
    if VerifyChecks(line2).Err? {
      ChecksRejection(line2);
    } else if ParseMrzDate(line2[13..19], BIRTH_PIVOT).Err? {
      DateRejection(line2[13..19], BIRTH_PIVOT);
    } else if ParseMrzDate(line2[21..27], EXPIRY_PIVOT).Err? {
      DateRejection(line2[21..27], EXPIRY_PIVOT);
    } else {
      assert ParseLineTwo(line2) == Err(BadSex(line2[20]));
    }
  }

  lemma DateRejection(text: string, pivot: nat)
    requires ParseMrzDate(text, pivot).Err?
    ensures ParseMrzDate(text, pivot).error == BadDate(text)
    ensures SixDigits(text) ==> !(1 <= DigitsValue(text[2..4]) <= 12 && 1 <= DigitsValue(text[4..6]) <= 31)
  {
  }

  /** Every rejection names what is wrong: length, code, separator, character, digit, date or sex. */
  lemma RejectionNamesFault(line1: string, line2: string)
    requires ParseMrz(line1, line2).Err?
    ensures Fails(ParseMrz(line1, line2).error, line1, line2)
  {
    if |line1| == |line2| == 44 && line1[0] == 'P' {
      var nameField := line1[5..44];
      if SeparatorIndex(nameField).None? {
        NoSeparator(nameField);
        forall i | 5 <= i < 43
          ensures !(line1[i] == '<' && line1[i + 1] == '<')
        {
          assert line1[i] == nameField[i - 5] && line1[i + 1] == nameField[i - 4];
        }
      } else {
        LineTwoRejection(line2);
      }
    }
  }

  // ---- error detection ----

  predicate InDocumentNumber(k: int) { 0 <= k < 9 }
  predicate InBirthDate(k: int) { 13 <= k < 19 }
  predicate InExpiryDate(k: int) { 21 <= k < 27 }
  /** The personal number and its own digit: only the composite digit covers them. */
  predicate InPersonalNumber(k: int) { 28 <= k < 43 }

  /** Where a column of line two lands in the composite input. */
  function CompositeIndex(k: nat): (i: nat)
    requires k < 10 || 13 <= k < 20 || 21 <= k < 43
    ensures i < 39
  {
    if k < 10 then k else if k < 20 then k - 3 else k - 4
  }

  lemma SliceAfterReplacement(s: string, lo: nat, hi: nat, k: nat, c: char)
    requires lo <= hi <= |s| && k < |s|
    ensures s[k := c][lo..hi] == if lo <= k < hi then s[lo..hi][k - lo := c] else s[lo..hi]
  {
  }

  /** The fields after one column of line two is changed. */
  lemma FieldsAfterReplacement(line2: string, k: nat, c: char)
    requires |line2| == LINE_LENGTH && k < LINE_LENGTH
    ensures var changed := line2[k := c];
            && changed[0..9] == (if InDocumentNumber(k) then line2[0..9][k := c] else line2[0..9])
            && changed[13..19] == (if InBirthDate(k) then line2[13..19][k - 13 := c] else line2[13..19])
            && changed[21..27] == (if InExpiryDate(k) then line2[21..27][k - 21 := c] else line2[21..27])
    ensures if k < 10 || 13 <= k < 20 || 21 <= k < 43
            then CompositeInput(line2[k := c]) == CompositeInput(line2)[CompositeIndex(k) := c]
            else CompositeInput(line2[k := c]) == CompositeInput(line2)
  {
    SliceAfterReplacement(line2, 0, 9, k, c);
    SliceAfterReplacement(line2, 13, 19, k, c);
    SliceAfterReplacement(line2, 21, 27, k, c);
  }

  /** Digits are told apart modulo 10, so a digit field notices every change. */
  lemma DigitFieldReplacement(field: string, digit: char, k: nat, c: char)
    requires Checks(field, digit) && SixDigits(field) && k < 6 && c != field[k]
    ensures !(Checks(field[k := c], digit) && SixDigits(field[k := c]))
  {
    ReplacementAgainstDigit(field, digit, k, c);
    assert field[k := c][k] == c;
    if IsDigit(c) {
      assert Value(c) != Value(field[k]);
    }
  }

  /** Which misreadings of one column of an accepted second line the parser lets through. */
  predicate MisreadingPasses(k: nat, was: char, c: char) {
    if InDocumentNumber(k) || InPersonalNumber(k)
    then Legal(c) && Legal(was) && SameMod(10, c, was)
    else if k == 20 then c in "MFX<"
    else 10 <= k < 13
  }

  lemma MisreadNumber(line2: string, k: nat, c: char)
    requires LineTwoAccepted(line2) && (InDocumentNumber(k) || InPersonalNumber(k))
    ensures LineTwoAccepted(line2[k := c]) <==> MisreadingPasses(k, line2[k], c)
  {
    FieldsAfterReplacement(line2, k, c);
    assert CompositeInput(line2)[CompositeIndex(k)] == line2[k];
    ReplacementAgainstDigit(CompositeInput(line2), line2[43], CompositeIndex(k), c);
    if InDocumentNumber(k) {
      ReplacementAgainstDigit(line2[0..9], line2[9], k, c);
    }
  }

  lemma MisreadDate(line2: string, k: nat, c: char)
    requires LineTwoAccepted(line2) && (InBirthDate(k) || InExpiryDate(k)) && c != line2[k]
    ensures !LineTwoAccepted(line2[k := c])
  {
    FieldsAfterReplacement(line2, k, c);
    if InBirthDate(k) {
      DigitFieldReplacement(line2[13..19], line2[19], k - 13, c);
    } else {
      DigitFieldReplacement(line2[21..27], line2[27], k - 21, c);
    }
  }

  lemma DigitIsUnique(s: string, a: char, b: char)
    requires Checks(s, a) && Checks(s, b)
    ensures a == b
  {
  }

  lemma MisreadDigit(line2: string, k: nat, c: char)
    requires |line2| == LINE_LENGTH && (k == 9 || k == 19 || k == 27 || k == 43) && c != line2[k]
    requires LineTwoAccepted(line2)
    ensures !LineTwoAccepted(line2[k := c])
  {
    FieldsAfterReplacement(line2, k, c);
    if LineTwoAccepted(line2[k := c]) {
      var field := if k == 9 then line2[0..9] else if k == 19 then line2[13..19]
                   else if k == 27 then line2[21..27] else CompositeInput(line2);
      DigitIsUnique(field, line2[k], c);
    }
  }

  lemma MisreadElsewhere(line2: string, k: nat, c: char)
    requires |line2| == LINE_LENGTH && (10 <= k < 13 || k == 20)
    requires LineTwoAccepted(line2)
    ensures LineTwoAccepted(line2[k := c]) <==> MisreadingPasses(k, line2[k], c)
  {
    FieldsAfterReplacement(line2, k, c);
  }

  lemma SameFirstLine(line1: string, a: string, b: string)
    requires ParseMrz(line1, a).Ok?
    ensures LineTwoAccepted(a)
    ensures ParseMrz(line1, b).Ok? <==> LineTwoAccepted(b)
  {
    AcceptanceByLine(line1, a);
    AcceptanceByLine(line1, b);
  }

  /**
   Single misreadings. On an accepted pair, changing any one character of the second line is let
   through exactly in these cases: the nationality (no digit covers it), another sex code, or a
   document or personal number character replaced by one of equal value modulo 10.
   */
  lemma MisreadingDetected(line1: string, line2: string, k: nat, c: char)
    requires ParseMrz(line1, line2).Ok? && k < |line2| && c != line2[k]
    ensures ParseMrz(line1, line2[k := c]).Ok? <==> MisreadingPasses(k, line2[k], c)
  {
    SameFirstLine(line1, line2, line2[k := c]);
    if InDocumentNumber(k) || InPersonalNumber(k) {
      MisreadNumber(line2, k, c);
    } else if InBirthDate(k) || InExpiryDate(k) {
      MisreadDate(line2, k, c);
    } else if k == 9 || k == 19 || k == 27 || k == 43 {
      MisreadDigit(line2, k, c);
    } else {
      MisreadElsewhere(line2, k, c);
    }
  }

  predicate SameField(k: int) {
    || (InDocumentNumber(k) && InDocumentNumber(k + 1))
    || (InBirthDate(k) && InBirthDate(k + 1))
    || (InExpiryDate(k) && InExpiryDate(k + 1))
    || (InPersonalNumber(k) && InPersonalNumber(k + 1))
  }

  /** The fields after two neighbours of one field are swapped. */
  lemma FieldsAfterSwap(line2: string, k: nat)
    requires |line2| == LINE_LENGTH && SameField(k)
    ensures var changed := Swapped(line2, k);
            && changed[0..9] == (if InDocumentNumber(k) then Swapped(line2[0..9], k) else line2[0..9])
            && changed[13..19] == (if InBirthDate(k) then Swapped(line2[13..19], k - 13) else line2[13..19])
            && changed[21..27] == (if InExpiryDate(k) then Swapped(line2[21..27], k - 21) else line2[21..27])
            && CompositeInput(changed) == Swapped(CompositeInput(line2), CompositeIndex(k))
  {
    FieldsAfterReplacement(line2, k, line2[k + 1]);
    FieldsAfterReplacement(line2[k := line2[k + 1]], k + 1, line2[k]);
  }

  predicate DatesRead(line2: string)
    requires |line2| == LINE_LENGTH
  {
    ParseMrzDate(line2[13..19], BIRTH_PIVOT).Ok? && ParseMrzDate(line2[21..27], EXPIRY_PIVOT).Ok?
  }

  lemma SwapInComposite(line2: string, k: nat)
    requires LineTwoAccepted(line2) && SameField(k)
    ensures Legal(line2[k]) && Legal(line2[k + 1])
    ensures Checks(Swapped(CompositeInput(line2), CompositeIndex(k)), line2[43])
       <==> SameMod(5, line2[k + 1], line2[k])
  {
    var composite, i := CompositeInput(line2), CompositeIndex(k);
    assert composite[i] == line2[k] && composite[i + 1] == line2[k + 1];
    SwapAgainstDigit(composite, line2[43], i);
  }

  lemma SwapInNumber(line2: string, k: nat)
    requires LineTwoAccepted(line2) && SameField(k) && (InDocumentNumber(k) || InPersonalNumber(k))
    ensures Legal(line2[k]) && Legal(line2[k + 1])
    ensures LineTwoAccepted(Swapped(line2, k)) <==> SameMod(5, line2[k + 1], line2[k])
    ensures DatesRead(Swapped(line2, k))
  {
    FieldsAfterSwap(line2, k);
    SwapInComposite(line2, k);
    if InDocumentNumber(k) {
      SwapAgainstDigit(line2[0..9], line2[9], k);
    }
  }

  lemma SwapInBirthDate(line2: string, k: nat)
    requires LineTwoAccepted(line2) && SameField(k) && InBirthDate(k)
    ensures Legal(line2[k]) && Legal(line2[k + 1])
    ensures LineTwoAccepted(Swapped(line2, k))
       <==> SameMod(5, line2[k + 1], line2[k]) && DatesRead(Swapped(line2, k))
  {
    FieldsAfterSwap(line2, k);
    SwapInComposite(line2, k);
    SwapAgainstDigit(line2[13..19], line2[19], k - 13);
  }

  lemma SwapInExpiryDate(line2: string, k: nat)
    requires LineTwoAccepted(line2) && SameField(k) && InExpiryDate(k)
    ensures Legal(line2[k]) && Legal(line2[k + 1])
    ensures LineTwoAccepted(Swapped(line2, k))
       <==> SameMod(5, line2[k + 1], line2[k]) && DatesRead(Swapped(line2, k))
  {
    FieldsAfterSwap(line2, k);
    SwapInComposite(line2, k);
    SwapAgainstDigit(line2[21..27], line2[27], k - 21);
  }

  /**
   Transpositions. Swapping neighbours inside one field of an accepted pair is let through exactly
   when their values agree modulo 5 and the dates, if touched, still are dates.
   */
  lemma TranspositionDetected(line1: string, line2: string, k: nat)
    requires ParseMrz(line1, line2).Ok? && SameField(k)
    ensures Legal(line2[k]) && Legal(line2[k + 1])
    ensures ParseMrz(line1, Swapped(line2, k)).Ok?
       <==> SameMod(5, line2[k + 1], line2[k]) && DatesRead(Swapped(line2, k))
  {
    SameFirstLine(line1, line2, Swapped(line2, k));
    if InDocumentNumber(k) || InPersonalNumber(k) {
      SwapInNumber(line2, k);
    } else if InBirthDate(k) {
      SwapInBirthDate(line2, k);
    } else {
      SwapInExpiryDate(line2, k);
    }
  }

  // ---- round trip ----

  datatype CivilDate = CivilDate(year: nat, month: nat, day: nat)

  /** What is printed on the data page; `personalCheck` is not verified by itself. */
  datatype Page = Page(
    kind: char,
    issuingState: string,
    surname: string,
    givenNames: string,
    documentNumber: string,
    nationality: string,
    birth: CivilDate,
    sex: Sex,
    expiry: CivilDate,
    personalNumber: string,
    personalCheck: char)

  predicate FitsPage(p: Page) {
    && |p.issuingState| <= 3 && NoFiller(p.issuingState)
    && SingleSpaced(p.surname) && SingleSpaced(p.givenNames)
    && |p.surname| + 2 + |p.givenNames| <= 39
    && |p.documentNumber| <= 9 && NoFiller(p.documentNumber) && AllLegal(p.documentNumber)
    && |p.nationality| <= 3 && NoFiller(p.nationality)
    && DateFits(p.birth.year, p.birth.month, p.birth.day) && 1931 <= p.birth.year <= 2030
    && DateFits(p.expiry.year, p.expiry.month, p.expiry.day) && 1980 <= p.expiry.year <= 2079
    && |p.personalNumber| == 14 && AllLegal(p.personalNumber) && Legal(p.personalCheck)
  }

  function DigitFor(s: string): (c: char)
    requires AllLegal(s)
    ensures Checks(s, c)
  {
    DigitChar(WeightedSum(s) % 10)
  }

  function SexChar(s: Sex): char {
    match s case M => 'M' case F => 'F' case X => '<'
  }

  function NameField(surname: string, givenNames: string): (s: string)
    requires |surname| + 2 + |givenNames| <= 39
    ensures |s| == 39
  {
    FillTo(Replace(surname, ' ', '<') + "<<" + Replace(givenNames, ' ', '<'), 39)
  }

  function EncodeLine1(p: Page): (s: string)
    requires FitsPage(p)
    ensures |s| == LINE_LENGTH
  {
    ['P', p.kind] + FillTo(p.issuingState, 3) + NameField(p.surname, p.givenNames)
  }

  /** A field followed by its check digit. */
  function WithDigit(s: string): (r: string)
    requires AllLegal(s)
    ensures |r| == |s| + 1 && AllLegal(r)
  {
    s + [DigitFor(s)]
  }

  lemma FilledIsLegal(s: string, width: nat)
    requires AllLegal(s) && |s| <= width
    ensures AllLegal(FillTo(s, width))
  {
  }

  function DocumentColumns(p: Page): (s: string)
    requires FitsPage(p)
    ensures |s| == 10 && AllLegal(s)
  {
    FilledIsLegal(p.documentNumber, 9);
    WithDigit(FillTo(p.documentNumber, 9))
  }

  function DateColumns(d: CivilDate): (s: string)
    ensures |s| == 7 && AllLegal(s)
  {
    WithDigit(MrzDate(d.year, d.month, d.day))
  }

  function EncodeLine2(p: Page): (s: string)
    requires FitsPage(p)
    ensures |s| == LINE_LENGTH
  {
    var document := DocumentColumns(p);
    var birth := DateColumns(p.birth);
    var expiry := DateColumns(p.expiry);
    var personal := p.personalNumber + [p.personalCheck];
    document + FillTo(p.nationality, 3) + birth + [SexChar(p.sex)] + expiry + personal
      + [DigitFor(document + birth + (expiry + personal))]
  }

  lemma NameFieldParts(surname: string, givenNames: string)
    requires |surname| + 2 + |givenNames| <= 39
    ensures var f, n := NameField(surname, givenNames), |surname|;
            && f[..n] == Replace(surname, ' ', '<')
            && f[n] == '<' && f[n + 1] == '<'
            && f[n + 2..] == Replace(givenNames, ' ', '<') + Fillers(39 - n - 2 - |givenNames|)
  {
  }

  lemma NameFieldRoundTrip(surname: string, givenNames: string)
    requires SingleSpaced(surname) && SingleSpaced(givenNames) && |surname| + 2 + |givenNames| <= 39
    ensures var f := NameField(surname, givenNames);
            && SeparatorIndex(f) == Some(|surname|)
            && StripFiller(f[..|surname|]) == surname
            && StripFiller(f[|surname| + 2..]) == givenNames
  {
    NameFieldParts(surname, givenNames);
    SeparatorAfterSurname(surname, NameField(surname, givenNames));
    NameRoundTrip(surname, 0);
    assert Replace(surname, ' ', '<') + Fillers(0) == Replace(surname, ' ', '<');
    NameRoundTrip(givenNames, 39 - |surname| - 2 - |givenNames|);
  }

  lemma SeparatorAfterSurname(surname: string, f: string)
    requires SingleSpaced(surname) && |surname| + 2 <= |f| && f[..|surname|] == Replace(surname, ' ', '<')
    requires f[|surname|] == '<' && f[|surname| + 1] == '<'
    ensures SeparatorIndex(f) == Some(|surname|)
  {
    var n := |surname|;
    forall i | 0 <= i < n ensures !(f[i] == '<' && f[i + 1] == '<') {
      assert f[i] == f[..n][i];
      if i + 1 < n {
        assert f[i + 1] == f[..n][i + 1];
        assert !(surname[(i + 1) - 1] == ' ' && surname[i + 1] == ' ');
      }
    }
    SeparatorIsFirst(f, n);
  }

  /** The columns of line two hold the page's fields with valid digits. */
  predicate HoldsColumns(s: string, p: Page)
    requires FitsPage(p) && |s| == LINE_LENGTH
  {
    && s[0..10] == DocumentColumns(p)
    && s[10..13] == FillTo(p.nationality, 3)
    && s[13..20] == DateColumns(p.birth)
    && s[20] == SexChar(p.sex)
    && s[21..28] == DateColumns(p.expiry)
    && Checks(CompositeInput(s), s[43])
  }

  lemma LineTwoColumns(p: Page)
    requires FitsPage(p)
    ensures HoldsColumns(EncodeLine2(p), p)
  {
    var s := EncodeLine2(p);
    assert s[21..43] == DateColumns(p.expiry) + (p.personalNumber + [p.personalCheck]);
  }

  lemma CheckedColumns(s: string, lo: nat, hi: nat, field: string)
    requires lo <= hi < |s| && AllLegal(field) && s[lo..hi + 1] == WithDigit(field)
    ensures s[lo..hi] == field && Checks(s[lo..hi], s[hi])
  {
    assert s[lo..hi] == s[lo..hi + 1][..hi - lo];
    assert s[hi] == s[lo..hi + 1][hi - lo];
  }

  lemma LineOneRoundTrip(p: Page)
    requires FitsPage(p)
    ensures LineOneAccepted(EncodeLine1(p)) && LineOneReads(EncodeLine1(p), p)
  {
    var one := EncodeLine1(p);
    assert one[2..5] == FillTo(p.issuingState, 3);
    assert one[5..44] == NameField(p.surname, p.givenNames);
    NameFieldRoundTrip(p.surname, p.givenNames);
    FillerRoundTrip(p.issuingState, 3);
  }

  lemma DateColumnsRoundTrip(line2: string, lo: nat, d: CivilDate, pivot: nat)
    requires lo + 7 <= |line2| && line2[lo..lo + 7] == DateColumns(d)
    requires DateFits(d.year, d.month, d.day) && pivot <= 99 && 1900 + pivot < d.year <= 2000 + pivot
    ensures Checks(line2[lo..lo + 6], line2[lo + 6])
    ensures ParseMrzDate(line2[lo..lo + 6], pivot) == Ok(IsoDate(d.year, d.month, d.day))
  {
    CheckedColumns(line2, lo, lo + 6, MrzDate(d.year, d.month, d.day));
    DateRoundTrip(d.year, d.month, d.day, pivot);
  }

  lemma NumberColumnsRoundTrip(p: Page, line2: string)
    requires FitsPage(p) && |line2| == LINE_LENGTH && line2[0..10] == DocumentColumns(p)
    requires line2[10..13] == FillTo(p.nationality, 3)
    ensures Checks(line2[0..9], line2[9])
    ensures RemoveFillers(line2[0..9]) == p.documentNumber
    ensures RemoveFillers(line2[10..13]) == p.nationality
  {
    FilledIsLegal(p.documentNumber, 9);
    CheckedColumns(line2, 0, 9, FillTo(p.documentNumber, 9));
    FillerRoundTrip(p.documentNumber, 9);
    FillerRoundTrip(p.nationality, 3);
  }

  /** The columns of line two parse to the given fields. */
  predicate LineTwoReads(two: string, fields: LineTwo)
    requires |two| == LINE_LENGTH
  {
    && RemoveFillers(two[0..9]) == fields.documentNumber
    && RemoveFillers(two[10..13]) == fields.nationality
    && ParseMrzDate(two[13..19], BIRTH_PIVOT) == Ok(fields.birth)
    && ParseSex(two[20]) == Ok(fields.sex)
    && ParseMrzDate(two[21..27], EXPIRY_PIVOT) == Ok(fields.expiry)
  }

  lemma ReadingOfLineTwo(two: string, fields: LineTwo)
    requires |two| == LINE_LENGTH && LineTwoAccepted(two) && LineTwoReads(two, fields)
    ensures ParseLineTwo(two) == Ok(fields)
  {
    LineTwoAcceptance(two);
  }

  function FieldsOf(p: Page): LineTwo {
    LineTwo(p.documentNumber, p.nationality, IsoDate(p.birth.year, p.birth.month, p.birth.day), p.sex,
            IsoDate(p.expiry.year, p.expiry.month, p.expiry.day))
  }

  lemma ColumnsRoundTrip(p: Page, two: string)
    requires FitsPage(p) && |two| == LINE_LENGTH && HoldsColumns(two, p)
    ensures ParseLineTwo(two) == Ok(FieldsOf(p))
  {
    NumberColumnsRoundTrip(p, two);
    DateColumnsRoundTrip(two, 13, p.birth, BIRTH_PIVOT);
    DateColumnsRoundTrip(two, 21, p.expiry, EXPIRY_PIVOT);
    ReadingOfLineTwo(two, FieldsOf(p));
  }

  lemma LineTwoRoundTrip(p: Page)
    requires FitsPage(p)
    ensures ParseLineTwo(EncodeLine2(p)) == Ok(FieldsOf(p))
  {
    LineTwoColumns(p);
    ColumnsRoundTrip(p, EncodeLine2(p));
  }

  predicate LineOneReads(one: string, p: Page)
    requires |one| == LINE_LENGTH
  {
    && RemoveFillers(one[2..5]) == p.issuingState
    && SeparatorIndex(one[5..44]) == Some(|p.surname|)
    && StripFiller(one[5..44][..|p.surname|]) == p.surname
    && StripFiller(one[5..44][|p.surname| + 2..]) == p.givenNames
  }

  function PassportOf(p: Page, one: string, two: string): Passport {
    Passport(p.documentNumber, p.surname, p.givenNames,
             if p.nationality != [] then p.nationality else p.issuingState,
             IsoDate(p.birth.year, p.birth.month, p.birth.day), p.sex,
             IsoDate(p.expiry.year, p.expiry.month, p.expiry.day), (one, two))
  }

  /** The pair is read from what its lines give. */
  lemma ReadingOf(p: Page, one: string, two: string)
    requires LineOneAccepted(one) && LineOneReads(one, p) && |two| == LINE_LENGTH
    requires ParseLineTwo(two) == Ok(FieldsOf(p))
    ensures ParseMrz(one, two) == Ok(PassportOf(p, one, two))
  {
  }

  /** Round trip: a data page that fits the two lines is read back field by field. */
  lemma MrzRoundTrip(p: Page)
    requires FitsPage(p)
    ensures ParseMrz(EncodeLine1(p), EncodeLine2(p)) == Ok(PassportOf(p, EncodeLine1(p), EncodeLine2(p)))
  {
    LineOneRoundTrip(p);
    LineTwoRoundTrip(p);
    ReadingOf(p, EncodeLine1(p), EncodeLine2(p));
  }
}
