/**
 Entity identifiers: packing a version 7 UUID (section 5.7 of RFC 9562), the driver's patched
 version 4 UUID, the canonical text of both, and the `EntityId` pattern.
 */
module EntityIds {
  import opened Bits

  const WORD_BITS: nat := 128

  // ---- text ----

  function HexDigit(d: nat): (c: char)
    requires d < 16
  {
    if d < 10 then '0' + d as char else 'a' + (d - 10) as char
  }

  predicate IsHex(c: char) {
    '0' <= c <= '9' || 'a' <= c <= 'f'
  }

  /** The `n` low-order hexadecimal digits of `v`, high-order first. */
  function HexDigits(v: nat, n: nat): (s: string)
    ensures |s| == n
    ensures forall i :: 0 <= i < n ==> IsHex(s[i])
  {
    if n == 0 then [] else HexDigits(v / 16, n - 1) + [HexDigit(v % 16)]
  }

  /** Hyphens after digits 8, 12, 16 and 20. */
  function Hyphenated(h: string): (s: string)
    requires |h| == 32
    ensures |s| == 36
  {
    h[0..8] + "-" + h[8..12] + "-" + h[12..16] + "-" + h[16..20] + "-" + h[20..32]
  }

  /** `str(uuid.UUID(int=v))`; the constructor wants 128 bits. */
  function UuidText(v: nat): (s: string)
    requires Fits(v, WORD_BITS)
    ensures |s| == 36
  {
    Hyphenated(HexDigits(v, 32))
  }

  predicate IsHyphenColumn(i: int) {
    i == 8 || i == 13 || i == 18 || i == 23
  }

  /** The `EntityId` pattern: lower-case, hyphenated, version 7, variant 8, 9, a or b. */
  predicate MatchesEntityId(s: string) {
    && |s| == 36
    && (forall i :: 0 <= i < |s| ==> if IsHyphenColumn(i) then s[i] == '-' else IsHex(s[i]))
    && s[14] == '7'
    && s[19] in "89ab"
  }

  function Version(v: nat): nat { Shr(v, 76) % 16 }

  function Variant(v: nat): nat { Shr(v, 62) % 4 }

  lemma {:induction false} HexDigitAt(v: nat, n: nat, i: nat)
    requires i < n
    ensures HexDigits(v, n)[i] == HexDigit(Shr(v, 4 * (n - 1 - i)) % 16)
  {
    if i < n - 1 {
      HexDigitAt(v / 16, n - 1, i);
      ShrCompose(v, 4, 4 * (n - 2 - i));
      ShrFour(v);
    }
  }

  lemma HyphenColumns(h: string)
    requires |h| == 32 && forall i :: 0 <= i < |h| ==> IsHex(h[i])
    ensures var s := Hyphenated(h);
            && s[14] == h[12] && s[19] == h[16]
            && forall i :: 0 <= i < |s| ==> if IsHyphenColumn(i) then s[i] == '-' else IsHex(s[i])
  {
  }

  lemma MiddleDigits(w: nat)
    ensures w / 4 % 4 == w % 16 / 4
  {
    var q, r := w / 16, w % 16;
    assert w == 4 * (4 * q + r / 4) + r % 4;
    assert w / 4 == 4 * q + r / 4;
  }

  lemma VariantInNibble(v: nat)
    ensures Variant(v) == Shr(v, 60) % 16 / 4
  {
    ShrCompose(v, 60, 2);
    ShrTwo(Shr(v, 60));
    MiddleDigits(Shr(v, 60));
  }

  /** A word's text has the entity id shape exactly when its version is 7 and its variant binary 10. */
  lemma ShapeIff(v: nat)
    requires Fits(v, WORD_BITS)
    ensures MatchesEntityId(UuidText(v)) <==> Version(v) == 7 && Variant(v) == 2
  {
    HyphenColumns(HexDigits(v, 32));
    HexDigitAt(v, 32, 12);
    HexDigitAt(v, 32, 16);
    VariantInNibble(v);
    DigitShapes(Shr(v, 76) % 16, Shr(v, 60) % 16);
  }

  lemma DigitShapes(version: nat, variant: nat)
    requires version < 16 && variant < 16
    ensures HexDigit(version) == '7' <==> version == 7
    ensures HexDigit(variant) in "89ab" <==> variant / 4 == 2
  {
  }

  // ---- order ----

  /** Strictly before in lexicographic order, deciding at position `k`. */
  predicate FirstDiffersBelow(a: string, b: string, k: nat) {
    k < |a| == |b| && a[..k] == b[..k] && a[k] < b[k]
  }

  ghost predicate TextBefore(a: string, b: string) {
    exists k: nat :: FirstDiffersBelow(a, b, k)
  }

  lemma {:induction false} DigitsOrder(u: nat, v: nat, n: nat) returns (k: nat)
    requires u < v && Fits(v, 4 * n)
    ensures FirstDiffersBelow(HexDigits(u, n), HexDigits(v, n), k)
  {
    if n > 0 {
      ShlCompose(1, 4 * (n - 1), 4);
      ShlFour(Shl(1, 4 * (n - 1)));
    }
    var a, b := HexDigits(u, n), HexDigits(v, n);
    assert a[..n - 1] == HexDigits(u / 16, n - 1) && b[..n - 1] == HexDigits(v / 16, n - 1);
    if u / 16 == v / 16 {
      k := n - 1;
    } else {
      k := DigitsOrder(u / 16, v / 16, n - 1);
      assert a[..k] == a[..n - 1][..k] && b[..k] == b[..n - 1][..k];
    }
  }

  function TextColumn(k: nat): nat {
    if k < 8 then k else if k < 12 then k + 1 else if k < 16 then k + 2 else if k < 20 then k + 3 else k + 4
  }

  lemma HyphensKeepOrder(a: string, b: string, k: nat)
    requires |a| == |b| == 32 && FirstDiffersBelow(a, b, k)
    ensures FirstDiffersBelow(Hyphenated(a), Hyphenated(b), TextColumn(k))
  {
    var s, t, c := Hyphenated(a), Hyphenated(b), TextColumn(k);
    assert s[c] == a[k] && t[c] == b[k];
    forall j | 0 <= j < c ensures s[j] == t[j] {
      if !IsHyphenColumn(j) {
        var i := j - (if j < 8 then 0 else if j < 13 then 1 else if j < 18 then 2 else if j < 23 then 3 else 4);
        assert s[j] == a[i] && t[j] == b[i];
        assert a[i] == a[..k][i] && b[i] == b[..k][i];
      }
    }
  }

  /** The numeric order of the words is the order of their texts. */
  lemma WordOrderIsTextOrder(u: nat, v: nat)
    requires u < v && Fits(v, WORD_BITS)
    ensures TextBefore(UuidText(u), UuidText(v))
  {
    var k := DigitsOrder(u, v, 32);
    HyphensKeepOrder(HexDigits(u, 32), HexDigits(v, 32), k);
  }

  // ---- uuid7 ----

  /** The 48-bit millisecond field of a clock reading. */
  function Millis(clock: nat): nat {
    And(clock, 0xFFFF_FFFF_FFFF)
  }

  /** The upper 64 bits: time, version 7, first draw. */
  function UpperHalf(ms: nat, randA: nat): nat {
    Or(Or(Shl(ms, 16), Shl(0x7, 12)), randA)
  }

  /** `uuid7` for a clock reading in milliseconds and its two random draws. */
  function Uuid7(clock: nat, randA: nat, randB: nat): nat {
    var high := UpperHalf(Millis(clock), randA);
    var low := Or(Shl(2, 62), randB);
    Or(Shl(high, 64), low)
  }

  /** `secrets.randbits(12)` and `secrets.randbits(62)`. */
  predicate Draws(randA: nat, randB: nat) {
    Fits(randA, 12) && Fits(randB, 62)
  }

  lemma MillisFit(clock: nat)
    ensures Fits(Millis(clock), 48)
  {
    ShlCompose(1, 16, 16);
    ShlCompose(1, 32, 16);
    ShlSixteen(1);
    ShlSixteen(0x1_0000);
    ShlSixteen(0x1_0000_0000);
    MaskKeepsLow(clock, 48);
  }

  /** Two neighbouring fields joined by or: `v` in the `j` bits above `k`, `a` above them. */
  lemma FieldsJoin(a: nat, v: nat, j: nat, k: nat)
    requires Fits(v, j)
    ensures Or(Shl(a, j + k), Shl(v, k)) == Shl(Shl(a, j) + v, k)
  {
    PackedFits(v, 0, k, j);
    OrPacks(a, Shl(v, k), j + k);
    ShlCompose(a, j, k);
    ShlAdds(Shl(a, j), v, k);
  }

  lemma UpperHalfIsPacked(ms: nat, randA: nat)
    requires Fits(randA, 12)
    ensures UpperHalf(ms, randA) == Shl(Shl(ms, 4) + 7, 12) + randA
  {
    ShlFour(1);
    FieldsJoin(ms, 7, 4, 12);
    OrPacks(Shl(ms, 4) + 7, randA, 12);
  }

  lemma UpperFields(high: nat, mid: nat, ms: nat, randA: nat)
    requires Fits(randA, 12) && mid == Shl(ms, 4) + 7 && high == Shl(mid, 12) + randA
    ensures Shr(high, 12) == mid
    ensures Shr(high, 16) == ms
  {
    ShrOfPacked(mid, randA, 12);
    ShrCompose(high, 12, 4);
    ShlFour(1);
    ShrOfPacked(ms, 7, 4);
  }

  lemma UpperFits(high: nat, mid: nat, ms: nat, randA: nat)
    requires Fits(randA, 12) && Fits(ms, 48) && mid == Shl(ms, 4) + 7 && high == Shl(mid, 12) + randA
    ensures Fits(high, 64)
  {
    ShlFour(1);
    PackedFits(ms, 7, 4, 48);
    PackedFits(mid, randA, 12, 52);
  }

  lemma VersionAndDraw(high: nat, mid: nat, ms: nat, randA: nat)
    requires Fits(randA, 12) && mid == Shl(ms, 4) + 7 && high == Shl(mid, 12) + randA
    ensures mid % 16 == 7 && high % 4096 == randA
  {
    ShlFour(ms);
    ShlTwelve(mid);
    ShlTwelve(1);
  }

  /** Both halves joined, with the variant between them at bits `k` and `k + 1`. */
  lemma HalvesArePacked(high: nat, randB: nat, k: nat)
    requires Fits(randB, k)
    ensures Or(Shl(high, k + 2), Or(Shl(2, k), randB)) == Shl(4 * high + 2, k) + randB
  {
    var low := Shl(2, k) + randB;
    OrPacks(2, randB, k);
    assert Shl(1, 2) == 2 * Shl(1, 1) == 4;
    PackedFits(2, randB, k, 2);
    assert k + 2 == 2 + k;
    OrPacks(high, low, k + 2);
    ShlCompose(high, 2, k);
    assert Shl(high, 2) == 2 * Shl(high, 1) == 4 * high;
    ShlAdds(4 * high, 2, k);
  }

  lemma HalvesUnpack(v: nat, high: nat, randB: nat, k: nat)
    requires Fits(randB, k) && v == Shl(4 * high + 2, k) + randB
    ensures Shr(v, k) == 4 * high + 2
    ensures Shr(v, k + 2) == high
    ensures Shr(v, k + 14) == Shr(high, 12)
    ensures Shr(v, k + 18) == Shr(high, 16)
  {
    ShrOfPacked(4 * high + 2, randB, k);
    ShrCompose(v, k, 2);
    ShrTwo(4 * high + 2);
    ShrCompose(v, k + 2, 12);
    ShrCompose(v, k + 2, 16);
  }

  lemma HalvesFit(v: nat, high: nat, randB: nat, k: nat)
    requires Fits(randB, k) && Fits(high, 64) && v == Shl(4 * high + 2, k) + randB
    ensures Fits(v, k + 66)
  {
    assert Shl(1, 66) == 2 * Shl(1, 65) == 4 * Shl(1, 64);
    PackedFits(4 * high + 2, randB, k, 66);
    assert k + 66 == 66 + k;
  }

  lemma {:induction false} PackedFits(high: nat, low: nat, k: nat, n: nat)
    requires Fits(high, n) && Fits(low, k)
    ensures Fits(Shl(high, k) + low, n + k)
  {
    if k > 0 {
      PackedFits(high, low / 2, k - 1, n);
    }
  }

  /** The fields of a 128-bit word at their places. */
  predicate Holds(v: nat, ms: nat, randA: nat, randB: nat) {
    && Shr(v, 80) == ms
    && Version(v) == 7
    && Shr(v, 64) % 4096 == randA
    && Variant(v) == 2
    && v - Shl(Shr(v, 62), 62) == randB
  }

  /** The word's fields once its parts are known. */
  lemma PartsHold(v: nat, high: nat, mid: nat, ms: nat, randA: nat, randB: nat)
    requires v == Shl(4 * high + 2, 62) + randB
    requires Shr(v, 62) == 4 * high + 2 && Shr(v, 64) == high && Shr(v, 76) == mid && Shr(v, 80) == ms
    requires mid % 16 == 7 && high % 4096 == randA
    ensures Holds(v, ms, randA, randB)
  {
    TwoAboveFours(high);
  }

  lemma TwoAboveFours(q: nat)
    ensures (4 * q + 2) % 4 == 2
  {
  }

  lemma WordHolds(v: nat, high: nat, mid: nat, ms: nat, randA: nat, randB: nat)
    requires Draws(randA, randB)
    requires mid == Shl(ms, 4) + 7 && high == Shl(mid, 12) + randA && v == Shl(4 * high + 2, 62) + randB
    ensures Holds(v, ms, randA, randB)
  {
    HalvesUnpack(v, high, randB, 62);
    UpperFields(high, mid, ms, randA);
    VersionAndDraw(high, mid, ms, randA);
    PartsHold(v, high, mid, ms, randA, randB);
  }

  lemma WordFits(v: nat, high: nat, mid: nat, ms: nat, randA: nat, randB: nat)
    requires Draws(randA, randB) && Fits(ms, 48)
    requires mid == Shl(ms, 4) + 7 && high == Shl(mid, 12) + randA && v == Shl(4 * high + 2, 62) + randB
    ensures Fits(v, WORD_BITS)
  {
    UpperFits(high, mid, ms, randA);
    HalvesFit(v, high, randB, 62);
  }

  lemma JoinedHolds(v: nat, high: nat, ms: nat, randA: nat, randB: nat)
    requires Draws(randA, randB) && Fits(ms, 48)
    requires high == UpperHalf(ms, randA) && v == Shl(4 * high + 2, 62) + randB
    ensures Fits(v, WORD_BITS) && Holds(v, ms, randA, randB)
  {
    UpperHalfIsPacked(ms, randA);
    WordHolds(v, high, Shl(ms, 4) + 7, ms, randA, randB);
    WordFits(v, high, Shl(ms, 4) + 7, ms, randA, randB);
  }

  /** Nothing is lost in the packing: time, version, variant and both draws can be read back. */
  lemma Uuid7Unpacks(clock: nat, randA: nat, randB: nat)
    requires Draws(randA, randB)
    ensures Fits(Uuid7(clock, randA, randB), WORD_BITS)
    ensures Holds(Uuid7(clock, randA, randB), Millis(clock), randA, randB)
  {
    var high := UpperHalf(Millis(clock), randA);
    MillisFit(clock);
    HalvesArePacked(high, randB, 62);
    JoinedHolds(Uuid7(clock, randA, randB), high, Millis(clock), randA, randB);
  }

  /** Every minted id has the entity id shape. */
  lemma Uuid7Shape(clock: nat, randA: nat, randB: nat)
    requires Draws(randA, randB)
    ensures Fits(Uuid7(clock, randA, randB), WORD_BITS)
    ensures MatchesEntityId(UuidText(Uuid7(clock, randA, randB)))
  {
    Uuid7Unpacks(clock, randA, randB);
    ShapeIff(Uuid7(clock, randA, randB));
  }

  /** Ids minted at different milliseconds sort by time, as numbers and as text, whatever was drawn. */
  lemma Uuid7SortsByTime(clock1: nat, a1: nat, b1: nat, clock2: nat, a2: nat, b2: nat)
    requires Draws(a1, b1) && Draws(a2, b2) && Millis(clock1) < Millis(clock2)
    ensures Fits(Uuid7(clock1, a1, b1), WORD_BITS) && Fits(Uuid7(clock2, a2, b2), WORD_BITS)
    ensures Uuid7(clock1, a1, b1) < Uuid7(clock2, a2, b2)
    ensures TextBefore(UuidText(Uuid7(clock1, a1, b1)), UuidText(Uuid7(clock2, a2, b2)))
  {
    var u, v := Uuid7(clock1, a1, b1), Uuid7(clock2, a2, b2);
    Uuid7Unpacks(clock1, a1, b1);
    Uuid7Unpacks(clock2, a2, b2);
    if u >= v {
      ShrMonotone(v, u, 80);
    }
    WordOrderIsTextOrder(u, v);
  }

  // ---- the driver's patched uuid4 ----

  /** `(a & ~(clear << k)) | (set << k)`. */
  function PatchField(a: nat, clear: nat, set_: nat, k: nat): nat {
    Or(AndNot(a, Shl(clear, k)), Shl(set_, k))
  }

  function Patched(raw: nat): nat {
    PatchField(PatchField(raw, 0xF, 0x7, 76), 0xC, 0x8, 62)
  }

  lemma PatchFieldBit(a: nat, clear: nat, set_: nat, k: nat, j: nat)
    ensures Bit(PatchField(a, clear, set_, k), j) <==>
            (j >= k && Bit(set_, j - k)) || (Bit(a, j) && !(j >= k && Bit(clear, j - k)))
  {
    BitOfAndNot(a, Shl(clear, k), j);
    BitOfOr(AndNot(a, Shl(clear, k)), Shl(set_, k), j);
    BitOfShl(clear, k, j);
    BitOfShl(set_, k, j);
  }

  lemma SmallBits(j: nat)
    ensures Bit(0xF, j) <==> j <= 3
    ensures Bit(0x7, j) <==> j <= 2
    ensures Bit(0xC, j) <==> j == 2 || j == 3
    ensures Bit(0x8, j) <==> j == 3
  {
    if j >= 4 {
      ShrCompose(0xF, 4, j - 4);
      ShrCompose(0x7, 4, j - 4);
      ShrCompose(0xC, 4, j - 4);
      ShrCompose(0x8, 4, j - 4);
      ShrFour(0xF);
      ShrFour(0x7);
      ShrFour(0xC);
      ShrFour(0x8);
      BitOfZero(j - 4);
    }
  }

  /** Digit `j` of the patched word: 0111 in bits 79 to 76, 10 in bits 65 and 64, the rest untouched. */
  lemma PatchedBit(raw: nat, j: nat)
    ensures Bit(Patched(raw), j) <==>
            if 76 <= j <= 79 then j != 79 else if 64 <= j <= 65 then j == 65 else Bit(raw, j)
  {
    PatchFieldBit(raw, 0xF, 0x7, 76, j);
    PatchFieldBit(PatchField(raw, 0xF, 0x7, 76), 0xC, 0x8, 62, j);
    if j >= 76 {
      SmallBits(j - 76);
    }
    if j >= 62 {
      SmallBits(j - 62);
    }
  }

  lemma PatchFieldFits(a: nat, clear: nat, set_: nat, k: nat)
    requires Fits(a, WORD_BITS) && set_ < 16 && k <= 124
    ensures Fits(PatchField(a, clear, set_, k), WORD_BITS)
  {
    AndNotShrinks(a, Shl(clear, k));
    FieldFits(set_, k);
    OrFits(AndNot(a, Shl(clear, k)), Shl(set_, k), WORD_BITS);
  }

  lemma FieldFits(m: nat, k: nat)
    requires m < 16 && k <= 124
    ensures Fits(Shl(m, k), WORD_BITS)
  {
    ShlFour(1);
    PackedFits(m, 0, k, 4);
    FitsWider(Shl(m, k), k + 4, WORD_BITS);
  }

  lemma {:induction false} FitsWider(a: nat, k: nat, n: nat)
    requires Fits(a, k) && k <= n
    ensures Fits(a, n)
    decreases n - k
  {
    if k < n {
      FitsWider(a, k + 1, n);
    }
  }

  /** The low two digits of a word as a number. */
  lemma PairOfBits(w: nat)
    ensures w % 4 == (if Bit(w, 0) then 1 else 0) + (if Bit(w, 1) then 2 else 0)
  {
    assert Shr(w, 1) == w / 2;
  }

  /** The low four digits of a word as a number. */
  lemma NibbleOfBits(w: nat)
    ensures w % 16 == (if Bit(w, 0) then 1 else 0) + (if Bit(w, 1) then 2 else 0)
                    + (if Bit(w, 2) then 4 else 0) + (if Bit(w, 3) then 8 else 0)
  {
    PairOfBits(w);
    ShrTwo(w);
    BitAbove(w, 2, 0);
    BitAbove(w, 2, 1);
    PairOfBits(w / 4);
    TwoPairs(w);
  }

  lemma TwoPairs(w: nat)
    ensures w % 16 == w % 4 + 4 * (w / 4 % 4)
  {
    MiddleDigits(w);
  }

  lemma BitAbove(v: nat, k: nat, j: nat)
    ensures Bit(Shr(v, k), j) <==> Bit(v, k + j)
  {
    ShrCompose(v, k, j);
  }

  lemma PatchedVersion(raw: nat)
    ensures Version(Patched(raw)) == 7
  {
    VersionBits(Patched(raw), 76);
    PatchedBit(raw, 76);
    PatchedBit(raw, 77);
    PatchedBit(raw, 78);
    PatchedBit(raw, 79);
  }

  lemma VersionBits(v: nat, k: nat)
    ensures Shr(v, k) % 16 == 7 <==> Bit(v, k) && Bit(v, k + 1) && Bit(v, k + 2) && !Bit(v, k + 3)
  {
    NibbleOfBits(Shr(v, k));
    BitAbove(v, k, 0);
    BitAbove(v, k, 1);
    BitAbove(v, k, 2);
    BitAbove(v, k, 3);
  }

  lemma VariantBits(v: nat, k: nat)
    ensures Shr(v, k) % 4 == (if Bit(v, k) then 1 else 0) + (if Bit(v, k + 1) then 2 else 0)
  {
    PairOfBits(Shr(v, k));
    BitAbove(v, k, 0);
    BitAbove(v, k, 1);
  }

  lemma PatchedVariant(raw: nat)
    ensures Variant(Patched(raw)) == Variant(raw)
  {
    VariantBits(Patched(raw), 62);
    VariantBits(raw, 62);
    PatchedBit(raw, 62);
    PatchedBit(raw, 63);
  }

  /**
   The patch sets the version but misses the variant (bits 62 and 63): the id has the entity id
   shape exactly when the input already carried variant 10, as every version 4 UUID does.
   */
  lemma NewEntityIdShapeIff(raw: nat)
    requires Fits(raw, WORD_BITS)
    ensures Fits(Patched(raw), WORD_BITS)
    ensures MatchesEntityId(UuidText(Patched(raw))) <==> Variant(raw) == 2
  {
    PatchFieldFits(raw, 0xF, 0x7, 76);
    PatchFieldFits(PatchField(raw, 0xF, 0x7, 76), 0xC, 0x8, 62);
    ShapeIff(Patched(raw));
    PatchedVersion(raw);
    PatchedVariant(raw);
  }

  /** `_new_entity_id` on the version 4 word it draws: four updates, then the text. */
  method NewEntityId(raw: nat) returns (text: string)
    requires Fits(raw, WORD_BITS)
    ensures Fits(Patched(raw), WORD_BITS) && text == UuidText(Patched(raw))
    ensures MatchesEntityId(text) <==> Variant(raw) == 2
  {
    var asInt := raw;
    asInt := AndNot(asInt, Shl(0xF, 76));
    asInt := Or(asInt, Shl(0x7, 76));
    asInt := AndNot(asInt, Shl(0xC, 62));
    asInt := Or(asInt, Shl(0x8, 62));
    assert asInt == Patched(raw);
    NewEntityIdShapeIff(raw);
    return UuidText(asInt);
  }

  predicate IsPatchedColumn(j: nat) {
    76 <= j <= 79 || 64 <= j <= 65
  }

  /** Two inputs collide exactly when they differ in patched bits only. */
  lemma PatchCollidesIff(a: nat, b: nat)
    ensures Patched(a) == Patched(b) <==> forall j: nat :: !IsPatchedColumn(j) ==> (Bit(a, j) <==> Bit(b, j))
  {
    forall j: nat ensures
      Bit(Patched(a), j) == (if IsPatchedColumn(j) then j != 79 && j != 64 else Bit(a, j))
      && Bit(Patched(b), j) == (if IsPatchedColumn(j) then j != 79 && j != 64 else Bit(b, j)) {
      PatchedBit(a, j);
      PatchedBit(b, j);
    }
    if forall j: nat :: !IsPatchedColumn(j) ==> (Bit(a, j) <==> Bit(b, j)) {
      SameBitsSameWord(Patched(a), Patched(b));
    }
  }
}
