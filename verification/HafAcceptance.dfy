/** Which statements the HAF parser accepts, and what may be changed in a statement without changing the result. */
module HafAcceptance {
  import opened Text
  import opened HafParser

  // ---- acceptance, line by line ----

  predicate IsKnownCode(code: string) {
    code == "BFH01" || code == "BFT99" || IsTransactionCode(code)
  }

  /** A known code whose fields parse. */
  predicate Parses(line: Line, known: Airlines)
    requires IsKnownCode(line[..5])
  {
    if line[..5] == "BFH01" then ParseHeader(line).Ok?
    else if line[..5] == "BFT99" then ParseTrailer(line).Ok?
    else ParseTransaction(line, known).Ok?
  }

  predicate WellFormed(line: string, known: Airlines) {
    line == [] || (|line| == LINE_LENGTH && (IsKnownCode(line[..5]) ==> Parses(line, known)))
  }

  function CountCode(lines: seq<string>, code: string): nat {
    if lines == [] then 0
    else CountCode(lines[..|lines| - 1], code) + if HasCode(lines[|lines| - 1], code) then 1 else 0
  }

  lemma WellFormedIsReadable(line: string, known: Airlines)
    ensures WellFormed(line, known) <==> !ReadLine(line, known).Malformed?
    ensures WellFormed(line, known) ==>
              && (ReadLine(line, known).HeaderRead? <==> HasCode(line, "BFH01"))
              && (ReadLine(line, known).TrailerRead? <==> HasCode(line, "BFT99"))
  {
  }

  /** Readings that tell header and trailer lines apart the way their codes do. */
  predicate Faithful(lines: seq<string>, readings: seq<Reading>) {
    && |lines| == |readings|
    && (forall i :: 0 <= i < |lines| ==> (readings[i].HeaderRead? <==> HasCode(lines[i], "BFH01")))
    && (forall i :: 0 <= i < |lines| ==> (readings[i].TrailerRead? <==> HasCode(lines[i], "BFT99")))
  }

  lemma {:induction false} CleanGather(readings: seq<Reading>)
    ensures Gather(readings).clean <==> forall i :: 0 <= i < |readings| ==> !readings[i].Malformed?
  {
    if readings != [] {
      CleanGather(readings[..|readings| - 1]);
    }
  }

  lemma {:induction false} GatherCounts(lines: seq<string>, readings: seq<Reading>)
    requires Faithful(lines, readings)
    ensures |Gather(readings).headers| == CountCode(lines, "BFH01")
    ensures |Gather(readings).trailers| == CountCode(lines, "BFT99")
  {
    if lines != [] {
      GatherCounts(lines[..|lines| - 1], readings[..|lines| - 1]);
    }
  }

  lemma ReadingsByLines(lines: seq<string>, known: Airlines)
    ensures forall i :: 0 <= i < |lines| ==> (WellFormed(lines[i], known) <==> !Readings(lines, known)[i].Malformed?)
    ensures (forall i :: 0 <= i < |lines| ==> WellFormed(lines[i], known)) ==> Faithful(lines, Readings(lines, known))
  {
    forall i | 0 <= i < |lines| {
      WellFormedIsReadable(lines[i], known);
    }
  }

  /** The parser accepts exactly: every line blank or well formed, one header line, one trailer line. */
  lemma AcceptanceByLines(lines: seq<string>, known: Airlines)
    ensures Accepts(lines, known) <==>
              && (forall i :: 0 <= i < |lines| ==> WellFormed(lines[i], known))
              && CountCode(lines, "BFH01") == 1
              && CountCode(lines, "BFT99") == 1
  {
    var readings := Readings(lines, known);
    ReadingsByLines(lines, known);
    CleanGather(readings);
    if forall i :: 0 <= i < |lines| ==> WellFormed(lines[i], known) {
      GatherCounts(lines, readings);
    }
  }

  /** Blanks after a full record are not tolerated: the line is refused for its length, and with it the statement. */
  lemma TrailingBlanksAreRefused(a: seq<string>, line: string, n: nat, b: seq<string>, known: Airlines)
    requires |line| == LINE_LENGTH && n > 0
    ensures ReadLine(line + Spaces(n), known) == Malformed(WrongLength)
    ensures !Accepts(a + [line + Spaces(n)] + b, known)
  {
    var lines := a + [line + Spaces(n)] + b;
    assert lines[|a|] == line + Spaces(n);
    assert !WellFormed(lines[|a|], known);
    AcceptanceByLines(lines, known);
  }

  // ---- insensitivity to ignored lines and to the place of header and trailer ----

  lemma SummaryOfOne(line: string, known: Airlines)
    ensures Summary([line], known) == DigestOf(ReadLine(line, known))
  {
    var readings := Readings([line], known);
    GatherStep(readings, []);
  }

  /** A blank line or a line with an unknown code may be inserted anywhere. */
  lemma IgnoredLineIsInvisible(a: seq<string>, line: string, b: seq<string>, known: Airlines)
    requires ReadLine(line, known) == Ignored
    ensures Summary(a + [line] + b, known) == Summary(a + b, known)
  {
    SummaryOfConcat(a + [line], b, known);
    SummaryOfConcat(a, [line], known);
    SummaryOfConcat(a, b, known);
    SummaryOfOne(line, known);
    JoinNothing(Summary(a, known), Summary([line], known), Summary(b, known));
  }

  lemma JoinNothing(a: Digest, d: Digest, b: Digest)
    requires d == NOTHING
    ensures Join(Join(a, d), b) == Join(a, b)
  {
  }

  /** Header and trailer may stand anywhere: moving one over any block of lines leaves the parsed file unchanged. */
  lemma HeaderAndTrailerMove(a: seq<string>, line: string, b: seq<string>, c: seq<string>, known: Airlines, ref: string)
    requires ReadLine(line, known).HeaderRead? || ReadLine(line, known).TrailerRead?
    ensures Accepts(a + [line] + b + c, known) <==> Accepts(a + b + [line] + c, known)
    ensures Accepts(a + [line] + b + c, known) ==>
              FileOf(a + [line] + b + c, known, ref) == FileOf(a + b + [line] + c, known, ref)
  {
    var d := DigestOf(ReadLine(line, known));
    SummaryOfOne(line, known);
    SummaryOfConcat(a + [line] + b, c, known);
    SummaryOfConcat(a + [line], b, known);
    SummaryOfConcat(a, [line], known);
    SummaryOfConcat(a + b + [line], c, known);
    SummaryOfConcat(a + b, [line], known);
    SummaryOfConcat(a, b, known);
    MovesInDigest(Summary(a, known), d, Summary(b, known), Summary(c, known));
  }

  lemma MovesInDigest(a: Digest, d: Digest, b: Digest, c: Digest)
    requires d.records == []
    ensures var x := Join(Join(Join(a, d), b), c);
            var y := Join(Join(Join(a, b), d), c);
            && (Complete(x) <==> Complete(y))
            && (Complete(x) ==> x == y)
  {
    var x := Join(Join(Join(a, d), b), c);
    var y := Join(Join(Join(a, b), d), c);
    assert x.records == y.records;
    assert |x.headers| == |y.headers| && |x.trailers| == |y.trailers|;
    if Complete(x) {
      SingletonsCommute(a.headers, d.headers, b.headers, c.headers);
      SingletonsCommute(a.trailers, d.trailers, b.trailers, c.trailers);
    }
  }

  lemma SingletonsCommute<T>(a: seq<T>, d: seq<T>, b: seq<T>, c: seq<T>)
    requires |a + d + b + c| == 1
    ensures a + d + b + c == a + b + d + c
  {
    if |d| == 0 {
      assert d == [];
    } else {
      assert a == [] && b == [] && c == [];
    }
  }

  // ---- line terminators ----

  /** The same text with every LF preceded by a CR. */
  function ToCrLf(text: string): string {
    if text == [] then []
    else if text[0] == '\n' then ['\r', '\n'] + ToCrLf(text[1..])
    else [text[0]] + ToCrLf(text[1..])
  }

  lemma StripCrPrepend(c: char, s: string)
    ensures StripCr([c] + s) == if StripCr(s) == [] && c == '\r' then [] else [c] + StripCr(s)
  {
    if s == [] {
      assert [c] + s == [c];
      assert [c][..0] == [];
    } else {
      var n := |s| - 1;
      assert ([c] + s)[..n + 1] == [c] + s[..n];
      if s[n] == '\r' {
        StripCrPrepend(c, s[..n]);
      }
    }
  }

  /** Two splits with the same lines up to trailing CRs, and the same last line. */
  predicate SameUpToCr(x: seq<string>, y: seq<string>) {
    && |x| == |y| > 0
    && (forall i :: 0 <= i < |x| ==> StripCr(x[i]) == StripCr(y[i]))
    && x[|x| - 1] == y[|y| - 1]
  }

  lemma ExtendFirst(c: char, x: seq<string>, y: seq<string>)
    requires SameUpToCr(x, y)
    ensures SameUpToCr([[c] + x[0]] + x[1..], [[c] + y[0]] + y[1..])
  {
    StripCrPrepend(c, x[0]);
    StripCrPrepend(c, y[0]);
    var xs, ys := [[c] + x[0]] + x[1..], [[c] + y[0]] + y[1..];
    forall i | 0 <= i < |x|
      ensures StripCr(xs[i]) == StripCr(ys[i])
    {
      if i > 0 {
        assert xs[i] == x[i] && ys[i] == y[i];
      }
    }
  }

  lemma SplitCons(c: char, t: string)
    ensures SplitLines([c] + t) ==
            if c == '\n' then [[]] + SplitLines(t) else [[c] + SplitLines(t)[0]] + SplitLines(t)[1..]
  {
    assert ([c] + t)[1..] == t;
  }

  lemma SplitCrLf(t: string)
    ensures SplitLines(['\r', '\n'] + t) == [['\r']] + SplitLines(t)
  {
    var rest := [[]] + SplitLines(t);
    SplitCons('\n', t);
    SplitCons('\r', ['\n'] + t);
    assert ['\r', '\n'] + t == ['\r'] + (['\n'] + t);
    assert rest[1..] == SplitLines(t);
    assert ['\r'] + rest[0] == ['\r'];
  }

  lemma ExtendByLine(a: string, b: string, x: seq<string>, y: seq<string>)
    requires SameUpToCr(x, y) && StripCr(a) == StripCr(b)
    ensures SameUpToCr([a] + x, [b] + y)
  {
    var n, xs, ys := |x|, [a] + x, [b] + y;
    assert xs[n] == x[n - 1] && ys[n] == y[n - 1];
    forall i | 0 <= i <= n
      ensures StripCr(xs[i]) == StripCr(ys[i])
    {
      if i > 0 {
        assert xs[i] == x[i - 1] && ys[i] == y[i - 1];
      }
    }
  }

  lemma PrependChar(c: char, x: string, y: string)
    requires SameUpToCr(SplitLines(x), SplitLines(y))
    ensures SameUpToCr(SplitLines([c] + x), SplitLines([c] + y))
  {
    var xs, ys := SplitLines(x), SplitLines(y);
    SplitCons(c, x);
    SplitCons(c, y);
    if c == '\n' {
      ExtendByLine([], [], xs, ys);
    } else {
      ExtendFirst(c, xs, ys);
    }
  }

  lemma PrependCrLf(x: string, y: string)
    requires SameUpToCr(SplitLines(x), SplitLines(y))
    ensures SameUpToCr(SplitLines(['\n'] + x), SplitLines(['\r', '\n'] + y))
  {
    SplitCons('\n', x);
    SplitCrLf(y);
    StripCrPrepend('\r', []);
    assert ['\r'] + [] == ['\r'];
    ExtendByLine([], ['\r'], SplitLines(x), SplitLines(y));
  }

  /** Replacing CR LF by LF only removes trailing CRs, which the loop strips anyway. */
  lemma {:induction false} NormalisingIsStripping(s: string)
    ensures SameUpToCr(SplitLines(NormaliseNewlines(s)), SplitLines(s))
  {
    if s == [] {
    } else if |s| >= 2 && s[0] == '\r' && s[1] == '\n' {
      NormalisingIsStripping(s[2..]);
      PrependCrLf(NormaliseNewlines(s[2..]), s[2..]);
      assert s == ['\r', '\n'] + s[2..];
    } else {
      NormalisingIsStripping(s[1..]);
      PrependChar(s[0], NormaliseNewlines(s[1..]), s[1..]);
      assert s == [s[0]] + s[1..];
    }
  }

  lemma {:induction false} CrLfIsStripping(s: string)
    ensures SameUpToCr(SplitLines(s), SplitLines(ToCrLf(s)))
  {
    if s == [] {
    } else {
      CrLfIsStripping(s[1..]);
      assert s == [s[0]] + s[1..];
      if s[0] == '\n' {
        PrependCrLf(s[1..], ToCrLf(s[1..]));
      } else {
        PrependChar(s[0], s[1..], ToCrLf(s[1..]));
      }
    }
  }

  lemma DropFinalKeepsSameness(x: seq<string>, y: seq<string>)
    requires SameUpToCr(x, y)
    ensures StripCrs(DropFinalEmpty(x)) == StripCrs(DropFinalEmpty(y))
  {
  }

  /** The `\r\n` replacement is redundant: stripping CRs after a plain LF split gives the same lines. */
  lemma LinesWithoutNormalising(text: string)
    ensures Lines(text) == StripCrs(DropFinalEmpty(SplitLines(text)))
  {
    NormalisingIsStripping(text);
    DropFinalKeepsSameness(SplitLines(NormaliseNewlines(text)), SplitLines(text));
  }

  /** LF and CR LF files give the same lines with the same line numbers, hence the same file or the same error. */
  lemma LineTerminatorsDoNotMatter(text: string)
    ensures Lines(ToCrLf(text)) == Lines(text)
  {
    LinesWithoutNormalising(text);
    LinesWithoutNormalising(ToCrLf(text));
    CrLfIsStripping(text);
    DropFinalKeepsSameness(SplitLines(text), SplitLines(ToCrLf(text)));
  }
}
