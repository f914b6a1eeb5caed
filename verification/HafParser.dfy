/**
 The HAF statement parser: a line-driven loop over 200-character fixed-position records.

 `ReadLine` is what the record parsers make of one line; `Digest` gathers a whole statement
 independently of the loop; the method `ParseHaf` is the loop, proved against `Digest`.
 */
module HafParser {
  import opened Wrappers
  import opened Text
  import opened Calendar
  import opened HafRecords

  const LINE_LENGTH := 200

  /** The allow-list of IATA carrier designators. */
  type Airlines = set<string>

  datatype FieldFault = NotDigits | BadSign | NotADate | NotAnInteger | NotAnAirlineCode | UnknownAirline

  datatype FieldError = FieldError(field: string, why: FieldFault)

  datatype Fault =
    | WrongLength
    | DuplicateHeader
    | DuplicateTrailer
    | BadField(error: FieldError)

  datatype HafError = AtLine(lineNumber: nat, fault: Fault) | MissingHeader | MissingTrailer

  // ---- text to lines ----

  /** `text.replace("\r\n", "\n")`. */
  function NormaliseNewlines(s: string): string {
    if s == [] then []
    else if |s| >= 2 && s[0] == '\r' && s[1] == '\n' then ['\n'] + NormaliseNewlines(s[2..])
    else [s[0]] + NormaliseNewlines(s[1..])
  }

  /** `s.split("\n")`. */
  function SplitLines(s: string): (r: seq<string>)
    ensures |r| >= 1
  {
    if s == [] then [[]]
    else
      var rest := SplitLines(s[1..]);
      if s[0] == '\n' then [[]] + rest else [[s[0]] + rest[0]] + rest[1..]
  }

  /** The split lines without the empty one a final newline leaves behind. */
  function RawLines(text: string): seq<string> {
    DropFinalEmpty(SplitLines(NormaliseNewlines(text)))
  }

  function DropFinalEmpty(ls: seq<string>): seq<string> {
    if ls != [] && ls[|ls| - 1] == [] then ls[..|ls| - 1] else ls
  }

  /** `raw.rstrip("\r")`. */
  function StripCr(s: string): (r: string)
    ensures r <= s
    ensures r != [] ==> r[|r| - 1] != '\r'
  {
    if s != [] && s[|s| - 1] == '\r' then StripCr(s[..|s| - 1]) else s
  }

  function StripCrs(ls: seq<string>): (r: seq<string>)
    ensures |r| == |ls|
    ensures forall i :: 0 <= i < |ls| ==> r[i] == StripCr(ls[i])
  {
    seq(|ls|, i requires 0 <= i < |ls| => StripCr(ls[i]))
  }

  /** The lines the record loop looks at. */
  function Lines(text: string): seq<string> {
    StripCrs(RawLines(text))
  }

  // ---- fields ----

  function ParseCount(raw: string): Result<int, FieldError> {
    match ParseInt(Strip(raw))
    case Some(n) => Ok(n)
    case None => Err(FieldError("record_count", NotAnInteger))
  }

  predicate AirlineShaped(s: string) {
    |s| == 2 && forall i :: 0 <= i < |s| ==> IsDigit(s[i]) || 'A' <= s[i] <= 'Z'
  }

  function ParseAirline(raw: string, known: Airlines): Result<string, FieldError> {
    var code := Strip(raw);
    if !AirlineShaped(code) then Err(FieldError("airline_code", NotAnAirlineCode))
    else if code !in known then Err(FieldError("airline_code", UnknownAirline))
    else Ok(code)
  }

  function ParseDate(raw: string, field: string): (r: Result<Date, FieldError>)
    ensures r.Ok? ==> ValidDate(r.value)
  {
    var s := Strip(raw);
    if |s| != 8 || !AllDigits(s) then Err(FieldError(field, NotADate))
    else
      var d := Date(DigitsValue(s[0..4]), DigitsValue(s[4..6]), DigitsValue(s[6..8]));
      if ValidDate(d) then Ok(d) else Err(FieldError(field, NotADate))
  }

  /** Unsigned magnitude in paise plus a sign column; a blank sign column means plus. */
  function ParseAmount(magnitudeRaw: string, signRaw: string, field: string): Result<int, FieldError> {
    var magnitude := Strip(magnitudeRaw);
    var sign := Strip(signRaw);
    if !AllDigits(magnitude) then Err(FieldError(field, NotDigits))
    else if sign != "" && sign != "+" && sign != "-" then Err(FieldError(field, BadSign))
    else
      var value: int := DigitsValue(magnitude);
      Ok(if sign == "-" then -value else value)
  }

  /** `rstrip() or None`. */
  function ParseNarration(raw: string): Option<string> {
    var s := RStrip(raw);
    if s == [] then None else Some(s)
  }

  // ---- records ----

  type Line = s: string | |s| == LINE_LENGTH witness Spaces(LINE_LENGTH)

  function ParseHeader(line: Line): Result<Header, FieldError> {
    var start :- ParseDate(line[20..28], "period_start");
    var end :- ParseDate(line[28..36], "period_end");
    Ok(Header(Strip(line[5..7]), Strip(line[7..10]), Strip(line[10..20]), start, end, Strip(line[36..46])))
  }

  function ParseTicketing(line: Line, known: Airlines): Result<Record, FieldError> {
    var airline :- ParseAirline(line[19..21], known);
    var issued :- ParseDate(line[21..29], "issue_date");
    var gross :- ParseAmount(line[29..41], line[41..42], "gross");
    var commission :- ParseAmount(line[42..54], line[54..55], "commission");
    var taxes :- ParseAmount(line[55..67], line[67..68], "taxes");
    var net :- ParseAmount(line[68..80], line[80..81], "net");
    Ok(Ticketing(Strip(line[5..19]), airline, issued, gross, commission, taxes, net, ParseNarration(line[81..200])))
  }

  function ParseRefund(line: Line, known: Airlines): Result<Record, FieldError> {
    var airline :- ParseAirline(line[33..35], known);
    var issued :- ParseDate(line[35..43], "issue_date");
    var net :- ParseAmount(line[43..55], line[55..56], "net");
    Ok(Refund(Strip(line[5..19]), Strip(line[19..33]), airline, issued, net, ParseNarration(line[56..200])))
  }

  function ParseExchange(line: Line, known: Airlines): Result<Record, FieldError> {
    var airline :- ParseAirline(line[33..35], known);
    var issued :- ParseDate(line[35..43], "issue_date");
    var net :- ParseAmount(line[43..55], line[55..56], "net");
    Ok(Exchange(Strip(line[5..19]), Strip(line[19..33]), airline, issued, net, ParseNarration(line[56..200])))
  }

  function ParseMemo(line: Line, known: Airlines, isDebit: bool): Result<Record, FieldError> {
    var airline :- ParseAirline(line[19..21], known);
    var issued :- ParseDate(line[21..29], "issue_date");
    var amount :- ParseAmount(line[29..41], line[41..42], "amount");
    var memo := Strip(line[5..19]);
    var narration := ParseNarration(line[42..200]);
    Ok(if isDebit then DebitMemo(memo, airline, issued, amount, narration)
       else CreditMemo(memo, airline, issued, amount, narration))
  }

  function ParseTrailer(line: Line): Result<Trailer, FieldError> {
    var count :- ParseCount(line[5..13]);
    var net :- ParseAmount(line[13..25], line[25..26], "net_control_total");
    Ok(Trailer(count, net))
  }

  // ---- one line ----

  datatype Reading =
    | Ignored
    | HeaderRead(header: Header)
    | TransactionRead(record: Record)
    | TrailerRead(trailer: Trailer)
    | Malformed(fault: Fault)

  predicate IsTransactionCode(code: string) {
    code == "BKS24" || code == "BKS39" || code == "BKS45" || code == "BKS46" || code == "BKS47"
  }

  function ParseTransaction(line: Line, known: Airlines): Result<Record, FieldError>
    requires IsTransactionCode(line[..5])
  {
    var code := line[..5];
    if code == "BKS24" then ParseTicketing(line, known)
    else if code == "BKS39" then ParseRefund(line, known)
    else if code == "BKS45" then ParseExchange(line, known)
    else ParseMemo(line, known, code == "BKS46")
  }

  /** What one line, taken alone, contributes. Blank lines and unknown codes contribute nothing. */
  function ReadLine(line: string, known: Airlines): Reading {
    if line == [] then Ignored
    else if |line| != LINE_LENGTH then Malformed(WrongLength)
    else if line[..5] == "BFH01" then
      match ParseHeader(line) case Ok(h) => HeaderRead(h) case Err(e) => Malformed(BadField(e))
    else if line[..5] == "BFT99" then
      match ParseTrailer(line) case Ok(t) => TrailerRead(t) case Err(e) => Malformed(BadField(e))
    else if IsTransactionCode(line[..5]) then
      match ParseTransaction(line, known) case Ok(r) => TransactionRead(r) case Err(e) => Malformed(BadField(e))
    else Ignored
  }

  predicate HasCode(line: string, code: string) {
    |line| == LINE_LENGTH && line[..5] == code
  }

  // ---- a whole statement ----

  datatype Digest = Digest(headers: seq<Header>, records: seq<Record>, trailers: seq<Trailer>, clean: bool)

  const NOTHING := Digest([], [], [], true)

  function Join(a: Digest, b: Digest): Digest {
    Digest(a.headers + b.headers, a.records + b.records, a.trailers + b.trailers, a.clean && b.clean)
  }

  function DigestOf(reading: Reading): Digest {
    match reading
    case Ignored => NOTHING
    case HeaderRead(h) => NOTHING.(headers := [h])
    case TransactionRead(r) => NOTHING.(records := [r])
    case TrailerRead(t) => NOTHING.(trailers := [t])
    case Malformed(_) => NOTHING.(clean := false)
  }

  function Gather(readings: seq<Reading>): Digest {
    if readings == [] then NOTHING
    else Join(Gather(readings[..|readings| - 1]), DigestOf(readings[|readings| - 1]))
  }

  function Readings(lines: seq<string>, known: Airlines): (r: seq<Reading>)
    ensures |r| == |lines|
    ensures forall i :: 0 <= i < |lines| ==> r[i] == ReadLine(lines[i], known)
  {
    seq(|lines|, i requires 0 <= i < |lines| => ReadLine(lines[i], known))
  }

  /** Everything a statement holds, gathered without regard to the parser's loop. */
  function Summary(lines: seq<string>, known: Airlines): Digest {
    Gather(Readings(lines, known))
  }

  /** No line is malformed, and header and trailer occur exactly once each, anywhere. */
  predicate Complete(d: Digest) {
    d.clean && |d.headers| == 1 && |d.trailers| == 1
  }

  /** The loop gets through lines with this content without raising. */
  predicate Orderly(d: Digest) {
    d.clean && |d.headers| <= 1 && |d.trailers| <= 1
  }

  predicate Accepts(lines: seq<string>, known: Airlines) {
    Complete(Summary(lines, known))
  }

  function FileOf(lines: seq<string>, known: Airlines, sourceRef: string): HafFile
    requires Accepts(lines, known)
  {
    var d := Summary(lines, known);
    HafFile(d.headers[0], d.records, d.trailers[0], sourceRef)
  }

  /** Why a line that follows content `before` is refused: as a duplicate first, then for its own faults. */
  predicate Blames(fault: Fault, before: Digest, line: string, reading: Reading) {
    match fault
    case DuplicateHeader => HasCode(line, "BFH01") && before.headers != []
    case DuplicateTrailer => HasCode(line, "BFT99") && before.trailers != []
    case _ =>
      && reading == Malformed(fault)
      && !(HasCode(line, "BFH01") && before.headers != []) && !(HasCode(line, "BFT99") && before.trailers != [])
  }

  /** A reported error is the first one: what precedes the line is in order, and the line breaks that. */
  predicate Explains(e: HafError, lines: seq<string>, readings: seq<Reading>)
    requires |readings| == |lines|
  {
    match e
    case AtLine(n, fault) =>
      && 1 <= n <= |lines|
      && Orderly(Gather(readings[..n - 1]))
      && !Orderly(Gather(readings[..n]))
      && Blames(fault, Gather(readings[..n - 1]), lines[n - 1], readings[n - 1])
    case MissingHeader => Orderly(Gather(readings)) && Gather(readings).headers == []
    case MissingTrailer =>
      Orderly(Gather(readings)) && Gather(readings).headers != [] && Gather(readings).trailers == []
  }

  /** The three variables the loop carries. */
  datatype Progress = Progress(header: Option<Header>, transactions: seq<Record>, trailer: Option<Trailer>) {
    function Seen(): Digest {
      Digest(
        if header.Some? then [header.value] else [],
        transactions,
        if trailer.Some? then [trailer.value] else [],
        true)
    }
  }

  /** Only header lines read as headers, only trailer lines as trailers, and such lines read as nothing else. */
  predicate Consistent(line: string, reading: Reading) {
    && (reading.HeaderRead? ==> HasCode(line, "BFH01"))
    && (reading.TrailerRead? ==> HasCode(line, "BFT99"))
    && (HasCode(line, "BFH01") ==> reading.HeaderRead? || reading.Malformed?)
    && (HasCode(line, "BFT99") ==> reading.TrailerRead? || reading.Malformed?)
    && (reading.Malformed? ==> reading.fault.WrongLength? || reading.fault.BadField?)
  }

  lemma ReadingIsConsistent(line: string, known: Airlines)
    ensures Consistent(line, ReadLine(line, known))
  {
  }

  /** One pass through the loop body: the duplicate checks come before the record parsers. */
  method Absorb(before: Progress, line: string, reading: Reading) returns (r: Result<Progress, Fault>)
    requires Consistent(line, reading)
    ensures r.Ok? <==> Orderly(Join(before.Seen(), DigestOf(reading)))
    ensures r.Ok? ==> r.value.Seen() == Join(before.Seen(), DigestOf(reading))
    ensures r.Err? ==> Blames(r.error, before.Seen(), line, reading)
  {
    if HasCode(line, "BFH01") && before.header.Some? {
      return Err(DuplicateHeader);
    }
    if HasCode(line, "BFT99") && before.trailer.Some? {
      return Err(DuplicateTrailer);
    }
    match reading
    case Ignored => return Ok(before);
    case HeaderRead(header) => return Ok(before.(header := Some(header)));
    case TransactionRead(record) => return Ok(before.(transactions := before.transactions + [record]));
    case TrailerRead(trailer) => return Ok(before.(trailer := Some(trailer)));
    case Malformed(fault) => return Err(fault);
  }

  method AbsorbLine(before: Progress, line: string, known: Airlines) returns (r: Result<Progress, Fault>)
    ensures r.Ok? <==> Orderly(Join(before.Seen(), DigestOf(ReadLine(line, known))))
    ensures r.Ok? ==> r.value.Seen() == Join(before.Seen(), DigestOf(ReadLine(line, known)))
    ensures r.Err? ==> Blames(r.error, before.Seen(), line, ReadLine(line, known))
  {
    ReadingIsConsistent(line, known);
    r := Absorb(before, line, ReadLine(line, known));
  }

  method ParseHaf(text: string, sourceRef: string, known: Airlines) returns (r: Result<HafFile, HafError>)
    ensures r.Ok? <==> Accepts(Lines(text), known)
    ensures r.Ok? ==> r.value == FileOf(Lines(text), known, sourceRef)
    ensures r.Err? ==> Explains(r.error, Lines(text), Readings(Lines(text), known))
  {
    var rawLines := RawLines(text);
    ghost var readings := Readings(Lines(text), known);
    var state := Progress(None, [], None);
    var idx := 0;
    while idx < |rawLines|
      invariant 0 <= idx <= |rawLines| == |readings|
      invariant Orderly(state.Seen())
      invariant Gather(readings[..idx]) == state.Seen()
    {
      var line := StripCr(rawLines[idx]);
      var next := AbsorbLine(state, line, known);
      GatherStep(readings[..idx + 1], readings[..idx]);
      idx := idx + 1;
      if next.Err? {
        StopsHere(readings, idx);
        return Err(AtLine(idx, next.error));
      }
      state := next.value;
    }
    assert readings[..idx] == readings;
    if state.header.None? {
      return Err(MissingHeader);
    }
    if state.trailer.None? {
      return Err(MissingTrailer);
    }
    return Ok(HafFile(state.header.value, state.transactions, state.trailer.value, sourceRef));
  }

  lemma GatherStep(more: seq<Reading>, less: seq<Reading>)
    requires |more| == |less| + 1 && less == more[..|less|]
    ensures Gather(more) == Join(Gather(less), DigestOf(more[|less|]))
  {
  }

  /** A statement with a disorderly prefix is not complete. */
  lemma StopsHere(readings: seq<Reading>, idx: nat)
    requires idx <= |readings| && !Orderly(Gather(readings[..idx]))
    ensures !Complete(Gather(readings))
  {
    GatherConcat(readings[..idx], readings[idx..]);
    assert readings == readings[..idx] + readings[idx..];
  }

  lemma JoinIsAssociative(a: Digest, b: Digest, c: Digest)
    ensures Join(Join(a, b), c) == Join(a, Join(b, c))
  {
  }

  lemma {:induction false} GatherConcat(a: seq<Reading>, b: seq<Reading>)
    ensures Gather(a + b) == Join(Gather(a), Gather(b))
  {
    if b == [] {
      assert a + b == a;
    } else {
      var n := |b| - 1;
      GatherConcat(a, b[..n]);
      GatherStep(a + b, a + b[..n]);
      JoinIsAssociative(Gather(a), Gather(b[..n]), DigestOf(b[n]));
    }
  }

  lemma ReadingsConcat(a: seq<string>, b: seq<string>, known: Airlines)
    ensures Readings(a + b, known) == Readings(a, known) + Readings(b, known)
  {
  }

  lemma SummaryOfConcat(a: seq<string>, b: seq<string>, known: Airlines)
    ensures Summary(a + b, known) == Join(Summary(a, known), Summary(b, known))
  {
    GatherConcat(Readings(a, known), Readings(b, known));
    ReadingsConcat(a, b, known);
  }
}
