/** The log of a batch scan: the frames the job's script prints around each image's output, the parser
    that takes them apart again, and the list of findings made from one image's output. */
module ScanLog {
  import opened Text
  import opened Sorting
  import Tags

  const BEGIN_PREFIX := "__RKE2_PATCHER_TRIVY_BEGIN__"
  const RC_PREFIX := "__RKE2_PATCHER_TRIVY_RC__"
  const END_PREFIX := "__RKE2_PATCHER_TRIVY_END__"
  const SEPARATOR := "__"

  // bufio.MaxScanTokenSize: the scanner gives up on a line as long as its buffer
  const LIMIT: nat := 65536

  /* ---- Printing ---- */

  // One image, what its scan prints, and the scanner's exit code. `tail` is what follows the last newline:
  // the script's next line is printed right behind it.
  datatype Scan = Scan(image: string, output: seq<string>, tail: string, rc: nat)

  function CodeLine(s: Scan): string {
    RC_PREFIX + (s.image + SEPARATOR + Decimal(s.rc))
  }

  function Frame(s: Scan): seq<string> {
    [BEGIN_PREFIX + s.image] + s.output + [s.tail + CodeLine(s), END_PREFIX + s.image]
  }

  // The lines the scan printed, the unfinished one included
  function Printed(s: Scan): seq<string> {
    if s.tail == "" then s.output else s.output + [s.tail]
  }

  function Log(scans: seq<Scan>): seq<string> {
    if scans == [] then [] else Log(scans[..|scans| - 1]) + Frame(scans[|scans| - 1])
  }

  // The loop of the script, for two or more images
  method PrintLog(scans: seq<Scan>) returns (log: seq<string>)
    ensures log == Log(scans)
  {
    log := [];
    for i := 0 to |scans|
      invariant log == Log(scans[..i])
    {
      assert scans[..i + 1][..i] == scans[..i];
      var image := scans[i].image;
      log := log + [BEGIN_PREFIX + image];
      log := log + scans[i].output;
      var rc := scans[i].rc;
      log := log + [scans[i].tail + (RC_PREFIX + (image + SEPARATOR + Decimal(rc)))];
      log := log + [END_PREFIX + image];
    }
    assert scans[..|scans|] == scans;
  }

  /* ---- Lines ---- */

  // What a line is to the parser
  datatype Line = Begin(image: string) | Code(image: string, rc: int) | BadCode | End(image: string) | Plain

  predicate IsMarker(line: string) {
    HasPrefix(line, BEGIN_PREFIX) || HasPrefix(line, RC_PREFIX) || HasPrefix(line, END_PREFIX)
  }

  function CodeOf(rest: string): Line {
    var separator := LastIndex(rest, SEPARATOR);
    if separator <= 0 then BadCode
    else
      match Atoi(Trim(rest[separator + |SEPARATOR|..]))
      case Some(rc) => Code(Trim(rest[..separator]), rc)
      case None => BadCode
  }

  function Classify(line: string): Line {
    if HasPrefix(line, BEGIN_PREFIX) then Begin(Trim(line[|BEGIN_PREFIX|..]))
    else if HasPrefix(line, RC_PREFIX) then CodeOf(Trim(line[|RC_PREFIX|..]))
    else if HasPrefix(line, END_PREFIX) then End(Trim(line[|END_PREFIX|..]))
    else Plain
  }

  lemma PlainIsUnmarked(line: string)
    ensures Classify(line).Plain? <==> !IsMarker(line)
  {
    hide HasPrefix;
    hide Trim;
    hide LastIndex;
    hide Atoi;
  }

  // The markers differ in their 22nd character
  lemma PrefixesDiffer()
    ensures |BEGIN_PREFIX| == 28 && |RC_PREFIX| == 25 && |END_PREFIX| == 26
    ensures BEGIN_PREFIX[21] == 'B' && RC_PREFIX[21] == 'R' && END_PREFIX[21] == 'E'
  {
  }

  lemma PrefixHolds(prefix: string, rest: string)
    ensures HasPrefix(prefix + rest, prefix) && (prefix + rest)[|prefix|..] == rest
  {
  }

  lemma OtherPrefix(prefix: string, other: string, rest: string, i: nat)
    requires i < |prefix| && i < |other| && prefix[i] != other[i]
    ensures !HasPrefix(prefix + rest, other)
  {
    var line := prefix + rest;
    assert line[i] == prefix[i];
    assert |other| <= |line| ==> line[..|other|][i] == line[i];
  }

  lemma ClassifyBegin(image: string)
    requires Trimmed(image)
    ensures Classify(BEGIN_PREFIX + image) == Begin(image)
  {
    hide *;
    PrefixHolds(BEGIN_PREFIX, image);
    TrimIsTrimmed(image);
    BeginsFirst(BEGIN_PREFIX + image);
  }

  lemma BeginsFirst(line: string)
    requires HasPrefix(line, BEGIN_PREFIX)
    ensures Classify(line) == Begin(Trim(line[|BEGIN_PREFIX|..]))
  {
  }

  lemma CodesSecond(line: string)
    requires !HasPrefix(line, BEGIN_PREFIX) && HasPrefix(line, RC_PREFIX)
    ensures Classify(line) == CodeOf(Trim(line[|RC_PREFIX|..]))
  {
    hide CodeOf;
    hide Trim;
  }

  lemma EndsThird(line: string)
    requires !HasPrefix(line, BEGIN_PREFIX) && !HasPrefix(line, RC_PREFIX) && HasPrefix(line, END_PREFIX)
    ensures Classify(line) == End(Trim(line[|END_PREFIX|..]))
  {
    hide CodeOf;
    hide Trim;
  }

  lemma ClassifyEnd(image: string)
    requires Trimmed(image)
    ensures Classify(END_PREFIX + image) == End(image)
  {
    PrefixesDiffer();
    hide *;
    PrefixHolds(END_PREFIX, image);
    OtherPrefix(END_PREFIX, BEGIN_PREFIX, image, 21);
    OtherPrefix(END_PREFIX, RC_PREFIX, image, 21);
    TrimIsTrimmed(image);
    EndsThird(END_PREFIX + image);
  }

  lemma NotLater(image: string, digits: string, at: nat)
    requires AllDigits(digits) && |image| < at
    ensures !OccursAt(image + SEPARATOR + digits, SEPARATOR, at)
  {
    var s := image + SEPARATOR + digits;
    assert |SEPARATOR| == 2 && SEPARATOR[1] == '_';
    if at + 2 <= |s| { assert s[at + 1] == digits[at - |image| - 1]; }
    assert at + 2 <= |s| ==> s[at..at + 2][1] == s[at + 1];
  }

  lemma SeparatorOccurs(image: string, digits: string)
    ensures OccursAt(image + SEPARATOR + digits, SEPARATOR, |image|)
  {
    var s := image + SEPARATOR + digits;
    assert s[|image|..|image| + |SEPARATOR|] == SEPARATOR;
  }

  // The separator printed last is found, whatever separators the image name holds
  lemma LastSeparator(image: string, digits: string)
    requires AllDigits(digits)
    ensures LastIndex(image + SEPARATOR + digits, SEPARATOR) == |image|
  {
    SeparatorIsNotEmpty();
    hide *;
    LastIndexMeans(image + SEPARATOR + digits, SEPARATOR);
    SeparatorOccurs(image, digits);
    forall at: nat | |image| < at ensures !OccursAt(image + SEPARATOR + digits, SEPARATOR, at) {
      NotLater(image, digits, at);
    }
  }

  lemma SeparatorIsNotEmpty()
    ensures SEPARATOR != []
  {
  }

  lemma CodeLineIsTrimmed(image: string, rc: nat)
    requires Trimmed(image) && image != ""
    ensures Trimmed(image + SEPARATOR + Decimal(rc))
  {
    DecimalDigits(rc);
    hide Decimal;
    var s := image + SEPARATOR + Decimal(rc);
    assert s[0] == image[0] && IsDigit(s[|s| - 1]);
  }

  lemma CodeAt(rest: string, at: nat, rc: int)
    requires LastIndex(rest, SEPARATOR) == at > 0 && at + |SEPARATOR| <= |rest|
    requires Atoi(Trim(rest[at + |SEPARATOR|..])) == Some(rc)
    ensures CodeOf(rest) == Code(Trim(rest[..at]), rc)
  {
    hide LastIndex;
    hide Trim;
    hide Atoi;
  }

  lemma Parts(image: string, digits: string)
    ensures var s := image + SEPARATOR + digits;
            |image| + |SEPARATOR| <= |s| && s[..|image|] == image && s[|image| + |SEPARATOR|..] == digits
  {
  }

  lemma CodeOfPrinted(image: string, rc: nat)
    requires Trimmed(image) && image != "" && rc <= MAX_INT
    ensures CodeOf(image + SEPARATOR + Decimal(rc)) == Code(image, rc)
  {
    hide *;
    DecimalDigits(rc);
    NumberText(rc);
    DigitsAreTrimmed(Decimal(rc));
    TrimIsTrimmed(Decimal(rc));
    TrimIsTrimmed(image);
    LastSeparator(image, Decimal(rc));
    Parts(image, Decimal(rc));
    CodeAt(image + SEPARATOR + Decimal(rc), |image|, rc);
  }

  lemma DigitsAreTrimmed(s: string)
    requires AllDigits(s)
    ensures Trimmed(s)
  {
    if s != [] { assert IsDigit(s[0]) && IsDigit(s[|s| - 1]); }
  }

  lemma ClassifyCode(image: string, rc: nat)
    requires Trimmed(image) && image != "" && rc <= MAX_INT
    ensures Classify(RC_PREFIX + (image + SEPARATOR + Decimal(rc))) == Code(image, rc)
  {
    PrefixesDiffer();
    hide *;
    var rest := image + SEPARATOR + Decimal(rc);
    PrefixHolds(RC_PREFIX, rest);
    OtherPrefix(RC_PREFIX, BEGIN_PREFIX, rest, 21);
    CodeLineIsTrimmed(image, rc);
    TrimIsTrimmed(rest);
    CodesSecond(RC_PREFIX + rest);
    CodeOfPrinted(image, rc);
  }

  /* ---- Reading ---- */

  // bufio.ScanLines drops one carriage return at the end of a line
  function DropCr(raw: string): string {
    if raw != [] && raw[|raw| - 1] == '\r' then raw[..|raw| - 1] else raw
  }

  function Dropped(lines: seq<string>): seq<string> {
    seq(|lines|, i requires 0 <= i < |lines| => DropCr(lines[i]))
  }

  // The image being read ("" for none), the lines of each image and the exit codes
  datatype Progress = Progress(current: string, chunks: map<string, seq<string>>, codes: map<string, int>)

  const START := Progress("", map[], map[])

  function LinesOf(chunks: map<string, seq<string>>, image: string): seq<string> {
    if image in chunks then chunks[image] else []
  }

  function Read(p: Progress, raw: string): Option<Progress> {
    if |raw| >= LIMIT then None else Take(p, DropCr(raw))
  }

  function Take(p: Progress, line: string): Option<Progress> {
    match Classify(line)
    case Begin(image) => Some(p.(current := image, chunks := p.chunks[image := LinesOf(p.chunks, image)]))
    case BadCode => None
    case Code(image, rc) => Some(p.(codes := p.codes[image := rc]))
    case End(image) => Some(if p.current == image then p.(current := "") else p)
    case Plain =>
      Some(if p.current != "" then p.(chunks := p.chunks[p.current := LinesOf(p.chunks, p.current) + [line]]) else p)
  }

  function ReadAll(p: Progress, lines: seq<string>): Option<Progress>
    decreases |lines|
  {
    if lines == [] then Some(p)
    else
      match Read(p, lines[0])
      case None => None
      case Some(next) => ReadAll(next, lines[1..])
  }

  lemma {:induction false} ReadSplits(p: Progress, a: seq<string>, b: seq<string>)
    ensures ReadAll(p, a + b) == match ReadAll(p, a) case None => None case Some(next) => ReadAll(next, b)
    decreases |a|
  {
    hide Read;
    if a == [] {
      assert a + b == b;
    } else {
      assert (a + b)[0] == a[0] && (a + b)[1..] == a[1..] + b;
      match Read(p, a[0])
      case None =>
      case Some(next) => ReadSplits(next, a[1..], b);
    }
  }

  // A carriage return never hides or makes a marker
  lemma DropCrKeepsMarkers(raw: string)
    ensures IsMarker(DropCr(raw)) == IsMarker(raw)
  {
    PrefixesDiffer();
    assert BEGIN_PREFIX[27] != '\r' && RC_PREFIX[24] != '\r' && END_PREFIX[25] != '\r';
    PrefixOfDropped(raw, BEGIN_PREFIX);
    PrefixOfDropped(raw, RC_PREFIX);
    PrefixOfDropped(raw, END_PREFIX);
    hide *;
    MarkerIs(raw);
    MarkerIs(DropCr(raw));
  }

  lemma MarkerIs(line: string)
    ensures IsMarker(line) <==>
            HasPrefix(line, BEGIN_PREFIX) || HasPrefix(line, RC_PREFIX) || HasPrefix(line, END_PREFIX)
  {
  }

  lemma PrefixOfDropped(raw: string, prefix: string)
    requires prefix != "" && prefix[|prefix| - 1] != '\r'
    ensures HasPrefix(DropCr(raw), prefix) == HasPrefix(raw, prefix)
  {
    var line := DropCr(raw);
    assert |prefix| <= |line| ==> line[..|prefix|] == raw[..|prefix|];
    if |prefix| == |raw| { assert raw[..|prefix|] == raw; }
  }

  lemma PlainRead(p: Progress, raw: string)
    requires p.current != "" && !IsMarker(raw) && |raw| < LIMIT
    ensures Read(p, raw) == Some(p.(chunks := p.chunks[p.current := LinesOf(p.chunks, p.current) + [DropCr(raw)]]))
  {
    hide Classify;
    DropCrKeepsMarkers(raw);
    PlainIsUnmarked(DropCr(raw));
    hide IsMarker;
  }

  lemma {:induction false} OutputReads(p: Progress, output: seq<string>)
    requires p.current != "" && p.current in p.chunks
    requires forall line | line in output :: !IsMarker(line) && |line| < LIMIT
    ensures ReadAll(p, output) == Some(p.(chunks := p.chunks[p.current := p.chunks[p.current] + Dropped(output)]))
    decreases |output|
  {
    hide IsMarker;
    hide Read;
    hide DropCr;
    if output == [] {
      assert p.chunks[p.current] + Dropped(output) == p.chunks[p.current];
      assert p.chunks[p.current := p.chunks[p.current]] == p.chunks;
    } else {
      PlainRead(p, output[0]);
      var next := p.(chunks := p.chunks[p.current := p.chunks[p.current] + [DropCr(output[0])]]);
      OutputReads(next, output[1..]);
      assert Dropped(output) == [DropCr(output[0])] + Dropped(output[1..]);
      assert next.chunks[p.current] + Dropped(output[1..]) == p.chunks[p.current] + Dropped(output);
      var all := p.chunks[p.current] + Dropped(output);
      assert next.chunks[p.current := all] == p.chunks[p.current := all];
    }
  }

  predicate Proper(s: Scan) {
    s.image != "" && Trimmed(s.image) && s.rc <= MAX_INT
  }

  // What a caller can check of a scan: no line of its output looks like a frame, its last line is
  // finished, and no line of its frame is too long for the scanner
  predicate Clean(s: Scan) {
    s.tail == "" && (forall line | line in s.output :: !IsMarker(line)) && Fits(s)
  }

  predicate Fits(s: Scan) {
    forall line | line in Frame(s) :: |line| < LIMIT
  }

  lemma FrameLines(s: Scan)
    requires Proper(s)
    ensures Classify(DropCr(BEGIN_PREFIX + s.image)) == Begin(s.image)
    ensures Classify(DropCr(CodeLine(s))) == Code(s.image, s.rc)
    ensures Classify(DropCr(END_PREFIX + s.image)) == End(s.image)
  {
    hide *;
    ProperMeans(s);
    ClassifyBegin(s.image);
    ClassifyCode(s.image, s.rc);
    ClassifyEnd(s.image);
    NoCr(BEGIN_PREFIX, s.image);
    NoCr(END_PREFIX, s.image);
    CodeLineIsTrimmed(s.image, s.rc);
    NotEmpty(s.image, Decimal(s.rc));
    NoCr(RC_PREFIX, s.image + SEPARATOR + Decimal(s.rc));
    CodeLineIs(s);
  }

  lemma CodeLineIs(s: Scan)
    ensures CodeLine(s) == RC_PREFIX + (s.image + SEPARATOR + Decimal(s.rc))
  {
    hide Decimal;
  }

  lemma ProperMeans(s: Scan)
    requires Proper(s)
    ensures s.image != "" && Trimmed(s.image) && s.rc <= MAX_INT
  {
    hide Trimmed;
  }

  lemma NotEmpty(image: string, digits: string)
    requires image != ""
    ensures image + SEPARATOR + digits != ""
  {
  }

  lemma NoCr(prefix: string, rest: string)
    requires rest != "" && Trimmed(rest)
    ensures DropCr(prefix + rest) == prefix + rest
  {
    assert IsSpace('\r');
    assert (prefix + rest)[|prefix + rest| - 1] == rest[|rest| - 1];
  }

  lemma BeginRead(p: Progress, raw: string, image: string)
    requires Classify(DropCr(raw)) == Begin(image) && image !in p.chunks && |raw| < LIMIT
    ensures Read(p, raw) == Some(p.(current := image, chunks := p.chunks[image := []]))
  {
    hide Classify;
    hide DropCr;
  }

  lemma CodeAndEndRead(p: Progress, code: string, end: string, image: string, rc: int)
    requires Classify(DropCr(code)) == Code(image, rc) && Classify(DropCr(end)) == End(image) && p.current == image
    requires |code| < LIMIT && |end| < LIMIT
    ensures ReadAll(p, [code, end]) == Some(Progress("", p.chunks, p.codes[image := rc]))
  {
    hide Classify;
    hide DropCr;
    var next := p.(codes := p.codes[image := rc]);
    assert Read(p, code) == Some(next);
    assert Read(next, end) == Some(next.(current := ""));
    hide Read;
    assert [code, end][1..] == [end] && [end][1..] == [];
    assert ReadAll(next, [end]) == ReadAll(next.(current := ""), []);
  }

  lemma FrameIs(s: Scan)
    ensures Frame(s) == [BEGIN_PREFIX + s.image] + s.output + [s.tail + CodeLine(s), END_PREFIX + s.image]
  {
    hide CodeLine;
  }

  lemma CleanMeans(s: Scan)
    requires Clean(s)
    ensures s.tail + CodeLine(s) == CodeLine(s) && Printed(s) == s.output
    ensures forall line | line in s.output :: !IsMarker(line) && |line| < LIMIT
    ensures |BEGIN_PREFIX + s.image| < LIMIT && |CodeLine(s)| < LIMIT && |END_PREFIX + s.image| < LIMIT
  {
    hide IsMarker;
    hide CodeLine;
    var f := Frame(s);
    forall i | 0 <= i < |s.output| ensures s.output[i] in f { assert f[i + 1] == s.output[i]; }
    assert f[0] == BEGIN_PREFIX + s.image && f[|f| - 2] == s.tail + CodeLine(s) && f[|f| - 1] == END_PREFIX + s.image;
  }

  // One frame, read from between two frames
  lemma FrameReads(p: Progress, s: Scan)
    requires p.current == "" && s.image !in p.chunks && Proper(s) && Clean(s)
    ensures ReadAll(p, Frame(s)) ==
            Some(Progress("", p.chunks[s.image := Dropped(Printed(s))], p.codes[s.image := s.rc]))
  {
    hide *;
    FrameLines(s);
    ProperMeans(s);
    CleanMeans(s);
    FrameIs(s);
    var begin, code, end := BEGIN_PREFIX + s.image, CodeLine(s), END_PREFIX + s.image;
    var p1 := Progress(s.image, p.chunks[s.image := []], p.codes);
    var p2 := Progress(s.image, p.chunks[s.image := Dropped(s.output)], p.codes);
    BeginRead(p, begin, s.image);
    OutputReads(p1, s.output);
    assert p1.chunks[s.image] + Dropped(s.output) == Dropped(s.output);
    assert p1.chunks[s.image := Dropped(s.output)] == p.chunks[s.image := Dropped(s.output)];
    ThreeReads(p, p1, p2, begin, s.output, code, end);
    CodeAndEndRead(p2, code, end, s.image, s.rc);
  }

  lemma ThreeReads(p: Progress, p1: Progress, p2: Progress, begin: string, output: seq<string>, code: string,
                   end: string)
    requires Read(p, begin) == Some(p1) && ReadAll(p1, output) == Some(p2)
    ensures ReadAll(p, [begin] + output + [code, end]) == ReadAll(p2, [code, end])
  {
    hide Read;
    ReadSplits(p, [begin] + output, [code, end]);
    assert ([begin] + output)[1..] == output;
  }

  /* ---- The whole log ---- */

  ghost predicate Distinct(scans: seq<Scan>) {
    forall i, j | 0 <= i < j < |scans| :: scans[i].image != scans[j].image
  }

  // What the parser made of a log is what was scanned
  ghost predicate Recovered(r: Option<Progress>, scans: seq<Scan>) {
    r.Some? &&
    forall s | s in scans ::
      s.image in r.value.chunks && r.value.chunks[s.image] == Dropped(Printed(s)) &&
      s.image in r.value.codes && r.value.codes[s.image] == s.rc
  }

  // Between frames, with the images read so far
  ghost predicate Between(p: Progress, scans: seq<Scan>) {
    p.current == "" && Recovered(Some(p), scans) &&
    forall image | image in p.chunks :: exists s | s in scans :: s.image == image
  }

  lemma OneMore(p: Progress, front: seq<Scan>, last: Scan)
    requires Between(p, front) && Distinct(front + [last])
    ensures last.image !in p.chunks
    ensures Between(Progress("", p.chunks[last.image := Dropped(Printed(last))], p.codes[last.image := last.rc]),
                    front + [last])
  {
    hide Dropped;
    var scans := front + [last];
    assert scans[|front|] == last && last in scans;
    assert forall i | 0 <= i < |front| :: scans[i] == front[i];
    forall s | s in front ensures s.image != last.image && s in scans {
      var i :| 0 <= i < |front| && front[i] == s;
      assert scans[i] == s;
    }
    forall s | s in scans ensures s == last || s in front {
    }
  }

  lemma {:induction false} LogReads(scans: seq<Scan>)
    requires Distinct(scans) && forall s | s in scans :: Proper(s) && Clean(s)
    ensures ReadAll(START, Log(scans)).Some? && Between(ReadAll(START, Log(scans)).value, scans)
    decreases |scans|
  {
    hide Read;
    hide Dropped;
    hide Proper;
    hide Clean;
    hide Frame;
    hide Printed;
    if scans == [] {
    } else {
      var front, last := scans[..|scans| - 1], scans[|scans| - 1];
      assert scans == front + [last];
      LogReads(front);
      ReadSplits(START, Log(front), Frame(last));
      OneMore(ReadAll(START, Log(front)).value, front, last);
      FrameReads(ReadAll(START, Log(front)).value, last);
    }
  }

  // No marker is ever taken for output
  ghost predicate CleanChunks(p: Progress) {
    forall image | image in p.chunks :: forall line | line in p.chunks[image] :: !IsMarker(line)
  }

  lemma {:induction false} ChunksHoldNoMarkers(p: Progress, lines: seq<string>)
    requires CleanChunks(p)
    ensures ReadAll(p, lines).Some? ==> CleanChunks(ReadAll(p, lines).value)
    decreases |lines|
  {
    if lines == [] {
    } else if Read(p, lines[0]).Some? {
      PlainIsUnmarked(DropCr(lines[0]));
      hide IsMarker;
      hide Classify;
      hide DropCr;
      assert CleanChunks(Read(p, lines[0]).value);
      ChunksHoldNoMarkers(Read(p, lines[0]).value, lines[1..]);
    }
  }

  // A log that is read has no line too long
  lemma {:induction false} ReadLinesFit(p: Progress, lines: seq<string>)
    requires ReadAll(p, lines).Some?
    ensures forall line | line in lines :: |line| < LIMIT
    decreases |lines|
  {
    if lines == [] {
    } else {
      ReadLinesFit(Read(p, lines[0]).value, lines[1..]);
      assert lines == [lines[0]] + lines[1..];
      hide Take;
      hide DropCr;
    }
  }

  // The line is no exit code of this image
  predicate NoCodeOf(image: string, line: string) {
    !(Classify(line).Code? && Classify(line).image == image)
  }

  // Codes come from lines
  lemma {:induction false} CodesComeFromLines(p: Progress, lines: seq<string>, image: string)
    requires image !in p.codes && ReadAll(p, lines).Some? &&
             forall line | line in lines :: NoCodeOf(image, DropCr(line))
    ensures image !in ReadAll(p, lines).value.codes
    decreases |lines|
  {
    hide Classify;
    hide DropCr;
    if lines == [] {
    } else {
      assert NoCodeOf(image, DropCr(lines[0]));
      CodesComeFromLines(Read(p, lines[0]).value, lines[1..], image);
    }
  }

  lemma {:induction false} LogLines(scans: seq<Scan>, line: string)
    ensures line in Log(scans) <==> exists s | s in scans :: line in Frame(s)
    decreases |scans|
  {
    hide Frame;
    if scans == [] {
    } else {
      var front, last := scans[..|scans| - 1], scans[|scans| - 1];
      assert scans == front + [last];
      LogLines(front, line);
    }
  }

  /* ---- An unfinished last line ---- */

  // The part of a code line behind the characters the prefix of a marker takes up
  lemma Remainder(tail: string, s: Scan, n: nat)
    requires |tail| < n && n - |tail| <= |RC_PREFIX|
    ensures n <= |tail + CodeLine(s)|
    ensures (tail + CodeLine(s))[n..] == RC_PREFIX[n - |tail|..] + s.image + SEPARATOR + Decimal(s.rc)
  {
    hide Decimal;
  }

  lemma NoSpaceInPrefix(i: nat)
    requires i < |RC_PREFIX|
    ensures !IsSpace(RC_PREFIX[i])
  {
    assert forall j | 0 <= j < |RC_PREFIX| :: RC_PREFIX[j] == '_' || RC_PREFIX[j] == '2' || 'A' <= RC_PREFIX[j] <= 'Z';
  }

  lemma LongerIsTrimmed(x: string, image: string)
    requires x != "" && image != "" && Trimmed(image) && !IsSpace(x[0])
    ensures Trimmed(x + image)
  {
    assert (x + image)[|x + image| - 1] == image[|image| - 1];
  }

  lemma MarkedByPrefix(line: string)
    requires Classify(line).Code?
    ensures HasPrefix(line, RC_PREFIX) && Classify(line) == CodeOf(Trim(line[|RC_PREFIX|..]))
  {
    hide CodeOf;
    hide Trim;
    hide HasPrefix;
  }

  lemma TailKeepsPrefix(tail: string, rest: string)
    requires HasPrefix(tail + rest, RC_PREFIX)
    ensures |tail| < |RC_PREFIX| || HasPrefix(tail, RC_PREFIX)
  {
    if |RC_PREFIX| <= |tail| {
      assert (tail + rest)[..|RC_PREFIX|] == tail[..|RC_PREFIX|];
    }
  }

  lemma EndsInDigit(tail: string, s: Scan)
    ensures DropCr(tail + CodeLine(s)) == tail + CodeLine(s)
  {
    DecimalDigits(s.rc);
    hide Decimal;
    var line := tail + CodeLine(s);
    assert line[|line| - 1] == Decimal(s.rc)[|Decimal(s.rc)| - 1];
    assert IsDigit(line[|line| - 1]);
  }

  // Glued to an unfinished line, a code line is no code, or one of a longer image name
  lemma GluedCode(s: Scan)
    requires Proper(s) && s.tail != "" && !IsMarker(s.tail)
    ensures var line := Classify(DropCr(s.tail + CodeLine(s))); line.Code? ==> |line.image| > |s.image|
  {
    EndsInDigit(s.tail, s);
    var line := s.tail + CodeLine(s);
    PrefixesDiffer();
    hide *;
    if Classify(line).Code? {
      MarkerIs(s.tail);
      MarkedByPrefix(line);
      TailKeepsPrefix(s.tail, CodeLine(s));
      Remainder(s.tail, s, |RC_PREFIX|);
      ProperMeans(s);
      var x := RC_PREFIX[|RC_PREFIX| - |s.tail|..];
      NoSpaceInPrefix(|RC_PREFIX| - |s.tail|);
      LongerIsTrimmed(x, s.image);
      CodeLineIsTrimmed(x + s.image, s.rc);
      TrimIsTrimmed(x + s.image + SEPARATOR + Decimal(s.rc));
      CodeOfPrinted(x + s.image, s.rc);
    }
  }

  // No line of a frame is a code of an image that is not longer than the frame's own
  lemma FrameHasNoCodeOf(s: Scan, image: string, line: string)
    requires Proper(s) && !IsMarker(s.tail) && line in Frame(s) && forall l | l in s.output :: !IsMarker(l)
    requires if s.tail == "" then s.image != image else |image| <= |s.image|
    ensures NoCodeOf(image, DropCr(line))
  {
    FrameLines(s);
    FrameIs(s);
    hide *;
    NoCodeIs(image, DropCr(line));
    FrameMembers(s, line);
    if line in s.output {
      DropCrKeepsMarkers(line);
      PlainIsUnmarked(DropCr(line));
    } else if line == s.tail + CodeLine(s) {
      if s.tail == "" {
        assert s.tail + CodeLine(s) == CodeLine(s);
      } else {
        GluedCode(s);
      }
    }
  }

  lemma NoCodeIs(image: string, line: string)
    ensures NoCodeOf(image, line) <==> !(Classify(line).Code? && Classify(line).image == image)
  {
    hide Classify;
  }

  lemma FrameMembers(s: Scan, line: string)
    requires line in Frame(s)
    ensures line == BEGIN_PREFIX + s.image || line in s.output || line == s.tail + CodeLine(s) ||
            line == END_PREFIX + s.image
  {
    hide CodeLine;
  }

  // The scan with the shortest image name among those whose last line is unfinished
  lemma {:induction false} ShortestUnfinished(scans: seq<Scan>) returns (s: Scan)
    requires exists t | t in scans :: t.tail != ""
    ensures s in scans && s.tail != ""
    ensures forall t | t in scans && t.tail != "" :: |s.image| <= |t.image|
    decreases |scans|
  {
    var front, last := scans[..|scans| - 1], scans[|scans| - 1];
    assert scans == front + [last];
    if exists t | t in front :: t.tail != "" {
      s := ShortestUnfinished(front);
      if last.tail != "" && |last.image| < |s.image| { s := last; }
    } else {
      s := last;
    }
  }

  // An unfinished line is not recovered: the code of the shortest such image is lost
  lemma UnfinishedIsLost(scans: seq<Scan>)
    requires Distinct(scans) && exists t | t in scans :: t.tail != ""
    requires forall t | t in scans :: Proper(t) && !IsMarker(t.tail) && forall l | l in t.output :: !IsMarker(l)
    ensures !Recovered(ReadAll(START, Log(scans)), scans)
  {
    hide *;
    var s := ShortestUnfinished(scans);
    var r := ReadAll(START, Log(scans));
    if r.Some? {
      forall line | line in Log(scans) ensures NoCodeOf(s.image, DropCr(line)) {
        LogLines(scans, line);
        var t :| t in scans && line in Frame(t);
        DistinctMeans(scans, s, t);
        FrameHasNoCodeOf(t, s.image, line);
      }
      StartIsEmpty(s.image);
      CodesComeFromLines(START, Log(scans), s.image);
    }
    if Recovered(r, scans) { RecoveredHas(r, scans, s); }
  }

  lemma StartIsEmpty(image: string)
    ensures image !in START.codes
  {
  }

  lemma DistinctMeans(scans: seq<Scan>, s: Scan, t: Scan)
    requires Distinct(scans) && s in scans && t in scans
    ensures s == t || s.image != t.image
  {
  }

  // What is recovered is unmarked
  lemma RecoveredIsUnmarked(scans: seq<Scan>, s: Scan, line: string)
    requires Recovered(ReadAll(START, Log(scans)), scans) && s in scans && line in Printed(s)
    ensures !IsMarker(line)
  {
    hide Log;
    hide ReadAll;
    hide IsMarker;
    hide Printed;
    hide DropCr;
    var r := ReadAll(START, Log(scans));
    ChunksHoldNoMarkers(START, Log(scans));
    var i :| 0 <= i < |Printed(s)| && Printed(s)[i] == line;
    assert Dropped(Printed(s))[i] == DropCr(line);
    assert DropCr(line) in r.value.chunks[s.image];
    DropCrKeepsMarkers(line);
  }

  lemma PrintedHolds(s: Scan)
    ensures forall l | l in s.output :: l in Printed(s)
    ensures s.tail != "" ==> s.tail in Printed(s)
  {
  }

  lemma NothingIsNoMarker()
    ensures !IsMarker("")
  {
    PrefixesDiffer();
  }

  /** The round trip: for distinct trimmed images, whatever "__" their names hold, the parser recovers
      every image's own lines and exit code exactly when no line of any output carries a marker, every
      output ends with a newline, and every line of the log is shorter than the scanner's limit. */
  lemma RecoversExactlyWhenClean(scans: seq<Scan>)
    requires Distinct(scans) && forall s | s in scans :: Proper(s)
    ensures Recovered(ReadAll(START, Log(scans)), scans) <==> forall s | s in scans :: Clean(s)
  {
    hide *;
    var r := ReadAll(START, Log(scans));
    if Recovered(r, scans) {
      NothingIsNoMarker();
      forall s | s in scans ensures !IsMarker(s.tail) && forall l | l in s.output :: !IsMarker(l) {
        PrintedHolds(s);
        if s.tail != "" { RecoveredIsUnmarked(scans, s, s.tail); }
        forall l | l in s.output ensures !IsMarker(l) { RecoveredIsUnmarked(scans, s, l); }
      }
      if exists t | t in scans :: t.tail != "" { UnfinishedIsLost(scans); }
      RecoveredIsSome(r, scans);
      ReadLinesFit(START, Log(scans));
      forall s | s in scans ensures Clean(s) {
        forall line | line in Frame(s) ensures |line| < LIMIT { LogLines(scans, line); }
        CleanIs(s);
      }
    }
    if forall s | s in scans :: Clean(s) {
      LogReads(scans);
      BetweenIsRecovered(r, scans);
    }
  }

  lemma RecoveredIsSome(r: Option<Progress>, scans: seq<Scan>)
    requires Recovered(r, scans)
    ensures r.Some?
  {
  }

  lemma BetweenIsRecovered(r: Option<Progress>, scans: seq<Scan>)
    requires r.Some? && Between(r.value, scans)
    ensures Recovered(r, scans)
  {
    hide Dropped;
    hide Printed;
  }

  lemma CleanIs(s: Scan)
    requires s.tail == "" && (forall l | l in s.output :: !IsMarker(l)) &&
             forall line | line in Frame(s) :: |line| < LIMIT
    ensures Clean(s)
  {
    hide IsMarker;
    hide Frame;
  }

  /* ---- Reports ---- */

  datatype Fault = MissingResult | ExitedWith(rc: int) | ScannerOutput(text: string) | Unparsable

  datatype Fate = Finding(cves: seq<Vulnerability>) | Faulty(fault: Fault)

  function Join(lines: seq<string>): string {
    if lines == [] then ""
    else if |lines| == 1 then lines[0]
    else Join(lines[..|lines| - 1]) + "\n" + lines[|lines| - 1]
  }

  /** The lines come back from the text made of them. */
  lemma {:induction false} JoinedLinesSplit(lines: seq<string>)
    requires lines != [] && forall line | line in lines :: '\n' !in line
    ensures Tags.Split(Join(lines), '\n') == lines
    decreases |lines|
  {
    if |lines| == 1 {
      Tags.SplitOnce(lines[0], '\n', "");
    } else {
      var front, last := lines[..|lines| - 1], lines[|lines| - 1];
      JoinedLinesSplit(front);
      SplitMore(Join(front), '\n', last);
      assert lines == front + [last];
    }
  }

  lemma {:induction false} SplitMore(s: string, c: char, last: string)
    requires c !in last
    ensures Tags.Split(s + [c] + last, c) == Tags.Split(s, c) + [last]
    decreases |s|
  {
    hide Tags.Split;
    hide Find;
    if |Tags.Split(s, c)| <= 1 {
      Tags.SplitIsOne(s, c);
      Tags.SplitOnce(s, c, last);
      Tags.SplitOnce(last, c, "");
    } else {
      Tags.SplitHead(s, c);
      var i := Find(s, c);
      var rest := s[i + 1..];
      SplitMore(rest, c, last);
      Tags.SplitOnce(s[..i], c, rest + [c] + last);
      assert s + [c] + last == s[..i] + [c] + (rest + [c] + last);
      assert Tags.Split(s, c) == [s[..i]] + Tags.Split(rest, c);
    }
  }

  // What becomes of a requested image; `decode` reads the scanner's JSON
  function FateOf(p: Progress, image: string, decode: string -> Option<seq<Vulnerability>>): Fate {
    if image !in p.codes then Faulty(MissingResult)
    else
      var raw := Trim(Join(LinesOf(p.chunks, image)));
      if p.codes[image] != 0 then Faulty(if raw == "" then ExitedWith(p.codes[image]) else ScannerOutput(raw))
      else
        match decode(raw)
        case None => Faulty(Unparsable)
        case Some(cves) => Finding(cves)
  }

  datatype Report = Report(results: map<string, seq<Vulnerability>>, errors: map<string, Fault>)

  // Each requested image is in exactly one of the two maps, with its own fate
  ghost predicate Reports(r: Report, p: Progress, images: seq<string>, decode: string -> Option<seq<Vulnerability>>) {
    (forall image :: image in r.results || image in r.errors <==> image in images) &&
    (forall image :: !(image in r.results && image in r.errors)) &&
    (forall image | image in r.results :: FateOf(p, image, decode) == Finding(r.results[image])) &&
    (forall image | image in r.errors :: FateOf(p, image, decode) == Faulty(r.errors[image]))
  }

  // The parser gives up on a line that is too long, and on a code line without a code
  predicate Unreadable(raw: string) {
    |raw| >= LIMIT || Classify(DropCr(raw)).BadCode?
  }

  lemma ReadFails(p: Progress, raw: string)
    ensures Read(p, raw).None? <==> Unreadable(raw)
  {
    hide Classify;
    hide DropCr;
  }

  /** A log is refused exactly when one of its lines cannot be read. */
  lemma {:induction false} RefusedExactly(p: Progress, log: seq<string>)
    ensures ReadAll(p, log).None? <==> exists raw | raw in log :: Unreadable(raw)
    decreases |log|
  {
    hide Read;
    hide Unreadable;
    if log == [] {
    } else {
      var next := Read(p, log[0]);
      ReadFails(p, log[0]);
      assert log == [log[0]] + log[1..];
      if next.Some? {
        RefusedExactly(next.value, log[1..]);
      } else {
        assert log[0] in log;
      }
    }
  }

  /** A code line has no code if nothing, or no separator, or no number stands behind its prefix. */
  lemma BadCodeMeans(line: string)
    ensures Classify(line).BadCode? <==>
            !HasPrefix(line, BEGIN_PREFIX) && HasPrefix(line, RC_PREFIX) &&
            var rest := Trim(line[|RC_PREFIX|..]);
            var at := LastIndex(rest, SEPARATOR);
            at <= 0 || Atoi(Trim(rest[at + |SEPARATOR|..])).None?
  {
    hide Trim;
    hide LastIndex;
    hide Atoi;
  }

  // listCVEsForImagesInCluster, from the job's log
  method ParseLog(log: seq<string>, images: seq<string>, decode: string -> Option<seq<Vulnerability>>)
    returns (r: Option<Report>)
    ensures r.Some? <==> ReadAll(START, log).Some?
    ensures r.Some? ==> Reports(r.value, ReadAll(START, log).value, images, decode)
  {
    hide Classify;
    hide DropCr;
    var currentImage := "";
    var chunksByImage: map<string, seq<string>> := map[];
    var rcByImage: map<string, int> := map[];
    for i := 0 to |log|
      invariant ReadAll(START, log) == ReadAll(Progress(currentImage, chunksByImage, rcByImage), log[i..])
    {
      assert log[i..][0] == log[i] && log[i..][1..] == log[i + 1..];
      if |log[i]| >= LIMIT {
        return None;
      }
      var line := DropCr(log[i]);
      match Classify(line) {
        case Begin(image) =>
          currentImage := image;
          chunksByImage := chunksByImage[image := LinesOf(chunksByImage, image)];
        case BadCode => return None;
        case Code(image, rc) => rcByImage := rcByImage[image := rc];
        case End(image) =>
          if currentImage == image {
            currentImage := "";
          }
        case Plain =>
          if currentImage != "" {
            chunksByImage := chunksByImage[currentImage := LinesOf(chunksByImage, currentImage) + [line]];
          }
      }
    }
    var p := Progress(currentImage, chunksByImage, rcByImage);
    var report := ReportOn(p, images, decode);
    return Some(report);
  }

  lemma ReportsMore(report: Report, p: Progress, images: seq<string>, image: string,
                    decode: string -> Option<seq<Vulnerability>>, next: Report)
    requires Reports(report, p, images, decode)
    requires match FateOf(p, image, decode)
             case Finding(cves) => next == report.(results := report.results[image := cves])
             case Faulty(fault) => next == report.(errors := report.errors[image := fault])
    ensures Reports(next, p, images + [image], decode)
  {
    hide FateOf;
    forall other ensures other in images + [image] <==> other in images || other == image { }
  }

  method ReportOn(p: Progress, images: seq<string>, decode: string -> Option<seq<Vulnerability>>)
    returns (report: Report)
    ensures Reports(report, p, images, decode)
  {
    hide Trim;
    hide Join;
    hide Reports;
    report := Report(map[], map[]);
    NothingReported(p, decode);
    for i := 0 to |images|
      invariant Reports(report, p, images[..i], decode)
    {
      assert images[..i + 1] == images[..i] + [images[i]];
      var image := images[i];
      ghost var before := report;
      if image !in p.codes {
        report := report.(errors := report.errors[image := MissingResult]);
        ReportsMore(before, p, images[..i], image, decode, report);
        continue;
      }
      var rc := p.codes[image];
      var rawOutput := Trim(Join(LinesOf(p.chunks, image)));
      if rc != 0 {
        var fault := if rawOutput == "" then ExitedWith(rc) else ScannerOutput(rawOutput);
        report := report.(errors := report.errors[image := fault]);
        ReportsMore(before, p, images[..i], image, decode, report);
        continue;
      }
      var cves := decode(rawOutput);
      if cves.None? {
        report := report.(errors := report.errors[image := Unparsable]);
        ReportsMore(before, p, images[..i], image, decode, report);
        continue;
      }
      report := report.(results := report.results[image := cves.value]);
      ReportsMore(before, p, images[..i], image, decode, report);
    }
    assert images[..|images|] == images;
  }

  lemma NothingReported(p: Progress, decode: string -> Option<seq<Vulnerability>>)
    ensures Reports(Report(map[], map[]), p, [], decode)
  {
  }

  /** Without frames, as in the log of a single image, no image has a result: the parser is for logs
      of two or more images. */
  lemma {:induction false} UnframedLogIsEmpty(p: Progress, log: seq<string>)
    requires p.current == "" && forall line | line in log :: !IsMarker(line) && |line| < LIMIT
    ensures ReadAll(p, log) == Some(p)
    decreases |log|
  {
    hide IsMarker;
    hide Classify;
    hide DropCr;
    if log == [] {
    } else {
      DropCrKeepsMarkers(log[0]);
      PlainIsUnmarked(DropCr(log[0]));
      UnframedLogIsEmpty(p, log[1..]);
    }
  }

  /** What the job prints before the first frame, downloading its data, is ignored. */
  lemma PreambleIsIgnored(preamble: seq<string>, log: seq<string>)
    requires forall line | line in preamble :: !IsMarker(line) && |line| < LIMIT
    ensures ReadAll(START, preamble + log) == ReadAll(START, log)
  {
    hide IsMarker;
    hide Read;
    UnframedLogIsEmpty(START, preamble);
    ReadSplits(START, preamble, log);
  }

  lemma FateIs(p: Progress, image: string, decode: string -> Option<seq<Vulnerability>>)
    requires image in p.codes
    ensures var raw := Trim(Join(LinesOf(p.chunks, image)));
            FateOf(p, image, decode) ==
              if p.codes[image] != 0 then Faulty(if raw == "" then ExitedWith(p.codes[image]) else ScannerOutput(raw))
              else if decode(raw).Some? then Finding(decode(raw).value)
              else Faulty(Unparsable)
  {
    hide Trim;
    hide Join;
  }

  /** What the whole pipeline reports for each image of a batch: its own findings, or its own fault. */
  lemma ReportIsOfOwnScan(scans: seq<Scan>, s: Scan, decode: string -> Option<seq<Vulnerability>>)
    requires Distinct(scans) && s in scans && forall t | t in scans :: Proper(t) && Clean(t)
    ensures ReadAll(START, Log(scans)).Some?
    ensures var raw := Trim(Join(Dropped(s.output)));
            FateOf(ReadAll(START, Log(scans)).value, s.image, decode) ==
              if s.rc != 0 then Faulty(if raw == "" then ExitedWith(s.rc) else ScannerOutput(raw))
              else if decode(raw).Some? then Finding(decode(raw).value)
              else Faulty(Unparsable)
  {
    hide *;
    RecoversExactlyWhenClean(scans);
    CleanMeans(s);
    RecoveredHas(ReadAll(START, Log(scans)), scans, s);
    FateIs(ReadAll(START, Log(scans)).value, s.image, decode);
  }

  lemma RecoveredHas(r: Option<Progress>, scans: seq<Scan>, s: Scan)
    requires Recovered(r, scans) && s in scans
    ensures r.Some? && s.image in r.value.codes && r.value.codes[s.image] == s.rc
    ensures LinesOf(r.value.chunks, s.image) == Dropped(Printed(s))
  {
    hide Dropped;
    hide Printed;
  }

  /* ---- Any log ---- */

  // What a raw line is
  function LineOf(raw: string): Line {
    Classify(DropCr(raw))
  }

  // The last begin line opened this image, and it was not closed since
  ghost predicate Inside(log: seq<string>, image: string) {
    exists i | 0 <= i < |log| :: LineOf(log[i]) == Begin(image) && StaysOpen(log, i, image)
  }

  predicate StaysOpen(log: seq<string>, i: nat, image: string) {
    forall k | i < k < |log| :: !LineOf(log[k]).Begin? && LineOf(log[k]) != End(image)
  }

  lemma InsideMore(log: seq<string>, raw: string, image: string)
    ensures Inside(log + [raw], image) <==>
            LineOf(raw) == Begin(image) || (Inside(log, image) && !LineOf(raw).Begin? && LineOf(raw) != End(image))
  {
    hide LineOf;
    var more := log + [raw];
    assert more[|log|] == raw;
    if Inside(more, image) {
      var i :| 0 <= i < |more| && LineOf(more[i]) == Begin(image) && StaysOpen(more, i, image);
      if i < |log| {
        assert forall k | i < k < |log| :: more[k] == log[k];
        assert StaysOpen(log, i, image);
      }
    }
    if LineOf(raw) == Begin(image) { assert StaysOpen(more, |log|, image); }
    if Inside(log, image) && !LineOf(raw).Begin? && LineOf(raw) != End(image) {
      var i :| 0 <= i < |log| && LineOf(log[i]) == Begin(image) && StaysOpen(log, i, image);
      assert more[i] == log[i] && StaysOpen(more, i, image);
    }
  }

  lemma ReadLast(log: seq<string>, raw: string)
    ensures ReadAll(START, log + [raw]) ==
            (if ReadAll(START, log).None? then None else Read(ReadAll(START, log).value, raw))
  {
    hide Read;
    ReadSplits(START, log, [raw]);
    if ReadAll(START, log).Some? {
      var p := ReadAll(START, log).value;
      if Read(p, raw).Some? { assert ReadAll(Read(p, raw).value, [raw][1..]) == Some(Read(p, raw).value); }
    }
  }

  lemma {:induction false} CurrentIsInside(log: seq<string>, image: string)
    requires image != "" && ReadAll(START, log).Some?
    ensures ReadAll(START, log).value.current == image <==> Inside(log, image)
    decreases |log|
  {
    hide Classify;
    hide DropCr;
    hide Inside;
    hide ReadAll;
    if log == [] {
      NothingIsInside(image);
    } else {
      var front, last := log[..|log| - 1], log[|log| - 1];
      assert log == front + [last];
      ReadLast(front, last);
      CurrentIsInside(front, image);
      InsideMore(front, last, image);
    }
  }

  lemma NothingIsInside(image: string)
    ensures !Inside([], image) && ReadAll(START, []) == Some(START)
  {
  }

  /** How any log is read, line by line: a plain line belongs to the image whose frame is open, a code line
      sets that image's code, and no other line adds anything. */
  lemma EveryLineCounts(log: seq<string>, raw: string, image: string)
    requires image != "" && ReadAll(START, log + [raw]).Some?
    ensures ReadAll(START, log).Some?
    ensures var before, after, line := ReadAll(START, log).value, ReadAll(START, log + [raw]).value, LineOf(raw);
            LinesOf(after.chunks, image) ==
              LinesOf(before.chunks, image) + (if line.Plain? && Inside(log, image) then [DropCr(raw)] else []) &&
            after.codes == if line.Code? then before.codes[line.image := line.rc] else before.codes
  {
    hide Classify;
    hide DropCr;
    hide Inside;
    hide ReadAll;
    ReadLast(log, raw);
    CurrentIsInside(log, image);
  }

  /* ---- Findings ---- */

  datatype Severity = Critical | High

  datatype Vulnerability = Vulnerability(id: string, severity: Severity)

  // A finding as a scanner prints it
  datatype RawFinding = RawFinding(id: string, severity: string)

  function SeverityOf(text: string): Option<Severity> {
    var upper := Upper(Trim(text));
    if upper == "CRITICAL" then Some(Critical) else if upper == "HIGH" then Some(High) else None
  }

  // strings.ToUpper, as far as it decides whether a text is one of the two words
  function Upper(s: string): (r: string)
    ensures |r| == |s|
  {
    seq(|s|, i requires 0 <= i < |s| => UpperChar(s[i]))
  }

  function UpperChar(c: char): char {
    if 'a' <= c <= 'z' then c - 'a' + 'A' else if c == '\U{0131}' then 'I' else c
  }

  // The finding counted, if it has an identifier and one of the two severities
  function Counted(f: RawFinding): Option<Vulnerability> {
    var id := Trim(f.id);
    match SeverityOf(f.severity)
    case Some(severity) => if id == "" then None else Some(Vulnerability(id, severity))
    case None => None
  }

  /** A finding counts if it has an identifier and is critical or high, in upper or lower case. */
  lemma CountedMeans(f: RawFinding, v: Vulnerability)
    ensures Counted(f) == Some(v) <==>
            v.id == Trim(f.id) && v.id != "" &&
            Upper(Trim(f.severity)) == (if v.severity == Critical then "CRITICAL" else "HIGH")
  {
    hide Trim;
    assert |"CRITICAL"| == 8 && |"HIGH"| == 4;
    hide Upper;
  }

  predicate Worse(a: Vulnerability, b: Vulnerability) {
    if a.severity != b.severity then a.severity == Critical else Compare(a.id, b.id) < 0
  }

  lemma WorseIsStrictOrder()
    ensures StrictOrder(Worse)
  {
    forall x, y ensures Worse(x, y) || x == y || Worse(y, x) { CompareFlips(x.id, y.id); }
    forall x, y, z | Worse(x, y) && Worse(y, z) ensures Worse(x, z) {
      if x.severity == y.severity == z.severity {
        CompareFlips(x.id, y.id);
        CompareFlips(y.id, z.id);
        CompareFlips(x.id, z.id);
        CompareChains(x.id, y.id, z.id);
      }
    }
  }

  /** In such an order no high finding precedes a critical one, and within one severity the identifiers
      ascend. */
  lemma WorstFirst(items: seq<Vulnerability>, i: nat, j: nat)
    requires Strictly(items, Worse) && i < j < |items|
    ensures items[i].severity == Critical || items[j].severity == High
    ensures items[i].severity == items[j].severity ==> Compare(items[i].id, items[j].id) < 0
  {
    assert Worse(items[i], items[j]);
  }

  // An identifier counted with a severity
  predicate CountedAs(findings: seq<RawFinding>, v: Vulnerability) {
    exists f | f in findings :: Counted(f) == Some(v)
  }

  // Each counted identifier once, with the highest of its severities
  predicate Listed(findings: seq<RawFinding>, v: Vulnerability) {
    CountedAs(findings, v) && (v.severity == High ==> !CountedAs(findings, v.(severity := Critical)))
  }

  // The set kept while visiting the findings, by identifier
  ghost predicate Keeps(found: map<string, Vulnerability>, findings: seq<RawFinding>) {
    (forall id | id in found :: found[id].id == id && Listed(findings, found[id])) &&
    (forall v: Vulnerability | CountedAs(findings, v) :: v.id in found)
  }

  lemma CountedMore(front: seq<RawFinding>, last: RawFinding, v: Vulnerability)
    ensures CountedAs(front + [last], v) <==> CountedAs(front, v) || Counted(last) == Some(v)
  {
    hide Counted;
    if CountedAs(front, v) {
      var f :| f in front && Counted(f) == Some(v);
      assert f in front + [last];
    }
    if Counted(last) == Some(v) { assert last in front + [last]; }
  }

  lemma ListedMore(front: seq<RawFinding>, last: RawFinding, v: Vulnerability)
    requires Listed(front, v) &&
             (Counted(last).Some? ==> Counted(last).value.id != v.id || Counted(last).value.severity == High)
    ensures Listed(front + [last], v)
  {
    hide Counted;
    CountedMore(front, last, v);
    CountedMore(front, last, v.(severity := Critical));
    hide CountedAs;
  }

  lemma CountedIsKept(found: map<string, Vulnerability>, front: seq<RawFinding>, last: RawFinding,
                      next: map<string, Vulnerability>)
    requires Keeps(found, front) && found.Keys <= next.Keys
    requires Counted(last).Some? ==> Counted(last).value.id in next
    ensures forall v: Vulnerability | CountedAs(front + [last], v) :: v.id in next
  {
    hide Counted;
    hide Listed;
    forall v: Vulnerability | CountedAs(front + [last], v) ensures v.id in next {
      CountedMore(front, last, v);
    }
    hide CountedAs;
  }

  // A finding that changes nothing: not counted, or not worse than what is kept
  lemma KeepsOld(found: map<string, Vulnerability>, front: seq<RawFinding>, last: RawFinding)
    requires Keeps(found, front)
    requires Counted(last).Some? ==>
               var v := Counted(last).value; v.id in found && (v.severity == High || found[v.id].severity == Critical)
    ensures Keeps(found, front + [last])
  {
    hide Counted;
    CountedIsKept(found, front, last, found);
    hide CountedAs;
    forall id | id in found ensures Listed(front + [last], found[id]) {
      if Counted(last).Some? && Counted(last).value.id == id && Counted(last).value.severity == Critical {
        CountedMore(front, last, found[id]);
      } else {
        ListedMore(front, last, found[id]);
      }
    }
    hide Listed;
  }

  // A new identifier, or a higher severity
  lemma KeepsNew(found: map<string, Vulnerability>, front: seq<RawFinding>, last: RawFinding)
    requires Keeps(found, front) && Counted(last).Some?
    requires var v := Counted(last).value; v.id !in found || (v.severity == Critical && found[v.id].severity == High)
    ensures Keeps(found[Counted(last).value.id := Counted(last).value], front + [last])
  {
    hide Counted;
    var v := Counted(last).value;
    var next := found[v.id := v];
    CountedIsKept(found, front, last, next);
    forall id | id in next ensures next[id].id == id && Listed(front + [last], next[id]) {
      if id == v.id {
        CountedMore(front, last, v);
        CountedMore(front, last, v.(severity := Critical));
        hide CountedAs;
      } else {
        ListedMore(front, last, found[id]);
      }
    }
    hide CountedAs;
    hide Listed;
  }

  // The visitor of dedupeVulnerabilities
  method Collect(findings: seq<RawFinding>) returns (found: map<string, Vulnerability>)
    ensures Keeps(found, findings)
  {
    found := map[];
    for i := 0 to |findings|
      invariant Keeps(found, findings[..i])
    {
      hide *;
      assert findings[..i + 1] == findings[..i] + [findings[i]];
      var counted := Counted(findings[i]);
      if counted.Some? &&
         (counted.value.id !in found ||
          (counted.value.severity == Critical && found[counted.value.id].severity == High))
      {
        KeepsNew(found, findings[..i], findings[i]);
        found := found[counted.value.id := counted.value];
      } else {
        KeepsOld(found, findings[..i], findings[i]);
      }
    }
    assert findings[..|findings|] == findings;
  }

  // The kept findings as a list, in whatever order the map gives them
  method Items(found: map<string, Vulnerability>) returns (items: seq<Vulnerability>)
    requires forall id | id in found :: found[id].id == id
    ensures forall v :: v in items <==> v.id in found && found[v.id] == v
    ensures forall i, j | 0 <= i < j < |items| :: items[i] != items[j]
  {
    items := [];
    var ids := found.Keys;
    while ids != {}
      invariant ids <= found.Keys
      invariant forall v :: v in items <==> v.id in found && v.id !in ids && found[v.id] == v
      invariant forall i, j | 0 <= i < j < |items| :: items[i] != items[j]
      decreases |ids|
    {
      var id :| id in ids;
      ids := ids - {id};
      items := items + [found[id]];
    }
  }

  // dedupeVulnerabilities
  method Dedupe(findings: seq<RawFinding>) returns (items: seq<Vulnerability>)
    ensures Strictly(items, Worse)
    ensures forall v :: v in items <==> Listed(findings, v)
  {
    hide Counted;
    hide CountedAs;
    hide Listed;
    var found := Collect(findings);
    KeptAreListed(found, findings);
    var unsorted := Items(found);
    hide Keeps;
    items := Sort(unsorted, Worse);
    WorseIsStrictOrder();
    SortOrders(unsorted, Worse);
    SameMembers(items, unsorted);
    SortedOnce(unsorted, items);
  }

  lemma KeptAreListed(found: map<string, Vulnerability>, findings: seq<RawFinding>)
    requires Keeps(found, findings)
    ensures forall v: Vulnerability :: (v.id in found && found[v.id] == v) <==> Listed(findings, v)
  {
    hide CountedAs;
    forall v: Vulnerability | Listed(findings, v) ensures v.id in found && found[v.id] == v {
      assert CountedAs(findings, v);
      assert Listed(findings, found[v.id]);
      assert found[v.id].severity == High ==> found[v.id].(severity := Critical) == v.(severity := Critical);
    }
  }

  lemma SortedOnce(unsorted: seq<Vulnerability>, items: seq<Vulnerability>)
    requires StrictOrder(Worse) && InOrder(items, Worse) && multiset(items) == multiset(unsorted)
    requires forall i, j | 0 <= i < j < |unsorted| :: unsorted[i] != unsorted[j]
    ensures Strictly(items, Worse)
  {
    hide Worse;
    forall i, j | 0 <= i < j < |items| ensures Worse(items[i], items[j]) {
      if items[i] == items[j] { TwiceMeansTwice(items, i, j); OnceMeansOnce(unsorted, items[i]); }
    }
  }

  lemma TwiceMeansTwice(s: seq<Vulnerability>, i: nat, j: nat)
    requires i < j < |s| && s[i] == s[j]
    ensures multiset(s)[s[i]] >= 2
  {
    assert s == s[..i] + [s[i]] + s[i + 1..j] + [s[j]] + s[j + 1..];
  }

  lemma {:induction false} OnceMeansOnce(s: seq<Vulnerability>, v: Vulnerability)
    requires forall i, j | 0 <= i < j < |s| :: s[i] != s[j]
    ensures multiset(s)[v] <= 1
    decreases |s|
  {
    if s == [] {
    } else {
      OnceMeansOnce(s[1..], v);
      assert s == [s[0]] + s[1..];
      if v == s[0] { assert v !in s[1..]; assert v !in multiset(s[1..]); }
    }
  }

  /** The list depends only on which findings were printed, not on their order or repetition. */
  lemma FindingsFixTheList(findings: seq<RawFinding>, others: seq<RawFinding>, items: seq<Vulnerability>,
                           again: seq<Vulnerability>)
    requires forall f :: f in findings <==> f in others
    requires Strictly(items, Worse) && forall v :: v in items <==> Listed(findings, v)
    requires Strictly(again, Worse) && forall v :: v in again <==> Listed(others, v)
    ensures items == again
  {
    hide Counted;
    WorseIsStrictOrder();
    forall v ensures CountedAs(findings, v) <==> CountedAs(others, v) { }
    hide CountedAs;
    forall v ensures v in items <==> v in again { }
    StrictListIsUnique(items, again, Worse);
  }
}
