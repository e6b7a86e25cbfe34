/**
 utils/check-style.py: unified diffs as patches, chunks and lines; writing them to a file, and
 `parse_patchset`. A file is a string whose lines end with a newline.
 */
module PatchSet {
  import opened Sequences

  datatype Kind = Src | Dst | Both

  datatype Line = Line(kind: Kind, text: string)

  datatype Chunk = Chunk(srcPos: int, dstPos: int, lines: seq<Line>)

  datatype Patch = Patch(src: string, dst: string, chunks: seq<Chunk>)

  // ---------------------------------------------------------------- decimal numbers

  predicate IsDigit(c: char) {
    '0' <= c <= '9'
  }

  function Digit(d: nat): char
    requires d < 10
  {
    '0' + d as char
  }

  function Decimal(n: nat): string
    decreases n
  {
    if n < 10 then [Digit(n)] else Decimal(n / 10) + [Digit(n % 10)]
  }

  /** The format %d. */
  function Signed(n: int): string {
    if n < 0 then "-" + Decimal(-n) else Decimal(n)
  }

  /** A run of digits at the start, and what follows it; the value so far is given. */
  function TakeDigits(s: string, value: nat): (nat, string)
    decreases |s|
  {
    if s == [] || !IsDigit(s[0]) then (value, s)
    else TakeDigits(s[1..], 10 * value + (s[0] - '0') as nat)
  }

  function TakeNumber(s: string): Option<(nat, string)> {
    if s == [] || !IsDigit(s[0]) then None else Some(TakeDigits(s, 0))
  }

  /** Reading on after a number that was written. */
  lemma {:induction false} TakeWritten(n: nat, rest: string)
    ensures TakeDigits(Decimal(n) + rest, 0) == TakeDigits(rest, n)
    decreases n
  {
    if n < 10 {
      TakeOne(n, rest, 0);
    } else {
      var last := [Digit(n % 10)];
      assert Decimal(n) + rest == Decimal(n / 10) + (last + rest);
      TakeWritten(n / 10, last + rest);
      TakeOne(n % 10, rest, n / 10);
    }
  }

  lemma TakeOne(d: nat, rest: string, value: nat)
    requires d < 10
    ensures TakeDigits([Digit(d)] + rest, value) == TakeDigits(rest, 10 * value + d)
  {
    assert ([Digit(d)] + rest)[1..] == rest;
  }

  lemma {:induction false} DecimalStartsWithDigit(n: nat)
    ensures Decimal(n) != [] && IsDigit(Decimal(n)[0])
    decreases n
  {
    if n >= 10 {
      DecimalStartsWithDigit(n / 10);
    }
  }

  lemma TakeDecimal(n: nat, rest: string)
    requires rest != [] && !IsDigit(rest[0])
    ensures TakeNumber(Decimal(n) + rest) == Some((n, rest))
  {
    DecimalStartsWithDigit(n);
    TakeWritten(n, rest);
  }

  // ---------------------------------------------------------------- lines of a diff

  function Expect(word: string, s: string): Option<string> {
    if word <= s then Some(s[|word|..]) else None
  }

  function MatchHeaderEnd(s: string): Option<(nat, nat, nat)> {
    var s :- Expect(",", s);
    var (b, s) :- TakeNumber(s);
    var s :- Expect(" +", s);
    var (c, s) :- TakeNumber(s);
    var s :- Expect(",", s);
    var (d, s) :- TakeNumber(s);
    var _ :- Expect(" @@", s);
    Some((b, c, d))
  }

  /** @@ -1,2 +3,4 @@ */
  function MatchHeader(s: string): Option<(nat, nat, nat, nat)> {
    var s :- Expect("@@ -", s);
    var (a, s) :- TakeNumber(s);
    var (b, c, d) :- MatchHeaderEnd(s);
    Some((a, b, c, d))
  }

  datatype Reading = FromName(name: string) | ToName(name: string) | Start(srcPos: nat, dstPos: nat) | Content(line: Line) | Junk

  /** The patterns of the parser, in the order they are tried. */
  function Read(s: string): Reading {
    if "--- " <= s then FromName(s[4..])
    else if "+++ " <= s then ToName(s[4..])
    else
      var m := MatchHeader(s);
      if m.Some? then Start(m.value.0, m.value.2)
      else if s == [] then Junk
      else if s[0] == '-' then Content(Line(Src, s[1..]))
      else if s[0] == '+' then Content(Line(Dst, s[1..]))
      else if s[0] == ' ' then Content(Line(Both, s[1..]))
      else Junk
  }

  function KindMark(k: Kind): char {
    match k
    case Src => '-'
    case Dst => '+'
    case Both => ' '
  }

  function LineText(l: Line): string {
    [KindMark(l.kind)] + l.text
  }

  /** The lines of a chunk that are in one of the files: those not only in the other. */
  function Without(lines: seq<Line>, kind: Kind): seq<Line> {
    if lines == [] then [] else (if lines[0].kind == kind then [] else [lines[0]]) + Without(lines[1..], kind)
  }

  function SrcLen(lines: seq<Line>): nat {
    |Without(lines, Dst)|
  }

  function DstLen(lines: seq<Line>): nat {
    |Without(lines, Src)|
  }

  /** The end of a header, from the second number on. */
  function HeaderEnd(srcLen: nat, dstPos: int, dstLen: nat): string {
    "," + (Decimal(srcLen) + (" +" + (Signed(dstPos) + ("," + (Decimal(dstLen) + " @@")))))
  }

  function Header(c: Chunk): string {
    "@@ -" + (Signed(c.srcPos) + HeaderEnd(SrcLen(c.lines), c.dstPos, DstLen(c.lines)))
  }

  lemma ExpectWritten(word: string, rest: string)
    ensures Expect(word, word + rest) == Some(rest)
  {
  }

  lemma TakeSigned(n: int, rest: string)
    requires rest != [] && !IsDigit(rest[0])
    ensures TakeNumber(Signed(n) + rest) == if n >= 0 then Some((n, rest)) else None
  {
    if n >= 0 {
      TakeDecimal(n, rest);
    } else {
      assert (Signed(n) + rest)[0] == '-';
    }
  }

  lemma EndComesBack(srcLen: nat, dstPos: int, dstLen: nat)
    ensures MatchHeaderEnd(HeaderEnd(srcLen, dstPos, dstLen))
         == if dstPos >= 0 then Some((srcLen, dstPos, dstLen)) else None
  {
    var s5 := Decimal(dstLen) + " @@";
    var s4 := "," + s5;
    var s3 := Signed(dstPos) + s4;
    var s2 := " +" + s3;
    var s1 := Decimal(srcLen) + s2;
    ExpectWritten(",", s1);
    TakeDecimal(srcLen, s2);
    ExpectWritten(" +", s3);
    TakeSigned(dstPos, s4);
    ExpectWritten(",", s5);
    TakeDecimal(dstLen, " @@");
    ExpectWritten(" @@", "");
    assert " @@" + "" == " @@";
  }

  /** The four numbers of a header come back exactly when the positions are not negative. */
  lemma HeaderComesBack(c: Chunk)
    ensures MatchHeader(Header(c))
         == if c.srcPos >= 0 && c.dstPos >= 0 then Some((c.srcPos, SrcLen(c.lines), c.dstPos, DstLen(c.lines))) else None
  {
    var end := HeaderEnd(SrcLen(c.lines), c.dstPos, DstLen(c.lines));
    ExpectWritten("@@ -", Signed(c.srcPos) + end);
    TakeSigned(c.srcPos, end);
    EndComesBack(SrcLen(c.lines), c.dstPos, DstLen(c.lines));
  }

  // ---------------------------------------------------------------- writing

  function Texts(lines: seq<Line>): seq<string> {
    if lines == [] then [] else [LineText(lines[0])] + Texts(lines[1..])
  }

  function OneChunk(c: Chunk): seq<string> {
    [Header(c)] + Texts(c.lines)
  }

  function ChunkLines(chunks: seq<Chunk>): seq<string> {
    if chunks == [] then [] else OneChunk(chunks[0]) + ChunkLines(chunks[1..])
  }

  function OnePatch(p: Patch): seq<string> {
    ["--- " + p.src, "+++ " + p.dst] + ChunkLines(p.chunks)
  }

  function PatchLines(patches: seq<Patch>): seq<string> {
    if patches == [] then []
    else OnePatch(patches[0]) + PatchLines(patches[1..])
  }

  /** Every line ends with a newline. */
  function Join(lines: seq<string>): string {
    if lines == [] then "" else lines[0] + "\n" + Join(lines[1..])
  }

  function WriteFile(patches: seq<Patch>): string {
    Join(PatchLines(patches))
  }

  // ---------------------------------------------------------------- parsing

  function FirstNewline(s: string): (i: nat)
    ensures i <= |s| && (i < |s| ==> s[i] == '\n')
    ensures forall j :: 0 <= j < i ==> s[j] != '\n'
  {
    if s == [] || s[0] == '\n' then 0
    else
      var i := FirstNewline(s[1..]);
      assert forall j :: 1 <= j < i + 1 ==> s[j] == s[1..][j - 1];
      i + 1
  }

  /** The lines of a file, without their newlines; the last one may lack it. */
  function Split(file: string): seq<string>
    decreases |file|
  {
    if file == [] then []
    else
      var i := FirstNewline(file);
      if i == |file| then [file] else [file[..i]] + Split(file[i + 1..])
  }

  /** The patches so far, the last being the current one, and which of them the current chunk is in. */
  datatype Parser = At(patches: seq<Patch>, holder: Option<nat>) | Raised

  predicate ParserOk(p: Parser) {
    p.At? && p.holder.Some? ==> p.holder.value < |p.patches| && p.patches[p.holder.value].chunks != []
  }

  function AddLine(p: Patch, l: Line): Patch
    requires p.chunks != []
  {
    var last := p.chunks[|p.chunks| - 1];
    p.(chunks := p.chunks[..|p.chunks| - 1] + [last.(lines := last.lines + [l])])
  }

  function SetLast(patches: seq<Patch>, p: Patch): seq<Patch>
    requires patches != []
  {
    patches[..|patches| - 1] + [p]
  }

  /** Names and chunks go to the current patch, lines to the current chunk, which may be an earlier patch's. */
  function Feed(p: Parser, s: string): (q: Parser)
    requires ParserOk(p)
    ensures ParserOk(q)
  {
    if p.Raised? then Raised
    else
      match Read(s)
      case FromName(name) => p.(patches := p.patches + [Patch(name, "", [])])
      case ToName(name) =>
        if p.patches == [] then Raised
        else p.(patches := SetLast(p.patches, p.patches[|p.patches| - 1].(dst := name)))
      case Start(a, b) =>
        if p.patches == [] then Raised
        else
          var last := p.patches[|p.patches| - 1];
          At(SetLast(p.patches, last.(chunks := last.chunks + [Chunk(a, b, [])])), Some(|p.patches| - 1))
      case Content(l) =>
        if p.holder.None? then Raised
        else p.(patches := p.patches[p.holder.value := AddLine(p.patches[p.holder.value], l)])
      case Junk => Raised
  }

  function FeedAll(p: Parser, lines: seq<string>): (q: Parser)
    requires ParserOk(p)
    ensures ParserOk(q)
    decreases |lines|
  {
    if lines == [] then p else FeedAll(Feed(p, lines[0]), lines[1..])
  }

  const START := At([], None)

  function Parse(lines: seq<string>): Option<seq<Patch>> {
    var p := FeedAll(START, lines);
    if p.Raised? then None else Some(p.patches)
  }

  function ParseFile(file: string): Option<seq<Patch>> {
    Parse(Split(file))
  }

  lemma {:induction false} FeedConcat(p: Parser, a: seq<string>, b: seq<string>)
    requires ParserOk(p)
    ensures FeedAll(p, a + b) == FeedAll(FeedAll(p, a), b)
    decreases |a|
  {
    if a == [] {
      assert a + b == b;
    } else {
      assert (a + b)[0] == a[0] && (a + b)[1..] == a[1..] + b;
      FeedConcat(Feed(p, a[0]), a[1..], b);
    }
  }

  // ---------------------------------------------------------------- when parsing fails

  predicate NamesPatch(line: string) { Read(line).FromName? }

  predicate StartsChunk(line: string) { Read(line).Start? }

  /** The line fits no pattern, or names a file or starts a chunk before any patch, or is content before any chunk. */
  ghost predicate FailsAt(lines: seq<string>, i: nat)
    requires i < |lines|
  {
    match Read(lines[i])
    case FromName(_) => false
    case ToName(_) => forall j :: 0 <= j < i ==> !NamesPatch(lines[j])
    case Start(_, _) => forall j :: 0 <= j < i ==> !NamesPatch(lines[j])
    case Content(_) => forall j :: 0 <= j < i ==> !StartsChunk(lines[j])
    case Junk => true
  }

  ghost predicate SomeLineFails(lines: seq<string>) {
    exists i: nat :: i < |lines| && FailsAt(lines, i)
  }

  ghost predicate IsLastStart(lines: seq<string>, i: nat) {
    && i < |lines| && StartsChunk(lines[i])
    && forall j :: i < j < |lines| ==> !StartsChunk(lines[j])
  }

  /** Names and chunks seen so far: a line goes to the patch that was current when the last chunk started. */
  ghost predicate HasSeen(p: Parser, lines: seq<string>)
    requires p.At?
  {
    && |p.patches| == |Positions(lines, NamesPatch)|
    && (p.holder.None? ==> forall i :: 0 <= i < |lines| ==> !StartsChunk(lines[i]))
    && (p.holder.Some? ==> exists i: nat :: IsLastStart(lines, i) && p.holder.value + 1 == |Positions(lines[..i], NamesPatch)|)
  }

  lemma NoPositions<T>(s: seq<T>, kind: T -> bool)
    ensures |Positions(s, kind)| == 0 <==> forall i :: 0 <= i < |s| ==> !kind(s[i])
  {
    if i :| 0 <= i < |s| && kind(s[i]) {
      assert i in Positions(s, kind);
    }
    if forall i :: 0 <= i < |s| ==> !kind(s[i]) {
      assert Positions(s, kind) == {};
    }
  }

  lemma FailsAtPrefix(lines: seq<string>, line: string, i: nat)
    requires i < |lines|
    ensures FailsAt(lines + [line], i) <==> FailsAt(lines, i)
  {
    assert forall j :: 0 <= j <= i ==> (lines + [line])[j] == lines[j];
  }

  lemma FailsNext(lines: seq<string>, line: string)
    ensures SomeLineFails(lines + [line]) <==> SomeLineFails(lines) || FailsAt(lines + [line], |lines|)
  {
    if i: nat :| i < |lines| && FailsAt(lines, i) {
      FailsAtPrefix(lines, line, i);
    }
    if i: nat :| i < |lines + [line]| && FailsAt(lines + [line], i) {
      if i < |lines| {
        FailsAtPrefix(lines, line, i);
      }
    }
  }

  /** The next line raises exactly when it fails after those before it. */
  lemma RaisesNext(p: Parser, lines: seq<string>, line: string)
    requires ParserOk(p) && p.At? && HasSeen(p, lines)
    ensures Feed(p, line).Raised? <==> FailsAt(lines + [line], |lines|)
  {
    assert forall j :: 0 <= j < |lines| ==> (lines + [line])[j] == lines[j];
    NoPositions(lines, NamesPatch);
  }

  lemma StartsNext(p: Parser, q: Parser, lines: seq<string>, line: string)
    requires p.At? && q.At? && HasSeen(p, lines) && |q.patches| == |Positions(lines + [line], NamesPatch)|
    requires if StartsChunk(line) then p.patches != [] && q.holder == Some(|p.patches| - 1) else q.holder == p.holder
    ensures HasSeen(q, lines + [line])
  {
    var all := lines + [line];
    assert forall j :: 0 <= j < |lines| ==> all[j] == lines[j];
    if StartsChunk(line) {
      assert all[..|lines|] == lines;
      assert IsLastStart(all, |lines|);
    } else if p.holder.Some? {
      var i: nat :| IsLastStart(lines, i) && p.holder.value + 1 == |Positions(lines[..i], NamesPatch)|;
      assert all[..i] == lines[..i];
      assert IsLastStart(all, i);
    }
  }

  lemma SeenNext(p: Parser, lines: seq<string>, line: string)
    requires ParserOk(p) && p.At? && HasSeen(p, lines) && Feed(p, line).At?
    ensures HasSeen(Feed(p, line), lines + [line])
  {
    PositionsAppend(lines, line, NamesPatch);
    StartsNext(p, Feed(p, line), lines, line);
  }

  /** Parsing fails exactly when some line does; what it has read tells the patches named and the chunk being filled. */
  lemma {:induction false} FeedAllHasSeen(lines: seq<string>)
    ensures var p := FeedAll(START, lines);
            if p.Raised? then SomeLineFails(lines) else !SomeLineFails(lines) && HasSeen(p, lines)
    decreases |lines|
  {
    if lines == [] {
      NoPositions(lines, NamesPatch);
    } else {
      var front, line := lines[..|lines| - 1], lines[|lines| - 1];
      var p := FeedAll(START, front);
      FeedAllHasSeen(front);
      LastOf(lines);
      FeedConcat(START, front, [line]);
      FeedOnly(p, line);
      FailsNext(front, line);
      if p.At? {
        RaisesNext(p, front, line);
        if Feed(p, line).At? {
          SeenNext(p, front, line);
        }
      }
    }
  }

  lemma FeedOnly(p: Parser, line: string)
    requires ParserOk(p)
    ensures FeedAll(p, [line]) == Feed(p, line)
  {
  }

  /** An exception is raised exactly when some line fails. */
  lemma ParseFailsIff(lines: seq<string>)
    ensures Parse(lines).None? <==> SomeLineFails(lines)
  {
    FeedAllHasSeen(lines);
  }

  // ---------------------------------------------------------------- files that can be read back

  predicate OneLine(s: string) {
    forall i :: 0 <= i < |s| ==> s[i] != '\n'
  }

  /** A removed line that looks like the name of a file, or an added one. */
  predicate Misleading(l: Line) {
    (l.kind.Src? && "-- " <= l.text) || (l.kind.Dst? && "++ " <= l.text)
  }

  predicate PlainChunk(c: Chunk) {
    c.srcPos >= 0 && c.dstPos >= 0 && forall l :: l in c.lines ==> OneLine(l.text)
  }

  predicate PlainPatch(p: Patch) {
    OneLine(p.src) && OneLine(p.dst) && forall c :: c in p.chunks ==> PlainChunk(c)
  }

  predicate Plain(patches: seq<Patch>) {
    forall p :: p in patches ==> PlainPatch(p)
  }

  predicate CleanLines(lines: seq<Line>) {
    lines == [] || (!Misleading(lines[0]) && CleanLines(lines[1..]))
  }

  predicate CleanChunks(chunks: seq<Chunk>) {
    chunks == [] || (CleanLines(chunks[0].lines) && CleanChunks(chunks[1..]))
  }

  /** No line of the patches is misleading. */
  predicate Clean(patches: seq<Patch>) {
    patches == [] || (CleanChunks(patches[0].chunks) && Clean(patches[1..]))
  }

  // ---------------------------------------------------------------- reading what was written

  lemma ReadLineText(l: Line)
    ensures if Misleading(l) then !Read(LineText(l)).Content? else Read(LineText(l)) == Content(l)
  {
    var s := LineText(l);
    assert s[1..] == l.text;
    assert "--- " == ['-'] + "-- " && "+++ " == ['+'] + "++ ";
    assert "@@ -"[0] == '@' && s[0] == KindMark(l.kind) != '@';
    PrefixAfterMark('-', "-- ", KindMark(l.kind), l.text);
    PrefixAfterMark('+', "++ ", KindMark(l.kind), l.text);
  }

  lemma PrefixAfterMark(c: char, word: string, mark: char, text: string)
    ensures [c] + word <= [mark] + text <==> c == mark && word <= text
  {
    var a, b := [c] + word, [mark] + text;
    if a <= b {
      assert a[0] == b[0];
      assert b[1..|a|] == a[1..];
      assert text[..|word|] == word;
    }
    if c == mark && word <= text {
      assert text == word + text[|word|..];
      assert b == a + text[|word|..];
    }
  }

  lemma ReadHeader(c: Chunk)
    ensures !Read(Header(c)).Content?
    ensures c.srcPos >= 0 && c.dstPos >= 0 ==> Read(Header(c)) == Start(c.srcPos, c.dstPos)
  {
    HeaderComesBack(c);
    assert Header(c)[0] == '@';
  }

  lemma ReadNames(name: string)
    ensures Read("--- " + name) == FromName(name)
    ensures Read("+++ " + name) == ToName(name)
  {
    assert ("--- " + name)[4..] == name;
    assert ("+++ " + name)[4..] == name;
    assert ("+++ " + name)[0] == '+';
  }

  /** The parser while it fills a chunk. */
  function Filling(front: seq<Patch>, p: Patch, chunks: seq<Chunk>, c: Chunk): Parser {
    At(front + [p.(chunks := chunks + [c])], Some(|front|))
  }

  lemma FeedContent(front: seq<Patch>, p: Patch, chunks: seq<Chunk>, c: Chunk, l: Line)
    requires !Misleading(l)
    ensures Feed(Filling(front, p, chunks, c), LineText(l)) == Filling(front, p, chunks, c.(lines := c.lines + [l]))
  {
    ReadLineText(l);
    assert (chunks + [c])[..|chunks|] == chunks;
    var next := p.(chunks := chunks + [c.(lines := c.lines + [l])]);
    assert AddLine(p.(chunks := chunks + [c]), l) == next;
    assert (front + [p.(chunks := chunks + [c])])[|front| := next] == front + [next];
  }

  lemma LineByLine(c: Chunk, lines: seq<Line>)
    requires lines != []
    ensures c.(lines := c.lines + [lines[0]]).lines + lines[1..] == c.lines + lines
  {
  }

  lemma {:induction false} FeedTexts(front: seq<Patch>, p: Patch, chunks: seq<Chunk>, c: Chunk, lines: seq<Line>)
    requires CleanLines(lines)
    ensures FeedAll(Filling(front, p, chunks, c), Texts(lines)) == Filling(front, p, chunks, c.(lines := c.lines + lines))
    decreases |lines|
  {
    if lines == [] {
      assert c.lines + lines == c.lines;
    } else {
      FeedContent(front, p, chunks, c, lines[0]);
      LineByLine(c, lines);
      FeedTexts(front, p, chunks, c.(lines := c.lines + [lines[0]]), lines[1..]);
      assert Texts(lines)[1..] == Texts(lines[1..]);
    }
  }

  lemma FeedChunk(front: seq<Patch>, p: Patch, holder: Option<nat>, c: Chunk)
    requires ParserOk(At(front + [p], holder)) && c.srcPos >= 0 && c.dstPos >= 0 && CleanLines(c.lines)
    ensures FeedAll(At(front + [p], holder), OneChunk(c)) == At(front + [p.(chunks := p.chunks + [c])], Some(|front|))
  {
    FeedHeader(front, p, holder, c);
    FeedTexts(front, p, p.chunks, c.(lines := []), c.lines);
    assert [] + c.lines == c.lines;
    FeedConcat(At(front + [p], holder), [Header(c)], Texts(c.lines));
  }

  function WithChunks(front: seq<Patch>, p: Patch, more: seq<Chunk>): seq<Patch> {
    front + [p.(chunks := p.chunks + more)]
  }

  lemma NoMoreChunks(front: seq<Patch>, p: Patch)
    ensures WithChunks(front, p, []) == front + [p]
  {
    assert p.chunks + [] == p.chunks;
  }

  lemma ChunkByChunk(front: seq<Patch>, p: Patch, chunks: seq<Chunk>)
    requires chunks != []
    ensures WithChunks(front, p.(chunks := p.chunks + [chunks[0]]), chunks[1..]) == WithChunks(front, p, chunks)
  {
    assert p.chunks + [chunks[0]] + chunks[1..] == p.chunks + chunks;
  }

  /** The parser once the chunks of a patch are filled; the chunk it holds matters to no later header. */
  lemma {:induction false} FeedChunks(front: seq<Patch>, p: Patch, holder: Option<nat>, chunks: seq<Chunk>)
    requires (forall c :: c in chunks ==> PlainChunk(c)) && CleanChunks(chunks)
    requires ParserOk(At(front + [p], holder))
    ensures HasRead(FeedAll(At(front + [p], holder), ChunkLines(chunks)), WithChunks(front, p, chunks))
    decreases |chunks|
  {
    if chunks == [] {
      NoMoreChunks(front, p);
    } else {
      var c, rest := chunks[0], chunks[1..];
      assert PlainChunk(c);
      FeedChunk(front, p, holder, c);
      FeedConcat(At(front + [p], holder), OneChunk(c), ChunkLines(rest));
      FeedChunks(front, p.(chunks := p.chunks + [c]), Some(|front|), rest);
      ChunkByChunk(front, p, chunks);
    }
  }

  predicate HasRead(q: Parser, patches: seq<Patch>) {
    q.At? && q.patches == patches
  }

  lemma FeedHeader(front: seq<Patch>, p: Patch, holder: Option<nat>, c: Chunk)
    requires ParserOk(At(front + [p], holder)) && c.srcPos >= 0 && c.dstPos >= 0
    ensures FeedAll(At(front + [p], holder), [Header(c)]) == Filling(front, p, p.chunks, c.(lines := []))
  {
    ReadHeader(c);
    assert (front + [p])[..|front|] == front;
  }

  lemma FeedNames(front: seq<Patch>, holder: Option<nat>, src: string, dst: string)
    requires ParserOk(At(front, holder))
    ensures FeedAll(At(front, holder), ["--- " + src, "+++ " + dst]) == At(front + [Patch(src, dst, [])], holder)
  {
    ReadNames(src);
    ReadNames(dst);
    var first := front + [Patch(src, "", [])];
    assert first[..|front|] == front;
    FeedConcat(At(front, holder), ["--- " + src], ["+++ " + dst]);
  }

  lemma FeedPatch(front: seq<Patch>, holder: Option<nat>, p: Patch) returns (q: Parser)
    requires ParserOk(At(front, holder)) && PlainPatch(p) && CleanChunks(p.chunks)
    ensures q == FeedAll(At(front, holder), OnePatch(p)) && HasRead(q, front + [p])
  {
    var blank := Patch(p.src, p.dst, []);
    FeedNames(front, holder, p.src, p.dst);
    FeedConcat(At(front, holder), ["--- " + p.src, "+++ " + p.dst], ChunkLines(p.chunks));
    FeedChunks(front, blank, holder, p.chunks);
    assert blank.chunks + p.chunks == p.chunks;
    q := FeedAll(At(front, holder), OnePatch(p));
  }

  lemma PatchByPatch(front: seq<Patch>, patches: seq<Patch>)
    ensures if patches == [] then front + patches == front else front + [patches[0]] + patches[1..] == front + patches
  {
  }

  lemma {:induction false} FeedPatches(front: seq<Patch>, holder: Option<nat>, patches: seq<Patch>)
    requires ParserOk(At(front, holder)) && Plain(patches) && Clean(patches)
    ensures HasRead(FeedAll(At(front, holder), PatchLines(patches)), front + patches)
    decreases |patches|
  {
    PatchByPatch(front, patches);
    if patches != [] {
      var p, rest := patches[0], patches[1..];
      assert p in patches;
      var q := FeedPatch(front, holder, p);
      FeedConcat(At(front, holder), OnePatch(p), PatchLines(rest));
      assert q == At(front + [p], q.holder);
      FeedPatches(front + [p], q.holder, rest);
    }
  }

  // ---------------------------------------------------------------- lines of a file

  lemma {:induction false} SplitJoin(lines: seq<string>)
    requires forall s :: s in lines ==> OneLine(s)
    ensures Split(Join(lines)) == lines
    decreases |lines|
  {
    if lines != [] {
      var file, rest := Join(lines), Join(lines[1..]);
      var i := |lines[0]|;
      assert lines[0] in lines;
      assert file == lines[0] + ("\n" + rest);
      assert file[i] == '\n';
      assert forall j :: 0 <= j < i ==> file[j] == lines[0][j];
      assert FirstNewline(file) == i;
      assert file[..i] == lines[0] && file[i + 1..] == rest;
      SplitJoin(lines[1..]);
    }
  }

  lemma {:induction false} SplitGivesLines(file: string)
    ensures forall s :: s in Split(file) ==> OneLine(s)
    decreases |file|
  {
    if file != [] {
      var i := FirstNewline(file);
      assert OneLine(file[..i]);
      if i < |file| {
        SplitGivesLines(file[i + 1..]);
      } else {
        assert file[..i] == file;
      }
    }
  }

  lemma {:induction false} TextsAreLines(lines: seq<Line>)
    requires forall l :: l in lines ==> OneLine(l.text)
    ensures forall s :: s in Texts(lines) ==> OneLine(s)
    decreases |lines|
  {
    if lines != [] {
      assert lines[0] in lines;
      assert OneLine(LineText(lines[0]));
      TextsAreLines(lines[1..]);
    }
  }

  lemma {:induction false} DecimalIsLine(n: nat)
    ensures OneLine(Decimal(n))
    decreases n
  {
    if n >= 10 {
      DecimalIsLine(n / 10);
    }
  }

  lemma OneLineConcat(a: string, b: string)
    ensures OneLine(a + b) <==> OneLine(a) && OneLine(b)
  {
    assert forall i :: 0 <= i < |a| ==> (a + b)[i] == a[i];
    assert forall i :: 0 <= i < |b| ==> (a + b)[|a| + i] == b[i];
  }

  lemma HeaderIsLine(c: Chunk)
    requires c.srcPos >= 0 && c.dstPos >= 0
    ensures OneLine(Header(c))
  {
    var s5 := Decimal(DstLen(c.lines)) + " @@";
    var s3 := Decimal(c.dstPos) + ("," + s5);
    var s1 := Decimal(SrcLen(c.lines)) + (" +" + s3);
    DecimalIsLine(c.srcPos);
    DecimalIsLine(c.dstPos);
    DecimalIsLine(SrcLen(c.lines));
    DecimalIsLine(DstLen(c.lines));
    OneLineConcat(Decimal(DstLen(c.lines)), " @@");
    OneLineConcat(",", s5);
    OneLineConcat(Decimal(c.dstPos), "," + s5);
    OneLineConcat(" +", s3);
    OneLineConcat(Decimal(SrcLen(c.lines)), " +" + s3);
    OneLineConcat(",", s1);
    OneLineConcat(Decimal(c.srcPos), "," + s1);
    OneLineConcat("@@ -", Decimal(c.srcPos) + ("," + s1));
  }

  lemma {:induction false} ChunkLinesAreLines(chunks: seq<Chunk>)
    requires forall c :: c in chunks ==> PlainChunk(c)
    ensures forall s :: s in ChunkLines(chunks) ==> OneLine(s)
    decreases |chunks|
  {
    if chunks != [] {
      assert chunks[0] in chunks;
      HeaderIsLine(chunks[0]);
      TextsAreLines(chunks[0].lines);
      ChunkLinesAreLines(chunks[1..]);
    }
  }

  lemma {:induction false} PatchLinesAreLines(patches: seq<Patch>)
    requires Plain(patches)
    ensures forall s :: s in PatchLines(patches) ==> OneLine(s)
    decreases |patches|
  {
    if patches != [] {
      var p := patches[0];
      assert p in patches;
      OnePatchIsLines(p);
      PatchLinesAreLines(patches[1..]);
    }
  }

  lemma OnePatchIsLines(p: Patch)
    requires PlainPatch(p)
    ensures forall s :: s in OnePatch(p) ==> OneLine(s)
  {
    OneLineConcat("--- ", p.src);
    OneLineConcat("+++ ", p.dst);
    ChunkLinesAreLines(p.chunks);
  }

  // ---------------------------------------------------------------- what cannot be read back

  lemma TailIsLine(s: string, n: nat)
    requires OneLine(s) && n <= |s|
    ensures OneLine(s[n..])
  {
  }

  lemma AddLinePlain(p: Patch, l: Line)
    requires p.chunks != [] && PlainPatch(p) && OneLine(l.text)
    ensures PlainPatch(AddLine(p, l))
  {
    assert p.chunks[|p.chunks| - 1] in p.chunks;
  }

  /** Only plain patches are ever read. */
  lemma FeedStaysPlain(p: Parser, s: string)
    requires ParserOk(p) && (p.At? ==> Plain(p.patches)) && OneLine(s)
    ensures Feed(p, s).At? ==> Plain(Feed(p, s).patches)
  {
    if p.At? && Feed(p, s).At? {
      if |s| >= 1 {
        TailIsLine(s, 1);
      }
      match Read(s)
      case FromName(name) => TailIsLine(s, 4);
      case ToName(name) => TailIsLine(s, 4); assert p.patches[|p.patches| - 1] in p.patches;
      case Start(a, b) => assert p.patches[|p.patches| - 1] in p.patches;
      case Content(l) =>
        assert p.patches[p.holder.value] in p.patches;
        AddLinePlain(p.patches[p.holder.value], l);
      case Junk =>
    }
  }

  lemma {:induction false} FeedAllStaysPlain(p: Parser, lines: seq<string>)
    requires ParserOk(p) && (p.At? ==> Plain(p.patches))
    requires forall s :: s in lines ==> OneLine(s)
    ensures FeedAll(p, lines).At? ==> Plain(FeedAll(p, lines).patches)
    decreases |lines|
  {
    if lines != [] {
      assert lines[0] in lines;
      FeedStaysPlain(p, lines[0]);
      FeedAllStaysPlain(Feed(p, lines[0]), lines[1..]);
    }
  }

  function LinesIn(chunks: seq<Chunk>): nat {
    if chunks == [] then 0 else |chunks[0].lines| + LinesIn(chunks[1..])
  }

  function LinesOf(patches: seq<Patch>): nat {
    if patches == [] then 0 else LinesIn(patches[0].chunks) + LinesOf(patches[1..])
  }

  function ContentCount(lines: seq<string>): nat {
    if lines == [] then 0 else (if Read(lines[0]).Content? then 1 else 0) + ContentCount(lines[1..])
  }

  lemma {:induction false} LinesInConcat(a: seq<Chunk>, b: seq<Chunk>)
    ensures LinesIn(a + b) == LinesIn(a) + LinesIn(b)
    decreases |a|
  {
    if a == [] {
      assert a + b == b;
    } else {
      assert (a + b)[1..] == a[1..] + b;
      LinesInConcat(a[1..], b);
    }
  }

  lemma {:induction false} LinesOfConcat(a: seq<Patch>, b: seq<Patch>)
    ensures LinesOf(a + b) == LinesOf(a) + LinesOf(b)
    decreases |a|
  {
    if a == [] {
      assert a + b == b;
    } else {
      assert (a + b)[1..] == a[1..] + b;
      LinesOfConcat(a[1..], b);
    }
  }

  lemma {:induction false} ContentCountConcat(a: seq<string>, b: seq<string>)
    ensures ContentCount(a + b) == ContentCount(a) + ContentCount(b)
    decreases |a|
  {
    if a == [] {
      assert a + b == b;
    } else {
      assert (a + b)[1..] == a[1..] + b;
      ContentCountConcat(a[1..], b);
    }
  }

  lemma LinesOfOne(p: Patch)
    ensures LinesOf([p]) == LinesIn(p.chunks)
  {
  }

  lemma ReplacePatch(patches: seq<Patch>, h: nat, p: Patch)
    requires h < |patches|
    ensures LinesOf(patches[h := p]) + LinesIn(patches[h].chunks) == LinesOf(patches) + LinesIn(p.chunks)
  {
    var a, b := patches[..h], patches[h + 1..];
    assert patches[h := p] == a + ([p] + b);
    assert patches == a + ([patches[h]] + b);
    LinesOfConcat(a, [p] + b);
    LinesOfConcat(a, [patches[h]] + b);
    LinesOfConcat([p], b);
    LinesOfConcat([patches[h]], b);
    LinesOfOne(p);
    LinesOfOne(patches[h]);
  }

  lemma AddLineCounts(p: Patch, l: Line)
    requires p.chunks != []
    ensures LinesIn(AddLine(p, l).chunks) == LinesIn(p.chunks) + 1
  {
    var front, last := p.chunks[..|p.chunks| - 1], p.chunks[|p.chunks| - 1];
    assert p.chunks == front + [last];
    LinesInConcat(front, [last]);
    LinesInConcat(front, [last.(lines := last.lines + [l])]);
  }

  lemma AddChunkCounts(p: Patch, a: int, b: int)
    ensures LinesIn(p.chunks + [Chunk(a, b, [])]) == LinesIn(p.chunks)
  {
    LinesInConcat(p.chunks, [Chunk(a, b, [])]);
  }

  lemma SetLastIsReplace(patches: seq<Patch>, p: Patch)
    requires patches != []
    ensures SetLast(patches, p) == patches[|patches| - 1 := p]
  {
  }

  /** Lines are only gained by lines that read as content. */
  lemma FeedCounts(p: Parser, s: string)
    requires ParserOk(p) && p.At? && Feed(p, s).At?
    ensures LinesOf(Feed(p, s).patches) == LinesOf(p.patches) + if Read(s).Content? then 1 else 0
  {
    match Read(s)
    case FromName(name) =>
      LinesOfConcat(p.patches, [Patch(name, "", [])]);
      LinesOfOne(Patch(name, "", []));
    case ToName(name) =>
      var last := p.patches[|p.patches| - 1].(dst := name);
      SetLastIsReplace(p.patches, last);
      ReplacePatch(p.patches, |p.patches| - 1, last);
    case Start(a, b) =>
      var last := p.patches[|p.patches| - 1];
      var next := last.(chunks := last.chunks + [Chunk(a, b, [])]);
      AddChunkCounts(last, a, b);
      SetLastIsReplace(p.patches, next);
      ReplacePatch(p.patches, |p.patches| - 1, next);
    case Content(l) =>
      AddLineCounts(p.patches[p.holder.value], l);
      ReplacePatch(p.patches, p.holder.value, AddLine(p.patches[p.holder.value], l));
  }

  lemma {:induction false} RaisedStays(lines: seq<string>)
    ensures FeedAll(Raised, lines) == Raised
    decreases |lines|
  {
    if lines != [] {
      RaisedStays(lines[1..]);
    }
  }

  lemma {:induction false} FeedAllCounts(p: Parser, lines: seq<string>)
    requires ParserOk(p) && p.At? && FeedAll(p, lines).At?
    ensures LinesOf(FeedAll(p, lines).patches) == LinesOf(p.patches) + ContentCount(lines)
    decreases |lines|
  {
    if lines != [] {
      if Feed(p, lines[0]).Raised? {
        RaisedStays(lines[1..]);
      } else {
        FeedCounts(p, lines[0]);
        FeedAllCounts(Feed(p, lines[0]), lines[1..]);
      }
    }
  }

  /** A misleading line does not come back as content. */
  lemma {:induction false} TextsCount(lines: seq<Line>)
    ensures ContentCount(Texts(lines)) <= |lines|
    ensures ContentCount(Texts(lines)) == |lines| <==> CleanLines(lines)
    decreases |lines|
  {
    if lines != [] {
      ReadLineText(lines[0]);
      TextsCount(lines[1..]);
      assert Texts(lines)[1..] == Texts(lines[1..]);
    }
  }

  lemma OneChunkCount(c: Chunk)
    ensures ContentCount(OneChunk(c)) == ContentCount(Texts(c.lines))
  {
    ReadHeader(c);
    ContentCountConcat([Header(c)], Texts(c.lines));
    assert ContentCount([Header(c)]) == 0;
  }

  lemma {:induction false} ChunkLinesCount(chunks: seq<Chunk>)
    ensures ContentCount(ChunkLines(chunks)) <= LinesIn(chunks)
    ensures ContentCount(ChunkLines(chunks)) == LinesIn(chunks) <==> CleanChunks(chunks)
    decreases |chunks|
  {
    if chunks != [] {
      OneChunkCount(chunks[0]);
      TextsCount(chunks[0].lines);
      ChunkLinesCount(chunks[1..]);
      ContentCountConcat(OneChunk(chunks[0]), ChunkLines(chunks[1..]));
    }
  }

  lemma NamesCount(p: Patch)
    ensures ContentCount(OnePatch(p)) == ContentCount(ChunkLines(p.chunks))
  {
    ReadNames(p.src);
    ReadNames(p.dst);
    var names := ["--- " + p.src, "+++ " + p.dst];
    ContentCountConcat(names, ChunkLines(p.chunks));
    assert names[1..] == ["+++ " + p.dst];
    assert ContentCount(names) == 0;
  }

  lemma {:induction false} PatchLinesCount(patches: seq<Patch>)
    ensures ContentCount(PatchLines(patches)) <= LinesOf(patches)
    ensures ContentCount(PatchLines(patches)) == LinesOf(patches) <==> Clean(patches)
    decreases |patches|
  {
    if patches != [] {
      NamesCount(patches[0]);
      ChunkLinesCount(patches[0].chunks);
      PatchLinesCount(patches[1..]);
      ContentCountConcat(OnePatch(patches[0]), PatchLines(patches[1..]));
    }
  }

  /**
   Writing patches and parsing the file gives back the same patches exactly when no name or text holds
   a newline, no position is negative and no line is misleading.
   */
  lemma ComesBackIff(patches: seq<Patch>)
    ensures ParseFile(WriteFile(patches)) == Some(patches) <==> Plain(patches) && Clean(patches)
  {
    var lines := PatchLines(patches);
    if Plain(patches) {
      PatchLinesAreLines(patches);
      SplitJoin(lines);
      if Clean(patches) {
        FeedPatches([], None, patches);
        assert [] + patches == patches;
      }
      if Parse(lines) == Some(patches) {
        FeedAllCounts(START, lines);
        PatchLinesCount(patches);
      }
    } else {
      SplitGivesLines(WriteFile(patches));
      FeedAllStaysPlain(START, Split(WriteFile(patches)));
    }
  }

  // ---------------------------------------------------------------- the lines of either file

  predicate InOld(l: Line) { l.kind == Src || l.kind == Both }

  predicate InNew(l: Line) { l.kind == Dst || l.kind == Both }

  /** The lines of a kind, all of them and in order. */
  ghost predicate Keeps(lines: seq<Line>, kept: seq<Line>, kind: Line -> bool) {
    exists places: seq<nat> :: KeptAt(lines, kept, kind, places)
  }

  ghost predicate KeptAt(lines: seq<Line>, kept: seq<Line>, kind: Line -> bool, places: seq<nat>) {
    && |kept| == |places|
    && (forall n :: 0 <= n < |places| ==> places[n] < |lines| && kept[n] == lines[places[n]] && kind(kept[n]))
    && (forall m, n :: 0 <= m < n < |places| ==> places[m] < places[n])
    && (forall i: nat :: i < |lines| && kind(lines[i]) ==> i in places)
  }

  lemma KeptMore(lines: seq<Line>, n: nat, kept: seq<Line>, kind: Line -> bool, places: seq<nat>)
    requires n < |lines| && KeptAt(lines[..n], kept, kind, places) && kind(lines[n])
    ensures KeptAt(lines[..n + 1], kept + [lines[n]], kind, places + [n])
  {
    assert forall i: nat :: i < n ==> lines[..n + 1][i] == lines[..n][i] == lines[i];
    assert n in places + [n];
  }

  lemma KeptSame(lines: seq<Line>, n: nat, kept: seq<Line>, kind: Line -> bool, places: seq<nat>)
    requires n < |lines| && KeptAt(lines[..n], kept, kind, places) && !kind(lines[n])
    ensures KeptAt(lines[..n + 1], kept, kind, places)
  {
    assert forall i: nat :: i < n ==> lines[..n + 1][i] == lines[..n][i] == lines[i];
  }

  lemma KeptNext(lines: seq<Line>, n: nat, kept: seq<Line>, kind: Line -> bool)
    requires n < |lines| && Keeps(lines[..n], kept, kind)
    ensures Keeps(lines[..n + 1], if kind(lines[n]) then kept + [lines[n]] else kept, kind)
  {
    var places :| KeptAt(lines[..n], kept, kind, places);
    if kind(lines[n]) {
      KeptMore(lines, n, kept, kind, places);
    } else {
      KeptSame(lines, n, kept, kind, places);
    }
  }

  lemma KeptNone(lines: seq<Line>, kind: Line -> bool)
    ensures Keeps(lines[..0], [], kind)
  {
    assert KeptAt(lines[..0], [], kind, []);
  }

  lemma {:induction false} WithoutKeeps(lines: seq<Line>)
    ensures |Without(lines, Dst)| == |Positions(lines, InOld)|
    ensures |Without(lines, Src)| == |Positions(lines, InNew)|
  {
    if lines != [] {
      WithoutKeeps(lines[1..]);
      PositionsFirst(lines, InOld);
      PositionsFirst(lines, InNew);
    }
  }

  /** A header read back tells where the chunk is and how many of its lines are in the old and in the new file. */
  predicate TellsCounts(c: Chunk, header: string) {
    MatchHeader(header) == Some((c.srcPos, |Positions(c.lines, InOld)|, c.dstPos, |Positions(c.lines, InNew)|))
  }

  /** The four numbers of a written header: the positions, and how many lines are in the old and in the new file. */
  lemma HeaderCounts(c: Chunk)
    requires c.srcPos >= 0 && c.dstPos >= 0
    ensures TellsCounts(c, Header(c))
  {
    HeaderComesBack(c);
    WithoutKeeps(c.lines);
  }

  // ---------------------------------------------------------------- the program

  method SrcLines(c: Chunk) returns (src: seq<Line>)
    ensures src == Without(c.lines, Dst)
    ensures Keeps(c.lines, src, InOld)
  {
    src := [];
    assert c.lines[0..] == c.lines;
    KeptNone(c.lines, InOld);
    for i := 0 to |c.lines|
      invariant src + Without(c.lines[i..], Dst) == Without(c.lines, Dst)
      invariant Keeps(c.lines[..i], src, InOld)
    {
      assert c.lines[i..][1..] == c.lines[i + 1..];
      KeptNext(c.lines, i, src, InOld);
      Regroup(src, if c.lines[i].kind.Dst? then [] else [c.lines[i]], Without(c.lines[i + 1..], Dst));
      if c.lines[i].kind.Dst? {
        assert src + [] == src;
      } else {
        src := src + [c.lines[i]];
      }
    }
    WholePrefix(c.lines);
  }

  method DstLines(c: Chunk) returns (dst: seq<Line>)
    ensures dst == Without(c.lines, Src)
    ensures Keeps(c.lines, dst, InNew)
  {
    dst := [];
    assert c.lines[0..] == c.lines;
    KeptNone(c.lines, InNew);
    for i := 0 to |c.lines|
      invariant dst + Without(c.lines[i..], Src) == Without(c.lines, Src)
      invariant Keeps(c.lines[..i], dst, InNew)
    {
      assert c.lines[i..][1..] == c.lines[i + 1..];
      KeptNext(c.lines, i, dst, InNew);
      Regroup(dst, if c.lines[i].kind.Src? then [] else [c.lines[i]], Without(c.lines[i + 1..], Src));
      if c.lines[i].kind.Src? {
        assert dst + [] == dst;
      } else {
        dst := dst + [c.lines[i]];
      }
    }
    WholePrefix(c.lines);
  }

  // An example of a written patch.

  const REMOVED := Line(Src, "x")
  const ADDED := Line(Dst, "y")
  const KEPT := Line(Both, "z")
  const SAMPLE := Chunk(7, 8, [REMOVED, ADDED, KEPT, REMOVED])

  lemma SampleTexts()
    ensures Texts(SAMPLE.lines) == ["-x", "+y", " z", "-x"]
  {
    TextsOf(REMOVED, [ADDED, KEPT, REMOVED]);
    TextsOf(ADDED, [KEPT, REMOVED]);
    TextsOf(KEPT, [REMOVED]);
    TextsOf(REMOVED, []);
    assert LineText(REMOVED) == "-x" && LineText(ADDED) == "+y" && LineText(KEPT) == " z";
  }

  lemma TextsOf(first: Line, rest: seq<Line>)
    ensures Texts([first] + rest) == [LineText(first)] + Texts(rest)
  {
    assert ([first] + rest)[1..] == rest;
  }

  lemma SampleHeader()
    ensures Header(SAMPLE) == "@@ -7,3 +8,2 @@"
  {
    WithoutOf(REMOVED, [ADDED, KEPT, REMOVED]);
    WithoutOf(ADDED, [KEPT, REMOVED]);
    WithoutOf(KEPT, [REMOVED]);
    WithoutOf(REMOVED, []);
    assert SrcLen(SAMPLE.lines) == 3 && DstLen(SAMPLE.lines) == 2;
    assert Decimal(7) == "7" && Decimal(3) == "3" && Decimal(8) == "8" && Decimal(2) == "2";
  }

  lemma WithoutOf(first: Line, rest: seq<Line>)
    ensures SrcLen([first] + rest) == (if first.kind.Dst? then 0 else 1) + SrcLen(rest)
    ensures DstLen([first] + rest) == (if first.kind.Src? then 0 else 1) + DstLen(rest)
  {
    assert ([first] + rest)[1..] == rest;
  }

  /** What a written patch looks like. */
  lemma WrittenPatch()
    ensures PatchLines([Patch("a", "b", [SAMPLE])]) == ["--- a", "+++ b", "@@ -7,3 +8,2 @@", "-x", "+y", " z", "-x"]
    ensures WriteFile([Patch("a", "b", [])]) == "--- a\n+++ b\n"
  {
    SampleTexts();
    SampleHeader();
    assert ChunkLines([SAMPLE]) == OneChunk(SAMPLE);
    assert "--- " + "a" == "--- a" && "+++ " + "b" == "+++ b";
    JoinFrom("--- a", ["+++ b"]);
    JoinFrom("+++ b", []);
    assert PatchLines([Patch("a", "b", [])]) == ["--- a"] + ["+++ b"];
    assert ["+++ b"] + [] == ["+++ b"];
  }

  lemma JoinFrom(first: string, rest: seq<string>)
    ensures Join([first] + rest) == first + "\n" + Join(rest)
  {
    assert ([first] + rest)[1..] == rest;
  }

  lemma {:induction false} JoinConcat(a: seq<string>, b: seq<string>)
    ensures Join(a + b) == Join(a) + Join(b)
    decreases |a|
  {
    if a == [] {
      assert a + b == b;
    } else {
      assert (a + b)[0] == a[0] && (a + b)[1..] == a[1..] + b;
      JoinConcat(a[1..], b);
    }
  }

  /** Writing one line to a file. */
  method Put(file: string, line: string, ghost lines: seq<string>) returns (file': string)
    requires file == Join(lines)
    ensures file' == Join(lines + [line])
  {
    JoinConcat(lines, [line]);
    file' := file + line + "\n";
    assert Join([line]) == line + "\n" + "";
    assert file' == file + (line + "\n");
  }

  lemma HeaderFirst(lines: seq<string>, c: Chunk)
    ensures lines + [Header(c)] + Texts(c.lines) == lines + OneChunk(c)
  {
  }

  lemma WrittenHeaderTells(c: Chunk)
    ensures c.srcPos >= 0 && c.dstPos >= 0 ==> TellsCounts(c, OneChunk(c)[0])
  {
    if c.srcPos >= 0 && c.dstPos >= 0 {
      HeaderCounts(c);
    }
  }

  method WriteTexts(texts: seq<Line>, file: string, ghost lines: seq<string>) returns (file': string)
    requires file == Join(lines)
    ensures file' == Join(lines + Texts(texts))
  {
    file' := file;
    ghost var written := lines;
    assert texts[0..] == texts;
    for i := 0 to |texts|
      invariant file' == Join(written) && written + Texts(texts[i..]) == lines + Texts(texts)
    {
      FirstOf(texts, i);
      TextsOf(texts[i], texts[i + 1..]);
      var text := [KindMark(texts[i].kind)] + texts[i].text;
      file' := Put(file', text, written);
      Regroup(written, [text], Texts(texts[i + 1..]));
      written := written + [text];
    }
    assert written + Texts(texts[|texts|..]) == written;
  }

  method WriteChunk(c: Chunk, file: string, ghost lines: seq<string>) returns (file': string)
    requires file == Join(lines)
    ensures file' == Join(lines + OneChunk(c))
    ensures c.srcPos >= 0 && c.dstPos >= 0 ==> TellsCounts(c, OneChunk(c)[0])
  {
    WrittenHeaderTells(c);
    var src := SrcLines(c);
    var dst := DstLines(c);
    var header := "@@ -" + (Signed(c.srcPos) + HeaderEnd(|src|, c.dstPos, |dst|));
    file' := Put(file, header, lines);
    file' := WriteTexts(c.lines, file', lines + [header]);
    HeaderFirst(lines, c);
  }

  lemma NamesFirst(lines: seq<string>, p: Patch)
    ensures lines + ["--- " + p.src] + ["+++ " + p.dst] + ChunkLines(p.chunks) == lines + OnePatch(p)
  {
  }

  method WritePatch(p: Patch, file: string, ghost lines: seq<string>) returns (file': string)
    requires file == Join(lines)
    ensures file' == Join(lines + OnePatch(p))
  {
    file' := Put(file, "--- " + p.src, lines);
    file' := Put(file', "+++ " + p.dst, lines + ["--- " + p.src]);
    ghost var written := lines + ["--- " + p.src] + ["+++ " + p.dst];
    assert p.chunks[0..] == p.chunks;
    NamesFirst(lines, p);
    for i := 0 to |p.chunks|
      invariant file' == Join(written) && written + ChunkLines(p.chunks[i..]) == lines + OnePatch(p)
    {
      assert p.chunks[i..][1..] == p.chunks[i + 1..];
      file' := WriteChunk(p.chunks[i], file', written);
      Regroup(written, OneChunk(p.chunks[i]), ChunkLines(p.chunks[i + 1..]));
      written := written + OneChunk(p.chunks[i]);
    }
    assert written + ChunkLines(p.chunks[|p.chunks|..]) == written;
  }

  /** The loop over the lines; `None` for an exception. */
  method ParsePatchset(lines: seq<string>) returns (r: Option<seq<Patch>>)
    ensures r == Parse(lines)
  {
    var patchset: seq<Patch>, holder: Option<nat> := [], None;
    assert lines[0..] == lines;
    for i := 0 to |lines|
      invariant ParserOk(At(patchset, holder)) && FeedAll(At(patchset, holder), lines[i..]) == FeedAll(START, lines)
    {
      assert lines[i..][1..] == lines[i + 1..];
      ghost var next := Feed(At(patchset, holder), lines[i]);
      if next.Raised? {
        RaisedStays(lines[i + 1..]);
      }
      match Read(lines[i]) {
        case FromName(name) =>
          patchset := patchset + [Patch(name, "", [])];
        case ToName(name) =>
          if patchset == [] {
            return None;
          }
          patchset := SetLast(patchset, patchset[|patchset| - 1].(dst := name));
        case Start(a, b) =>
          if patchset == [] {
            return None;
          }
          var last := patchset[|patchset| - 1];
          patchset, holder := SetLast(patchset, last.(chunks := last.chunks + [Chunk(a, b, [])])), Some(|patchset| - 1);
        case Content(l) =>
          if holder.None? {
            return None;
          }
          patchset := patchset[holder.value := AddLine(patchset[holder.value], l)];
        case Junk =>
          return None;
      }
      assert next == At(patchset, holder);
    }
    return Some(patchset);
  }
}
