/** Splitting a page into overlapping chunks with line numbers (`vector_lake/chunk_index.py`,
    `split_document`). '\n' is the line terminator; `space` is the whitespace of the host language. */
module Chunks {
  import opened Ordering
  import opened Sequences

  datatype Error = InvalidSize | PageTooLarge | UnclosedFrontmatter | TooManyChunks

  const MAX_PAGE_BYTES := 524288
  const MAX_CHUNKS_PER_PAGE := 512

  /** `start` is the index of the section's first line. */
  datatype Section = Section(start: nat, heading: string)

  /** The source's chunk id is a hash of the page, its content, `start` and `position`. */
  datatype Chunk = Chunk(start: nat, position: nat, heading: string, startLine: nat, endLine: nat, text: string)

  datatype Window = Window(from: nat, to: nat)

  // ---------------------------------------------------------------- lines and text

  function Utf8Length(s: string): nat {
    if s == [] then 0
    else
      var c := s[|s| - 1] as int;
      Utf8Length(s[..|s| - 1]) + if c < 0x80 then 1 else if c < 0x800 then 2 else if c < 0x10000 then 3 else 4
  }

  /** The number of line ends in a text. */
  function Newlines(s: string): nat {
    if s == [] then 0 else Newlines(s[..|s| - 1]) + if s[|s| - 1] == '\n' then 1 else 0
  }

  /** Where the first line ends, its terminator included. */
  function LineEnd(s: string, i: nat): (r: nat)
    requires i < |s|
    ensures i < r <= |s| && '\n' !in s[i..r - 1] && (r < |s| ==> s[r - 1] == '\n')
    decreases |s| - i
  {
    if s[i] == '\n' || i + 1 == |s| then i + 1
    else
      var r := LineEnd(s, i + 1);
      assert s[i..r - 1] == [s[i]] + s[i + 1..r - 1];
      r
  }

  /** `splitlines(keepends=True)` */
  function Lines(s: string): seq<string> {
    if s == [] then [] else [s[..LineEnd(s, 0)]] + Lines(s[LineEnd(s, 0)..])
  }

  predicate Blank(s: string, space: char -> bool) { forall i | 0 <= i < |s| :: space(s[i]) }

  function Strip(s: string, space: char -> bool): string {
    if s == [] then []
    else if space(s[0]) then Strip(s[1..], space)
    else if space(s[|s| - 1]) then Strip(s[..|s| - 1], space)
    else s
  }

  function StripBom(s: string): string { if s != [] && s[0] == '\U{FEFF}' then StripBom(s[1..]) else s }

  // ---------------------------------------------------------------- frontmatter and headings

  function FindFence(lines: seq<string>, i: nat, space: char -> bool): Option<nat>
    requires i <= |lines|
    decreases |lines| - i
  {
    if i == |lines| then None
    else if Strip(lines[i], space) == "---" then Some(i + 1)
    else FindFence(lines, i + 1, space)
  }

  /** The index of the first line after the frontmatter; None when the frontmatter is not closed. */
  function BodyStart(lines: seq<string>, space: char -> bool): Option<nat> {
    if lines != [] && Strip(StripBom(lines[0]), space) == "---" then FindFence(lines, 1, space) else Some(0)
  }

  function Hashes(line: string): (h: nat)
    ensures h <= |line| && forall i | 0 <= i < h :: line[i] == '#'
    ensures h < |line| ==> line[h] != '#'
  {
    if line != [] && line[0] == '#' then
      var rest := Hashes(line[1..]);
      assert forall i | 0 < i < 1 + rest :: line[i] == line[1..][i - 1];
      1 + rest
    else 0
  }

  /** One to six '#', whitespace, and at least one more character on the line. */
  predicate IsHeading(line: string, space: char -> bool) {
    var h := Hashes(line);
    1 <= h <= 6 && h + 1 < |line| && space(line[h]) && line[h + 1] != '\n'
  }

  /** The heading path after the lines `first .. i`. */
  function PathAfter(lines: seq<string>, first: nat, i: nat, space: char -> bool): seq<string>
    requires first <= i <= |lines|
  {
    if i == first then []
    else
      var before, line := PathAfter(lines, first, i - 1, space), lines[i - 1];
      if IsHeading(line, space) then
        before[..Min(|before|, Hashes(line) - 1)] + [Strip(line[Hashes(line)..], space)]
      else before
  }

  function JoinPath(path: seq<string>): string {
    if path == [] then ""
    else if |path| == 1 then path[0]
    else JoinPath(path[..|path| - 1]) + " > " + path[|path| - 1]
  }

  function HeadingText(path: seq<string>): string { JoinPath(path)[..Min(|JoinPath(path)|, 1024)] }

  function Headings(lines: seq<string>, first: nat, i: nat, space: char -> bool): (r: seq<Section>)
    requires first <= i <= |lines|
    ensures forall k | 0 <= k < |r| :: first <= r[k].start < i && IsHeading(lines[r[k].start], space)
    ensures forall j, k | 0 <= j < k < |r| :: r[j].start < r[k].start
  {
    if i == first then []
    else
      var here := if IsHeading(lines[i - 1], space) then [Section(i - 1, HeadingText(PathAfter(lines, first, i, space)))] else [];
      Headings(lines, first, i - 1, space) + here
  }

  predicate Ordered(bounds: seq<Section>, n: nat) {
    && (forall k | 0 <= k < |bounds| :: bounds[k].start <= n)
    && (forall j, k | 0 <= j < k < |bounds| :: bounds[j].start < bounds[k].start)
  }

  function Boundaries(lines: seq<string>, first: nat, space: char -> bool): (r: seq<Section>)
    requires first <= |lines|
    ensures r != [] && r[0].start == first
    ensures Ordered(r, |lines|)
  {
    var hs := Headings(lines, first, |lines|, space);
    if hs == [] || hs[0].start > first then [Section(first, "")] + hs else hs
  }

  function EndOf(bounds: seq<Section>, part: nat, n: nat): nat
    requires part < |bounds|
  {
    if part + 1 < |bounds| then bounds[part + 1].start else n
  }

  function SectionText(lines: seq<string>, bounds: seq<Section>, part: nat): string
    requires part < |bounds|
    requires Ordered(bounds, |lines|)
  {
    Flatten(lines[bounds[part].start..EndOf(bounds, part, |lines|)])
  }

  // ---------------------------------------------------------------- windows and chunks

  predicate ValidSizes(chunkChars: int, overlap: int) { 400 <= chunkChars <= 4000 && 0 <= overlap < chunkChars / 2 }

  /** The windows of a section from `position` on. */
  function Windows(length: nat, position: nat, chunkChars: int, overlap: int): seq<Window>
    requires ValidSizes(chunkChars, overlap)
    decreases length - position
  {
    if position >= length then []
    else
      var stop := Min(length, position + chunkChars);
      if stop == length then [Window(position, stop)]
      else [Window(position, stop)] + Windows(length, stop - overlap, chunkChars, overlap)
  }

  function ChunkOf(text: string, w: Window, section: Section): Chunk
    requires w.from < w.to <= |text|
  {
    Chunk(section.start, w.from, section.heading, section.start + Newlines(text[..w.from]) + 1,
          section.start + Newlines(text[..w.to - 1]) + 1, text[w.from..w.to])
  }

  function Chunked(text: string, windows: seq<Window>, section: Section, space: char -> bool): seq<Chunk>
    requires forall i | 0 <= i < |windows| :: windows[i].from < windows[i].to <= |text|
  {
    if windows == [] then []
    else
      var w := windows[|windows| - 1];
      Chunked(text, windows[..|windows| - 1], section, space)
      + if Blank(text[w.from..w.to], space) then [] else [ChunkOf(text, w, section)]
  }

  lemma {:induction false} WindowsAreInside(length: nat, position: nat, chunkChars: int, overlap: int)
    requires ValidSizes(chunkChars, overlap)
    ensures forall i | 0 <= i < |Windows(length, position, chunkChars, overlap)| ::
      var w := Windows(length, position, chunkChars, overlap)[i];
      position <= w.from < w.to <= length && w.to - w.from <= chunkChars
    decreases length - position
  {
    if position < length && position + chunkChars < length {
      WindowsAreInside(length, position + chunkChars - overlap, chunkChars, overlap);
    }
  }

  /** Consecutive windows overlap by exactly `overlap`; all but the last are full; together they
      reach from the first position to the end. */
  lemma {:induction false} WindowsOverlapExactly(length: nat, position: nat, chunkChars: int, overlap: int, i: nat)
    requires ValidSizes(chunkChars, overlap) && i < |Windows(length, position, chunkChars, overlap)|
    ensures var ws := Windows(length, position, chunkChars, overlap);
      && ws[0].from == position && ws[|ws| - 1].to == length
      && (i + 1 < |ws| ==> ws[i + 1].from == ws[i].to - overlap && ws[i].to - ws[i].from == chunkChars)
    decreases length - position
  {
    var stop := Min(length, position + chunkChars);
    if stop < length {
      var rest := Windows(length, stop - overlap, chunkChars, overlap);
      WindowsOverlapExactly(length, stop - overlap, chunkChars, overlap, if i == 0 then 0 else i - 1);
    }
  }

  lemma {:induction false} WindowsCover(length: nat, position: nat, chunkChars: int, overlap: int, k: nat) returns (i: nat)
    requires ValidSizes(chunkChars, overlap) && position <= k < length
    ensures i < |Windows(length, position, chunkChars, overlap)|
    ensures Windows(length, position, chunkChars, overlap)[i].from <= k < Windows(length, position, chunkChars, overlap)[i].to
    decreases length - position
  {
    var stop := Min(length, position + chunkChars);
    if k < stop {
      i := 0;
    } else {
      i := WindowsCover(length, stop - overlap, chunkChars, overlap, k);
      i := i + 1;
    }
  }

  // ---------------------------------------------------------------- the whole split

  function TextChunks(text: string, section: Section, chunkChars: int, overlap: int, space: char -> bool): seq<Chunk>
    requires ValidSizes(chunkChars, overlap)
  {
    WindowsAreInside(|text|, 0, chunkChars, overlap);
    Chunked(text, Windows(|text|, 0, chunkChars, overlap), section, space)
  }

  function SectionChunks(lines: seq<string>, bounds: seq<Section>, part: nat, chunkChars: int, overlap: int, space: char -> bool): seq<Chunk>
    requires ValidSizes(chunkChars, overlap) && part < |bounds| && Ordered(bounds, |lines|)
  {
    TextChunks(SectionText(lines, bounds, part), bounds[part], chunkChars, overlap, space)
  }

  function Pieces(lines: seq<string>, bounds: seq<Section>, parts: nat, chunkChars: int, overlap: int, space: char -> bool): (r: seq<seq<Chunk>>)
    requires ValidSizes(chunkChars, overlap) && parts <= |bounds| && Ordered(bounds, |lines|)
    ensures |r| == parts && forall i | 0 <= i < parts :: r[i] == SectionChunks(lines, bounds, i, chunkChars, overlap, space)
  {
    if parts == 0 then []
    else
      var before := Pieces(lines, bounds, parts - 1, chunkChars, overlap, space);
      before + [SectionChunks(lines, bounds, parts - 1, chunkChars, overlap, space)]
  }

  lemma {:induction false} FenceIsInside(lines: seq<string>, i: nat, space: char -> bool)
    requires i <= |lines|
    ensures FindFence(lines, i, space).Some? ==> i < FindFence(lines, i, space).value <= |lines|
    decreases |lines| - i
  {
    if i < |lines| { FenceIsInside(lines, i + 1, space); }
  }

  function AllChunks(lines: seq<string>, first: nat, chunkChars: int, overlap: int, space: char -> bool): seq<Chunk>
    requires ValidSizes(chunkChars, overlap) && first <= |lines|
  {
    var bounds := Boundaries(lines, first, space);
    Flatten(Pieces(lines, bounds, |bounds|, chunkChars, overlap, space))
  }

  function SplitOf(content: string, chunkChars: int, overlap: int, space: char -> bool): Result<seq<Chunk>, Error> {
    var lines := Lines(content);
    if !ValidSizes(chunkChars, overlap) then Err(InvalidSize)
    else if Utf8Length(content) > MAX_PAGE_BYTES then Err(PageTooLarge)
    else if BodyStart(lines, space).None? then Err(UnclosedFrontmatter)
    else
      FenceIsInside(lines, if lines == [] then 0 else 1, space);
      var chunks := AllChunks(lines, BodyStart(lines, space).value, chunkChars, overlap, space);
      if |chunks| > MAX_CHUNKS_PER_PAGE then Err(TooManyChunks) else Ok(chunks)
  }

  // ---------------------------------------------------------------- line numbers by bisection

  function Positions(text: string): (r: seq<nat>)
    ensures |r| == Newlines(text) && forall i | 0 <= i < |r| :: r[i] < |text|
    ensures forall i, j | 0 <= i < j < |r| :: r[i] < r[j]
  {
    if text == [] then []
    else
      var last, before := |text| - 1, Positions(text[..|text| - 1]);
      if text[last] == '\n' then before + [last] else before
  }

  function CountUpTo(a: seq<nat>, x: int): nat {
    if a == [] then 0 else CountUpTo(a[..|a| - 1], x) + if a[|a| - 1] <= x then 1 else 0
  }

  lemma {:induction false} CountOfSorted(a: seq<nat>, x: int, r: nat)
    requires r <= |a| && (forall i | 0 <= i < r :: a[i] <= x) && (forall i | r <= i < |a| :: a[i] > x)
    ensures CountUpTo(a, x) == r
  {
    if a != [] {
      CountOfSorted(a[..|a| - 1], x, if r == |a| then r - 1 else r);
    }
  }

  method BisectRight(a: seq<nat>, x: int) returns (r: nat)
    requires forall i, j | 0 <= i < j < |a| :: a[i] < a[j]
    ensures r == CountUpTo(a, x)
  {
    var lo, hi := 0, |a|;
    while lo < hi
      invariant 0 <= lo <= hi <= |a|
      invariant forall i | 0 <= i < lo :: a[i] <= x
      invariant forall i | hi <= i < |a| :: a[i] > x
    {
      var mid := (lo + hi) / 2;
      if x < a[mid] { hi := mid; } else { lo := mid + 1; }
    }
    r := lo;
    CountOfSorted(a, x, r);
  }

  lemma {:induction false} BisectCountsNewlines(text: string, p: nat)
    requires p <= |text|
    ensures CountUpTo(Positions(text), p - 1) == Newlines(text[..p])
  {
    if p == |text| {
      AllUpTo(Positions(text), p - 1);
      assert text[..p] == text;
    } else {
      CountIgnoresLast(text, p);
      BisectCountsNewlines(text[..|text| - 1], p);
      assert text[..|text| - 1][..p] == text[..p];
    }
  }

  lemma {:induction false} CountIgnoresLast(text: string, p: nat)
    requires p < |text|
    ensures CountUpTo(Positions(text), p - 1) == CountUpTo(Positions(text[..|text| - 1]), p - 1)
  {
    CountSnoc(Positions(text[..|text| - 1]), |text| - 1, p - 1);
  }

  lemma {:induction false} CountSnoc(a: seq<nat>, v: nat, x: int)
    ensures CountUpTo(a + [v], x) == CountUpTo(a, x) + if v <= x then 1 else 0
  {
    assert (a + [v])[..|a|] == a;
  }

  lemma {:induction false} AllUpTo(a: seq<nat>, x: int)
    requires forall i | 0 <= i < |a| :: a[i] <= x
    ensures CountUpTo(a, x) == |a|
  {
    if |a| > 0 { AllUpTo(a[..|a| - 1], x); }
  }

  method NewlinePositions(text: string) returns (positions: seq<nat>)
    ensures positions == Positions(text)
  {
    positions := [];
    for i := 0 to |text|
      invariant positions == Positions(text[..i])
    {
      assert text[..i + 1][..i] == text[..i];
      if text[i] == '\n' { positions := positions + [i]; }
    }
    assert text[..|text|] == text;
  }

  // ---------------------------------------------------------------- the algorithm

  method FindBoundaries(lines: seq<string>, first: nat, space: char -> bool) returns (bounds: seq<Section>)
    requires first <= |lines|
    ensures bounds == Boundaries(lines, first, space)
  {
    var path: seq<string> := [];
    bounds := [];
    for i := first to |lines|
      invariant path == PathAfter(lines, first, i, space) && bounds == Headings(lines, first, i, space)
    {
      if IsHeading(lines[i], space) {
        var level := Hashes(lines[i]);
        path := path[..Min(|path|, level - 1)] + [Strip(lines[i][level..], space)];
        bounds := bounds + [Section(i, HeadingText(path))];
      }
    }
    if bounds == [] || bounds[0].start > first {
      bounds := [Section(first, "")] + bounds;
    }
  }

  lemma WindowsTail(length: nat, position: nat, stop: nat, next: nat, chunkChars: int, overlap: int)
    requires ValidSizes(chunkChars, overlap) && position < stop < length
    requires stop == position + chunkChars && next == stop - overlap
    ensures var ws := Windows(length, position, chunkChars, overlap);
      ws != [] && ws[0] == Window(position, stop) && ws[1..] == Windows(length, next, chunkChars, overlap)
  {
  }

  method WindowChunk(text: string, newlines: seq<nat>, position: nat, stop: nat, section: Section, space: char -> bool)
    returns (made: seq<Chunk>)
    requires position < stop <= |text| && newlines == Positions(text)
    ensures made == if Blank(text[position..stop], space) then [] else [ChunkOf(text, Window(position, stop), section)]
  {
    var fragment := text[position..stop];
    if Blank(fragment, space) { return []; }
    var startsBefore := BisectRight(newlines, position - 1);
    var endsBefore := BisectRight(newlines, (if position >= stop - 1 then position else stop - 1) - 1);
    BisectCountsNewlines(text, position);
    BisectCountsNewlines(text, stop - 1);
    made := [Chunk(section.start, position, section.heading,
                   section.start + startsBefore + 1, section.start + endsBefore + 1, fragment)];
  }

  method SplitSection(text: string, section: Section, chunkChars: int, overlap: int, space: char -> bool) returns (chunks: seq<Chunk>)
    requires ValidSizes(chunkChars, overlap)
    ensures chunks == TextChunks(text, section, chunkChars, overlap, space)
  {
    var newlines := NewlinePositions(text);
    var position := 0;
    chunks := [];
    ghost var all := Windows(|text|, 0, chunkChars, overlap);
    ghost var done: seq<Window>, rest := [], all;
    WindowsAreInside(|text|, 0, chunkChars, overlap);
    while position < |text|
      invariant done + rest == all
      invariant rest == Windows(|text|, position, chunkChars, overlap)
      invariant forall i | 0 <= i < |done| :: done[i].from < done[i].to <= |text|
      invariant chunks == Chunked(text, done, section, space)
      decreases |text| - position
    {
      var stop := Min(|text|, position + chunkChars);
      var next := stop - overlap;
      if stop < |text| { WindowsTail(|text|, position, stop, next, chunkChars, overlap); }
      ghost var tail := rest[1..];
      assert rest == [Window(position, stop)] + tail;
      ConcatAssociates(done, [Window(position, stop)], tail);
      ChunkedSnoc(text, done, Window(position, stop), section, space);
      var made := WindowChunk(text, newlines, position, stop, section, space);
      chunks := chunks + made;
      done, rest := done + [Window(position, stop)], tail;
      if stop == |text| {
        break;
      }
      position := next;
    }
    assert done + [] == done;
  }

  lemma ChunkedSnoc(text: string, done: seq<Window>, w: Window, section: Section, space: char -> bool)
    requires w.from < w.to <= |text| && forall i | 0 <= i < |done| :: done[i].from < done[i].to <= |text|
    ensures Chunked(text, done + [w], section, space)
      == Chunked(text, done, section, space) + if Blank(text[w.from..w.to], space) then [] else [ChunkOf(text, w, section)]
  {
    assert (done + [w])[..|done|] == done;
  }

  method SplitDocument(content: string, chunkChars: int, overlap: int, space: char -> bool) returns (result: Result<seq<Chunk>, Error>)
    ensures result == SplitOf(content, chunkChars, overlap, space)
  {
    if !(400 <= chunkChars <= 4000) || !(0 <= overlap < chunkChars / 2) { return Err(InvalidSize); }
    if Utf8Length(content) > MAX_PAGE_BYTES { return Err(PageTooLarge); }
    var lines := Lines(content);
    var start := FindBodyStart(lines, space);
    if start.None? { return Err(UnclosedFrontmatter); }
    var bounds := FindBoundaries(lines, start.value, space);
    var chunks := [];
    for part := 0 to |bounds|
      invariant chunks == Flatten(Pieces(lines, bounds, part, chunkChars, overlap, space))
    {
      var found := SplitSection(SectionText(lines, bounds, part), bounds[part], chunkChars, overlap, space);
      chunks := chunks + found;
    }
    if |chunks| > MAX_CHUNKS_PER_PAGE { return Err(TooManyChunks); }
    return Ok(chunks);
  }

  method FindBodyStart(lines: seq<string>, space: char -> bool) returns (start: Option<nat>)
    ensures start == BodyStart(lines, space) && (start.Some? ==> start.value <= |lines|)
  {
    if lines == [] || Strip(StripBom(lines[0]), space) != "---" { return Some(0); }
    for i := 1 to |lines|
      invariant FindFence(lines, 1, space) == FindFence(lines, i, space)
    {
      if Strip(lines[i], space) == "---" { return Some(i + 1); }
    }
    return None;
  }

  // ---------------------------------------------------------------- sections are the body

  lemma {:induction false} NewlinesConcat(a: string, b: string)
    ensures Newlines(a + b) == Newlines(a) + Newlines(b)
  {
    if b == [] {
      assert a + b == a;
    } else {
      NewlinesConcat(a, b[..|b| - 1]);
      assert (a + b)[..|a + b| - 1] == a + b[..|b| - 1];
    }
  }

  /** The lines put together again are the text. */
  lemma {:induction false} LinesJoin(s: string)
    ensures Flatten(Lines(s)) == s
  {
    if |s| > 0 {
      var k := LineEnd(s, 0);
      var head, rest := s[..k], s[k..];
      LinesJoin(rest);
      FlattenCons(head, Lines(rest));
      assert s == head + rest;
    }
  }

  lemma {:induction false} NoNewlines(s: string)
    requires '\n' !in s
    ensures Newlines(s) == 0
  {
    if s != [] {
      NoNewlines(s[..|s| - 1]);
      assert s[|s| - 1] in s;
    }
  }

  /** Every line but the last holds exactly one terminator. */
  lemma {:induction false} LineShape(s: string, i: nat)
    requires i < |Lines(s)|
    ensures Lines(s)[i] != [] && (i + 1 < |Lines(s)| ==> Newlines(Lines(s)[i]) == 1)
  {
    var k := LineEnd(s, 0);
    if i > 0 {
      LineShape(s[k..], i - 1);
    } else {
      assert s[..k][..k - 1] == s[0..k - 1];
      NoNewlines(s[0..k - 1]);
    }
  }

  lemma {:induction false} LinesBefore(s: string, i: nat)
    requires i < |Lines(s)|
    ensures Newlines(Flatten(Lines(s)[..i])) == i
  {
    if i > 0 {
      LinesBefore(s, i - 1);
      LineShape(s, i - 1);
      assert Lines(s)[..i] == Lines(s)[..i - 1] + [Lines(s)[i - 1]];
      FlattenConcat(Lines(s)[..i - 1], [Lines(s)[i - 1]]);
      FlattenOne(Lines(s)[i - 1]);
      NewlinesConcat(Flatten(Lines(s)[..i - 1]), Lines(s)[i - 1]);
    }
  }

  function Offset(lines: seq<string>, i: nat): nat
    requires i <= |lines|
  {
    |Flatten(lines[..i])|
  }

  lemma ThreeParts(lines: seq<string>, i: nat, j: nat)
    requires i <= j <= |lines|
    ensures Flatten(lines[..j]) == Flatten(lines[..i]) + Flatten(lines[i..j])
    ensures Flatten(lines) == Flatten(lines[..i]) + Flatten(lines[i..j]) + Flatten(lines[j..])
  {
    FlattenSplit(lines, j);
    FlattenSplit(lines[..j], i);
    assert lines[..j][..i] == lines[..i] && lines[..j][i..] == lines[i..j];
  }

  function Sections(lines: seq<string>, bounds: seq<Section>, parts: nat): string
    requires parts <= |bounds|
    requires Ordered(bounds, |lines|)
  {
    if parts == 0 then [] else Sections(lines, bounds, parts - 1) + SectionText(lines, bounds, parts - 1)
  }

  lemma {:induction false} SectionsUpTo(lines: seq<string>, bounds: seq<Section>, parts: nat)
    requires 0 < parts <= |bounds|
    requires Ordered(bounds, |lines|)
    ensures bounds[0].start <= EndOf(bounds, parts - 1, |lines|) <= |lines|
    ensures Sections(lines, bounds, parts) == Flatten(lines[bounds[0].start..EndOf(bounds, parts - 1, |lines|)])
  {
    if parts == 1 {
      assert Sections(lines, bounds, 0) == [];
    } else {
      SectionsUpTo(lines, bounds, parts - 1);
      var a, b, c := bounds[0].start, bounds[parts - 1].start, EndOf(bounds, parts - 1, |lines|);
      FlattenConcat(lines[a..b], lines[b..c]);
      assert lines[a..c] == lines[a..b] + lines[b..c];
    }
  }

  /** The sections concatenate to everything after the frontmatter. */
  lemma SectionsAreTheBody(content: string, first: nat, space: char -> bool)
    requires first <= |Lines(content)|
    ensures var bounds := Boundaries(Lines(content), first, space);
      Flatten(Lines(content)[..first]) + Sections(Lines(content), bounds, |bounds|) == content
  {
    var lines := Lines(content);
    var bounds := Boundaries(lines, first, space);
    SectionsUpTo(lines, bounds, |bounds|);
    LinesJoin(content);
    ThreeParts(lines, first, |lines|);
    assert lines[|lines|..] == [] && lines[..|lines|] == lines;
  }

  ghost predicate StartsAt(sections: seq<Section>, line: nat) { exists s :: s in sections && s.start == line }

  lemma StartsAtConcat(a: seq<Section>, b: seq<Section>, line: nat)
    ensures StartsAt(a + b, line) <==> StartsAt(a, line) || StartsAt(b, line)
  {
    assert forall s :: s in a + b <==> s in a || s in b;
  }

  lemma {:induction false} HeadingsAreAll(lines: seq<string>, first: nat, i: nat, line: nat, space: char -> bool)
    requires first <= i <= |lines|
    ensures StartsAt(Headings(lines, first, i, space), line) <==> first <= line < i && IsHeading(lines[line], space)
  {
    if i > first {
      HeadingsAreAll(lines, first, i - 1, line, space);
      var here := if IsHeading(lines[i - 1], space) then [Section(i - 1, HeadingText(PathAfter(lines, first, i, space)))] else [];
      StartsAtConcat(Headings(lines, first, i - 1, space), here, line);
      if line == i - 1 && here != [] { assert here[0] in here; }
    }
  }

  /** A section starts at the first body line and at every heading, and nowhere else. */
  lemma SectionsStartAtHeadings(lines: seq<string>, first: nat, line: nat, space: char -> bool)
    requires first <= line < |lines|
    ensures StartsAt(Boundaries(lines, first, space), line) <==> line == first || IsHeading(lines[line], space)
  {
    var bounds, hs := Boundaries(lines, first, space), Headings(lines, first, |lines|, space);
    HeadingsAreAll(lines, first, |lines|, line, space);
    assert bounds[0] in bounds;
    StartsAtConcat([Section(first, "")], hs, line);
  }

  // ---------------------------------------------------------------- what a chunk says is true

  /** The 1-based number of the line that holds the character at `k`. */
  function LineOf(content: string, k: nat): nat
    requires k < |content|
  {
    1 + Newlines(content[..k])
  }

  lemma {:induction false} ChunkedOrigin(text: string, windows: seq<Window>, section: Section, space: char -> bool, c: Chunk) returns (i: nat)
    requires forall k | 0 <= k < |windows| :: windows[k].from < windows[k].to <= |text|
    requires c in Chunked(text, windows, section, space)
    ensures i < |windows| && c == ChunkOf(text, windows[i], section) && !Blank(text[windows[i].from..windows[i].to], space)
  {
    var n := |windows| - 1;
    if c in Chunked(text, windows[..n], section, space) {
      i := ChunkedOrigin(text, windows[..n], section, space, c);
    } else {
      i := n;
    }
  }

  lemma {:induction false} ChunkedKeeps(text: string, windows: seq<Window>, section: Section, space: char -> bool, i: nat)
    requires forall k | 0 <= k < |windows| :: windows[k].from < windows[k].to <= |text|
    requires i < |windows| && !Blank(text[windows[i].from..windows[i].to], space)
    ensures ChunkOf(text, windows[i], section) in Chunked(text, windows, section, space)
  {
    if i < |windows| - 1 { ChunkedKeeps(text, windows[..|windows| - 1], section, space, i); }
  }

  /** Where the chunk lies in the page that these lines make up. */
  function From(lines: seq<string>, c: Chunk): nat
    requires c.start <= |lines|
  {
    Offset(lines, c.start) + c.position
  }

  /** The chunk is the stretch `from .. to` of the page, not blank, with the true line numbers of its
      first and last character. */
  ghost predicate IsStretch(content: string, c: Chunk, from: nat, to: nat, chunkChars: int, space: char -> bool) {
    && from < to <= |content| && to - from <= chunkChars
    && c.text == content[from..to] && !Blank(c.text, space)
    && c.startLine == LineOf(content, from) && c.endLine == LineOf(content, to - 1)
  }

  ghost predicate IsTrue(content: string, lines: seq<string>, c: Chunk, chunkChars: int, space: char -> bool) {
    c.start <= |lines| && IsStretch(content, c, From(lines, c), From(lines, c) + |c.text|, chunkChars, space)
  }

  lemma {:induction false} WindowIsTrue(content: string, lines: seq<string>, a: string, text: string, b: string, section: Section, w: Window,
                     chunkChars: int, space: char -> bool)
    requires content == a + text + b && section.start <= |lines| && |a| == Offset(lines, section.start)
    requires w.from < w.to <= |text| && w.to - w.from <= chunkChars
    requires Newlines(a) == section.start && !Blank(text[w.from..w.to], space)
    ensures IsTrue(content, lines, ChunkOf(text, w, section), chunkChars, space)
  {
    var c := ChunkOf(text, w, section);
    var from := From(lines, c);
    var to := from + |c.text|;
    StretchIsTrue(content, a, text, b, section, w, from, to, chunkChars, space);
  }

  lemma {:induction false} StretchIsTrue(content: string, a: string, text: string, b: string, section: Section, w: Window, from: nat, to: nat,
                      chunkChars: int, space: char -> bool)
    requires content == a + text + b
    requires w.from < w.to <= |text| && w.to - w.from <= chunkChars && from == |a| + w.from && to == |a| + w.to
    requires Newlines(a) == section.start && !Blank(text[w.from..w.to], space)
    ensures IsStretch(content, ChunkOf(text, w, section), from, to, chunkChars, space)
  {
    assert to <= |content|;
    LineInSection(content, a, text, b, section.start, w.from, from);
    LineInSection(content, a, text, b, section.start, w.to - 1, to - 1);
    SliceOfMiddle(content, a, text, b, w.from, w.to, from, to);
    StretchFrom(content, text, section, w, from, to, chunkChars, space);
  }

  lemma {:induction false} StretchFrom(content: string, text: string, section: Section, w: Window, from: nat, to: nat,
                                          chunkChars: int, space: char -> bool)
    requires from < to <= |content| && w.from < w.to <= |text| && to - from <= chunkChars
    requires text[w.from..w.to] == content[from..to] && !Blank(text[w.from..w.to], space)
    requires section.start + Newlines(text[..w.from]) + 1 == LineOf(content, from)
    requires section.start + Newlines(text[..w.to - 1]) + 1 == LineOf(content, to - 1)
    ensures IsStretch(content, ChunkOf(text, w, section), from, to, chunkChars, space)
  {
  }

  lemma {:induction false} SliceOfMiddle(content: string, a: string, text: string, b: string, i: nat, j: nat, from: nat, to: nat)
    requires content == a + text + b && i <= j <= |text| && from == |a| + i && to == |a| + j
    ensures text[i..j] == content[from..to]
    ensures i < j ==> text[i] == content[from]
  {
    assert |text[i..j]| == |content[from..to]|;
    assert forall k | 0 <= k < j - i :: text[i..j][k] == text[i + k] == content[from + k] == content[from..to][k];
  }

  lemma NoLinesNoText(lines: seq<string>)
    ensures Flatten(lines) != [] ==> |lines| > 0
  {
  }

  lemma {:induction false} LineInSection(content: string, a: string, text: string, b: string, start: nat, k: nat, at: nat)
    requires content == a + text + b && Newlines(a) == start && k < |text| && at == |a| + k
    ensures start + Newlines(text[..k]) + 1 == LineOf(content, at)
  {
    assert content[..at] == a + text[..k];
    NewlinesConcat(a, text[..k]);
  }

  lemma ChunkSource(lines: seq<string>, bounds: seq<Section>, chunkChars: int, overlap: int, space: char -> bool, c: Chunk)
    returns (part: nat, w: Window)
    requires ValidSizes(chunkChars, overlap) && Ordered(bounds, |lines|)
    requires c in Flatten(Pieces(lines, bounds, |bounds|, chunkChars, overlap, space))
    ensures part < |bounds| && w.from < w.to <= |SectionText(lines, bounds, part)| && w.to - w.from <= chunkChars
    ensures !Blank(SectionText(lines, bounds, part)[w.from..w.to], space)
    ensures c == ChunkOf(SectionText(lines, bounds, part), w, bounds[part])
  {
    part := FlattenOrigin(Pieces(lines, bounds, |bounds|, chunkChars, overlap, space), c);
    var text := SectionText(lines, bounds, part);
    WindowsAreInside(|text|, 0, chunkChars, overlap);
    var i := ChunkedOrigin(text, Windows(|text|, 0, chunkChars, overlap), bounds[part], space, c);
    w := Windows(|text|, 0, chunkChars, overlap)[i];
  }

  lemma ChunkIsTrue(content: string, lines: seq<string>, bounds: seq<Section>, part: nat, w: Window, chunkChars: int, space: char -> bool)
    requires lines == Lines(content) && part < |bounds| && Ordered(bounds, |lines|)
    requires w.from < w.to <= |SectionText(lines, bounds, part)| && w.to - w.from <= chunkChars
    requires !Blank(SectionText(lines, bounds, part)[w.from..w.to], space)
    ensures IsTrue(content, lines, ChunkOf(SectionText(lines, bounds, part), w, bounds[part]), chunkChars, space)
  {
    var start, end := bounds[part].start, EndOf(bounds, part, |lines|);
    NoLinesNoText(lines[start..end]);
    LinesJoin(content);
    LinesBefore(content, start);
    ThreeParts(lines, start, end);
    WindowIsTrue(content, lines, Flatten(lines[..start]), SectionText(lines, bounds, part), Flatten(lines[end..]), bounds[part],
                 w, chunkChars, space);
  }

  /** Every chunk is a stretch of the page that is not blank, and its line numbers are those of its
      first and last character. */
  lemma ChunksAreTrue(content: string, chunkChars: int, overlap: int, space: char -> bool, chunks: seq<Chunk>, c: Chunk)
    requires SplitOf(content, chunkChars, overlap, space) == Ok(chunks) && c in chunks
    ensures IsTrue(content, Lines(content), c, chunkChars, space)
  {
    var lines := Lines(content);
    FenceIsInside(lines, if lines == [] then 0 else 1, space);
    var bounds := Boundaries(lines, BodyStart(lines, space).value, space);
    var part, w := ChunkSource(lines, bounds, chunkChars, overlap, space, c);
    ChunkIsTrue(content, lines, bounds, part, w, chunkChars, space);
  }

  lemma {:induction false} SectionOf(lines: seq<string>, bounds: seq<Section>, part: nat, k: nat) returns (found: nat)
    requires part < |bounds| && Ordered(bounds, |lines|)
    requires Offset(lines, bounds[0].start) <= k < Offset(lines, EndOf(bounds, part, |lines|))
    ensures found < |bounds|
    ensures Offset(lines, bounds[found].start) <= k < Offset(lines, EndOf(bounds, found, |lines|))
  {
    if Offset(lines, bounds[part].start) <= k {
      found := part;
    } else {
      found := SectionOf(lines, bounds, part - 1, k);
    }
  }

  /** Where the body starts in the page; its end when the frontmatter is not closed. */
  function BodyOffset(content: string, space: char -> bool): nat {
    var lines := Lines(content);
    FenceIsInside(lines, if lines == [] then 0 else 1, space);
    match BodyStart(lines, space)
    case None => |content|
    case Some(first) => Offset(lines, first)
  }

  /** Every character of the body that is not whitespace lies in some chunk. */
  lemma NothingIsLost(content: string, chunkChars: int, overlap: int, space: char -> bool, k: nat) returns (c: Chunk)
    requires k < |content| && !space(content[k])
    ensures SplitOf(content, chunkChars, overlap, space).Ok? && BodyOffset(content, space) <= k ==>
      && c in SplitOf(content, chunkChars, overlap, space).value && c.start <= |Lines(content)|
      && From(Lines(content), c) <= k < From(Lines(content), c) + |c.text|
  {
    if SplitOf(content, chunkChars, overlap, space).Ok? && BodyOffset(content, space) <= k {
      LinesJoin(content);
      var lines := Lines(content);
      FenceIsInside(lines, if lines == [] then 0 else 1, space);
      c := BodyHolds(content, lines, BodyStart(lines, space).value, chunkChars, overlap, space, k);
    } else {
      c := Chunk(0, 0, "", 0, 0, "");
    }
  }

  lemma BodyHolds(content: string, lines: seq<string>, first: nat, chunkChars: int, overlap: int, space: char -> bool, k: nat)
    returns (c: Chunk)
    requires ValidSizes(chunkChars, overlap) && Flatten(lines) == content && first <= |lines|
    requires Offset(lines, first) <= k < |content| && !space(content[k])
    ensures c in AllChunks(lines, first, chunkChars, overlap, space)
    ensures c.start <= |lines| && From(lines, c) <= k < From(lines, c) + |c.text|
  {
    var bounds := Boundaries(lines, first, space);
    assert lines[..|lines|] == lines;
    var part := SectionOf(lines, bounds, |bounds| - 1, k);
    c := SectionHolds(content, lines, bounds, part, k, chunkChars, overlap, space);
    FlattenContains(Pieces(lines, bounds, |bounds|, chunkChars, overlap, space), part, c);
  }

  lemma SectionHolds(content: string, lines: seq<string>, bounds: seq<Section>, part: nat, k: nat, chunkChars: int, overlap: int, space: char -> bool)
    returns (c: Chunk)
    requires ValidSizes(chunkChars, overlap) && part < |bounds| && Ordered(bounds, |lines|) && Flatten(lines) == content
    requires k < |content| && !space(content[k])
    requires Offset(lines, bounds[part].start) <= k < Offset(lines, EndOf(bounds, part, |lines|))
    ensures c in SectionChunks(lines, bounds, part, chunkChars, overlap, space)
    ensures c.start <= |lines| && From(lines, c) <= k < From(lines, c) + |c.text|
  {
    var start, end := bounds[part].start, EndOf(bounds, part, |lines|);
    ThreeParts(lines, start, end);
    var text, o := SectionText(lines, bounds, part), Offset(lines, start);
    var j := k - o;
    SliceOfMiddle(content, Flatten(lines[..start]), text, Flatten(lines[end..]), j, j + 1, k, k + 1);
    c := WindowHolds(text, bounds[part], j, chunkChars, overlap, space);
    assert From(lines, c) == o + c.position;
  }

  lemma WindowHolds(text: string, section: Section, j: nat, chunkChars: int, overlap: int, space: char -> bool) returns (c: Chunk)
    requires ValidSizes(chunkChars, overlap) && j < |text| && !space(text[j])
    ensures c.start == section.start && c.position <= j < c.position + |c.text|
    ensures c in TextChunks(text, section, chunkChars, overlap, space)
  {
    WindowsAreInside(|text|, 0, chunkChars, overlap);
    var i := WindowsCover(|text|, 0, chunkChars, overlap, j);
    var w := Windows(|text|, 0, chunkChars, overlap)[i];
    assert text[w.from..w.to][j - w.from] == text[j];
    ChunkedKeeps(text, Windows(|text|, 0, chunkChars, overlap), section, space, i);
    c := ChunkOf(text, w, section);
  }

  // ---------------------------------------------------------------- chunk ids

  /** Chunks come in page order, and no two of one page share the (section, position) of their ids. */
  predicate IdsAscend(chunks: seq<Chunk>) {
    forall i, j | 0 <= i < j < |chunks| ::
      chunks[i].start < chunks[j].start || (chunks[i].start == chunks[j].start && chunks[i].position < chunks[j].position)
  }

  predicate WindowsAscend(windows: seq<Window>, limit: nat) {
    && (forall i, j | 0 <= i < j < |windows| :: windows[i].from < windows[j].from)
    && (forall i | 0 <= i < |windows| :: windows[i].from < limit)
  }

  lemma {:induction false} WindowsMoveOn(length: nat, position: nat, chunkChars: int, overlap: int)
    requires ValidSizes(chunkChars, overlap)
    ensures WindowsAscend(Windows(length, position, chunkChars, overlap), length)
    decreases length - position
  {
    if position < length && position + chunkChars < length {
      var next := position + chunkChars - overlap;
      var ws, rest := Windows(length, position, chunkChars, overlap), Windows(length, next, chunkChars, overlap);
      WindowsMoveOn(length, next, chunkChars, overlap);
      WindowsAreInside(length, next, chunkChars, overlap);
      WindowsTail(length, position, position + chunkChars, next, chunkChars, overlap);
      assert forall i | 0 < i < |ws| :: ws[i] == rest[i - 1];
    }
  }

  lemma {:induction false} ChunkedAscends(text: string, windows: seq<Window>, section: Section, space: char -> bool, limit: nat)
    requires forall k | 0 <= k < |windows| :: windows[k].from < windows[k].to <= |text|
    requires WindowsAscend(windows, limit)
    ensures IdsAscend(Chunked(text, windows, section, space))
    ensures forall k | 0 <= k < |Chunked(text, windows, section, space)| ::
      Chunked(text, windows, section, space)[k].start == section.start && Chunked(text, windows, section, space)[k].position < limit
  {
    if windows != [] {
      var n := |windows| - 1;
      ChunkedAscends(text, windows[..n], section, space, windows[n].from);
    }
  }

  lemma {:induction false} PiecesAscend(lines: seq<string>, bounds: seq<Section>, parts: nat, chunkChars: int, overlap: int, space: char -> bool)
    requires ValidSizes(chunkChars, overlap) && parts <= |bounds| && Ordered(bounds, |lines|)
    ensures var all := Flatten(Pieces(lines, bounds, parts, chunkChars, overlap, space));
      && IdsAscend(all)
      && forall k, p | 0 <= k < |all| && parts <= p < |bounds| :: all[k].start < bounds[p].start
  {
    if parts > 0 {
      PiecesAscend(lines, bounds, parts - 1, chunkChars, overlap, space);
      SectionAscends(lines, bounds, parts - 1, chunkChars, overlap, space);
      PiecesUnroll(lines, bounds, parts, chunkChars, overlap, space);
      IdsConcat(Flatten(Pieces(lines, bounds, parts - 1, chunkChars, overlap, space)),
                SectionChunks(lines, bounds, parts - 1, chunkChars, overlap, space), bounds[parts - 1].start);
      StartsBefore(Flatten(Pieces(lines, bounds, parts, chunkChars, overlap, space)), bounds, parts, |lines|);
    }
  }

  lemma StartsBefore(all: seq<Chunk>, bounds: seq<Section>, parts: nat, count: nat)
    requires Ordered(bounds, count) && 0 < parts <= |bounds| && forall k | 0 <= k < |all| :: all[k].start <= bounds[parts - 1].start
    ensures forall k, p | 0 <= k < |all| && parts <= p < |bounds| :: all[k].start < bounds[p].start
  {
    assert forall p | parts <= p < |bounds| :: bounds[parts - 1].start < bounds[p].start;
  }

  lemma SectionAscends(lines: seq<string>, bounds: seq<Section>, part: nat, chunkChars: int, overlap: int, space: char -> bool)
    requires ValidSizes(chunkChars, overlap) && part < |bounds| && Ordered(bounds, |lines|)
    ensures var chunks := SectionChunks(lines, bounds, part, chunkChars, overlap, space);
      IdsAscend(chunks) && forall i | 0 <= i < |chunks| :: chunks[i].start == bounds[part].start
  {
    var text := SectionText(lines, bounds, part);
    WindowsAreInside(|text|, 0, chunkChars, overlap);
    WindowsMoveOn(|text|, 0, chunkChars, overlap);
    ChunkedAscends(text, Windows(|text|, 0, chunkChars, overlap), bounds[part], space, |text|);
  }

  lemma IdsConcat(a: seq<Chunk>, b: seq<Chunk>, start: nat)
    requires IdsAscend(a) && IdsAscend(b)
    requires (forall i | 0 <= i < |a| :: a[i].start < start) && (forall i | 0 <= i < |b| :: b[i].start == start)
    ensures IdsAscend(a + b) && forall i | 0 <= i < |a + b| :: (a + b)[i].start <= start
  {
  }

  lemma PiecesUnroll(lines: seq<string>, bounds: seq<Section>, parts: nat, chunkChars: int, overlap: int, space: char -> bool)
    requires ValidSizes(chunkChars, overlap) && 0 < parts <= |bounds| && Ordered(bounds, |lines|)
    ensures Flatten(Pieces(lines, bounds, parts, chunkChars, overlap, space))
      == Flatten(Pieces(lines, bounds, parts - 1, chunkChars, overlap, space)) + SectionChunks(lines, bounds, parts - 1, chunkChars, overlap, space)
  {
    var before := Pieces(lines, bounds, parts - 1, chunkChars, overlap, space);
    assert Pieces(lines, bounds, parts, chunkChars, overlap, space)[..parts - 1] == before;
  }

  lemma ChunkIdsAreUnique(content: string, chunkChars: int, overlap: int, space: char -> bool, chunks: seq<Chunk>)
    requires SplitOf(content, chunkChars, overlap, space) == Ok(chunks)
    ensures IdsAscend(chunks)
  {
    var lines := Lines(content);
    FenceIsInside(lines, if lines == [] then 0 else 1, space);
    var bounds := Boundaries(lines, BodyStart(lines, space).value, space);
    PiecesAscend(lines, bounds, |bounds|, chunkChars, overlap, space);
  }
}
