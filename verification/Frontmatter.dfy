/** Where a page's body begins, stated on its lines: a fence is a line that is `---` apart from whitespace, and the
    lines up to the fence that closes the frontmatter reach no chunk (`vector_lake/chunk_index.py`). */
module Frontmatter {
  import opened Ordering
  import opened Sequences
  import opened Chunks

  // ---------------------------------------------------------------- fences

  predicate FenceAt(line: string, i: nat, space: char -> bool) {
    i + 3 <= |line| && line[i] == line[i + 1] == line[i + 2] == '-' && Blank(line[..i], space) && Blank(line[i + 3..], space)
  }

  /** Three dashes and otherwise only whitespace. */
  predicate IsFence(line: string, space: char -> bool) { exists i: nat :: i <= |line| && FenceAt(line, i, space) }

  /** `t` is the text between the whitespace at both ends, found at `i`. */
  lemma {:induction false} StripMeans(line: string, space: char -> bool) returns (i: nat, t: string)
    ensures t == Strip(line, space) && i + |t| <= |line| && line[i..i + |t|] == t
    ensures Blank(line[..i], space) && Blank(line[i + |t|..], space)
    ensures |t| > 0 ==> !space(t[0]) && !space(t[|t| - 1])
    decreases line
  {
    i, t := 0, line;
    if |line| > 0 {
      if space(line[0]) {
        var k;
        k, t := StripMeans(line[1..], space);
        i := k + 1;
        BehindFirst(line, k, |t|, space);
      } else if space(line[|line| - 1]) {
        i, t := StripMeans(line[..|line| - 1], space);
        BeforeLast(line, i, |t|, space);
      }
    }
  }

  lemma BehindFirst(line: string, k: nat, n: nat, space: char -> bool)
    requires |line| > 0 && k + n < |line| && space(line[0]) && Blank(line[1..][..k], space)
    ensures Blank(line[..k + 1], space) && line[k + 1..k + 1 + n] == line[1..][k..k + n] && line[k + 1 + n..] == line[1..][k + n..]
  {
    var rest := line[1..];
    assert line[..k + 1] == [line[0]] + rest[..k];
    assert line == [line[0]] + rest;
  }

  lemma BeforeLast(line: string, i: nat, n: nat, space: char -> bool)
    requires |line| > 0 && i + n < |line| && space(line[|line| - 1]) && Blank(line[..|line| - 1][i + n..], space)
    ensures Blank(line[i + n..], space) && line[i..i + n] == line[..|line| - 1][i..i + n] && line[..i] == line[..|line| - 1][..i]
  {
    assert line[i + n..] == line[..|line| - 1][i + n..] + [line[|line| - 1]];
  }

  lemma {:induction false} FenceStrips(line: string, i: nat, space: char -> bool)
    requires FenceAt(line, i, space) && !space('-')
    ensures Strip(line, space) == "---"
    decreases line
  {
    if i > 0 {
      assert space(line[..i][0]);
      var rest := line[1..];
      assert rest[..i - 1] == line[..i][1..] && rest[i - 1 + 3..] == line[i + 3..];
      FenceStrips(rest, i - 1, space);
    } else if |line| > 3 {
      var n := |line| - 1;
      assert space(line[3..][n - 3]);
      assert line[..n][3..] == line[3..][..n - 3] && line[..n][..0] == line[..0];
      FenceStrips(line[..n], 0, space);
    } else {
      assert line == "---";
    }
  }

  lemma FenceIff(line: string, space: char -> bool)
    requires !space('-')
    ensures Strip(line, space) == "---" <==> IsFence(line, space)
  {
    if Strip(line, space) == "---" {
      var i, t := StripMeans(line, space);
      assert line[i..i + 3] == "---";
      assert line[i] == line[i..i + 3][0] && line[i + 1] == line[i..i + 3][1] && line[i + 2] == line[i..i + 3][2];
      assert FenceAt(line, i, space);
    }
    if i: nat :| i <= |line| && FenceAt(line, i, space) { FenceStrips(line, i, space); }
  }

  /** The first line opens a frontmatter: a fence behind any number of byte order marks. */
  predicate Opens(lines: seq<string>, space: char -> bool) {
    |lines| > 0 && exists b: nat :: b <= |lines[0]| && OpensBehind(lines[0], b, space)
  }

  predicate OpensBehind(line: string, b: nat, space: char -> bool)
    requires b <= |line|
  {
    && (forall k :: 0 <= k < b ==> line[k] == '\U{FEFF}') && (b < |line| ==> line[b] != '\U{FEFF}')
    && IsFence(line[b..], space)
  }

  lemma {:induction false} BomsBefore(line: string) returns (b: nat)
    ensures b <= |line| && StripBom(line) == line[b..]
    ensures (forall k :: 0 <= k < b ==> line[k] == '\U{FEFF}') && (b < |line| ==> line[b] != '\U{FEFF}')
    decreases line
  {
    if |line| > 0 && line[0] == '\U{FEFF}' {
      var c := BomsBefore(line[1..]);
      b := c + 1;
      assert line[b..] == line[1..][c..];
      assert forall k :: 0 < k < b ==> line[k] == line[1..][k - 1];
    } else {
      b := 0;
      assert line[0..] == line;
    }
  }

  lemma OpensIff(lines: seq<string>, space: char -> bool)
    requires !space('-') && |lines| > 0
    ensures Strip(StripBom(lines[0]), space) == "---" <==> Opens(lines, space)
  {
    var b := BomsBefore(lines[0]);
    FenceIff(StripBom(lines[0]), space);
    if Strip(StripBom(lines[0]), space) == "---" { assert OpensBehind(lines[0], b, space); }
    if c: nat :| c <= |lines[0]| && OpensBehind(lines[0], c, space) {
      assert b == c;
    }
  }

  // ---------------------------------------------------------------- the body

  /** Line `n - 1` is the first fence after the opening one. */
  predicate Closes(lines: seq<string>, n: nat, space: char -> bool) {
    2 <= n <= |lines| && IsFence(lines[n - 1], space) && forall j :: 1 <= j < n - 1 ==> !IsFence(lines[j], space)
  }

  predicate Unclosed(lines: seq<string>, space: char -> bool) {
    Opens(lines, space) && forall j :: 1 <= j < |lines| ==> !IsFence(lines[j], space)
  }

  /** Line `first` is the first of the body. */
  predicate BodyFrom(lines: seq<string>, first: nat, space: char -> bool) {
    if Opens(lines, space) then Closes(lines, first, space) else first == 0
  }

  lemma {:induction false} FindFenceMeans(lines: seq<string>, i: nat, space: char -> bool)
    requires i <= |lines| && !space('-')
    ensures match FindFence(lines, i, space)
            case None => forall j :: i <= j < |lines| ==> !IsFence(lines[j], space)
            case Some(n) => i < n <= |lines| && IsFence(lines[n - 1], space) && forall j :: i <= j < n - 1 ==> !IsFence(lines[j], space)
    decreases |lines| - i
  {
    if i < |lines| {
      FenceIff(lines[i], space);
      FindFenceMeans(lines, i + 1, space);
    }
  }

  lemma BodyStartMeans(lines: seq<string>, space: char -> bool)
    requires !space('-')
    ensures BodyStart(lines, space).None? <==> Unclosed(lines, space)
    ensures BodyStart(lines, space).Some? ==> BodyStart(lines, space).value <= |lines| && BodyFrom(lines, BodyStart(lines, space).value, space)
  {
    if |lines| > 0 {
      OpensIff(lines, space);
      FindFenceMeans(lines, 1, space);
    }
  }

  lemma OneBodyStart(lines: seq<string>, m: nat, n: nat, space: char -> bool)
    requires BodyFrom(lines, m, space) && BodyFrom(lines, n, space)
    ensures m == n && !Unclosed(lines, space)
  {
    if Opens(lines, space) {
      assert Closes(lines, m, space) && Closes(lines, n, space);
    }
  }

  /** No chunk begins before the body: a closed frontmatter is in none of them. */
  lemma FrontmatterIsLeftOut(content: string, chunkChars: int, overlap: int, space: char -> bool, chunks: seq<Chunk>, first: nat, c: Chunk)
    requires !space('-') && SplitOf(content, chunkChars, overlap, space) == Ok(chunks) && c in chunks
    requires BodyFrom(Lines(content), first, space)
    ensures first <= c.start <= |Lines(content)| && c.startLine > first && From(Lines(content), c) >= Offset(Lines(content), first)
  {
    var lines := Lines(content);
    BodyStartMeans(lines, space);
    OneBodyStart(lines, first, BodyStart(lines, space).value, space);
    var bounds := Boundaries(lines, first, space);
    var part, w := ChunkSource(lines, bounds, chunkChars, overlap, space, c);
    OffsetGrows(lines, first, c.start);
  }

  lemma OffsetGrows(lines: seq<string>, i: nat, j: nat)
    requires i <= j <= |lines|
    ensures Offset(lines, i) <= Offset(lines, j)
  {
    assert lines[..j] == lines[..i] + lines[i..j];
    FlattenConcat(lines[..i], lines[i..j]);
  }

  /** The body is in the chunks: every character of it that is not whitespace. */
  lemma BodyIsChunked(content: string, chunkChars: int, overlap: int, space: char -> bool, chunks: seq<Chunk>, first: nat, k: nat)
    returns (c: Chunk)
    requires !space('-') && SplitOf(content, chunkChars, overlap, space) == Ok(chunks)
    requires BodyFrom(Lines(content), first, space) && first <= |Lines(content)|
    requires Offset(Lines(content), first) <= k < |content| && !space(content[k])
    ensures c in chunks && c.start <= |Lines(content)| && From(Lines(content), c) <= k < From(Lines(content), c) + |c.text|
  {
    BodyStartMeans(Lines(content), space);
    OneBodyStart(Lines(content), first, BodyStart(Lines(content), space).value, space);
    c := NothingIsLost(content, chunkChars, overlap, space, k);
  }

  /** The refusals, in the order they are tried; the last is for more chunks than the page may have. */
  lemma SplitRefusesIff(content: string, chunkChars: int, overlap: int, space: char -> bool)
    requires !space('-')
    ensures var r := SplitOf(content, chunkChars, overlap, space);
            var sizes := 400 <= chunkChars <= 4000 && 0 <= overlap < chunkChars / 2;
            && (r == Err(InvalidSize) <==> !sizes)
            && (r == Err(PageTooLarge) <==> sizes && Utf8Length(content) > 524288)
            && (r == Err(UnclosedFrontmatter) <==> sizes && Utf8Length(content) <= 524288 && Unclosed(Lines(content), space))
            && (r.Ok? ==> |r.value| <= 512)
            && (r == Err(TooManyChunks) ==>
                  sizes && BodyStart(Lines(content), space).Some? && BodyStart(Lines(content), space).value <= |Lines(content)|
                  && |AllChunks(Lines(content), BodyStart(Lines(content), space).value, chunkChars, overlap, space)| > 512)
  {
    BodyStartMeans(Lines(content), space);
  }

  // ---------------------------------------------------------------- heading paths

  /** A heading line is one to six '#', a whitespace character, and at least one more character before the line end. */
  lemma HeadingIff(line: string, space: char -> bool)
    requires !space('#')
    ensures IsHeading(line, space) <==>
              exists h: nat :: 1 <= h <= 6 && h + 1 < |line| && Sharps(line, h) && space(line[h]) && line[h + 1] != '\n'
  {
    if IsHeading(line, space) { assert Sharps(line, Hashes(line)); }
    if h: nat :| 1 <= h <= 6 && h + 1 < |line| && Sharps(line, h) && space(line[h]) && line[h + 1] != '\n' {
      assert Hashes(line) == h;
    }
  }

  predicate Sharps(line: string, h: nat) { h <= |line| && forall k :: 0 <= k < h ==> line[k] == '#' }

  /** The heading of a chunk is its path joined by " > ", cut after 1024 characters. */
  lemma HeadingTextMeans(path: seq<string>, last: string)
    ensures |path| > 0 ==> JoinPath(path + [last]) == JoinPath(path) + " > " + last
    ensures |path| == 0 ==> JoinPath(path + [last]) == last
    ensures HeadingText(path) <= JoinPath(path) && |HeadingText(path)| == Min(1024, |JoinPath(path)|)
  {
    assert (path + [last])[..|path|] == path;
  }

  /** A heading of level `h` keeps at most the first `h - 1` headings of the path and ends it; other lines leave the path alone. */
  lemma HeadingEndsPath(lines: seq<string>, first: nat, i: nat, space: char -> bool)
    requires first <= i < |lines|
    ensures var before, after := PathAfter(lines, first, i, space), PathAfter(lines, first, i + 1, space);
            if IsHeading(lines[i], space) then
              var h := Hashes(lines[i]);
              && 1 <= h <= 6 && 1 <= |after| <= h && after[|after| - 1] == Strip(lines[i][h..], space)
              && after[..|after| - 1] <= before && (|after| == h || |after| == |before| + 1)
            else after == before
  {
  }
}
