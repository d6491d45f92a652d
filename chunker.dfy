/**
 * The `chunk-content` step of the ingestion function: a greedy line-by-line
 * Markdown chunker with a soft minimum (a heading closes the current chunk only
 * when the chunk is longer than 500 characters) and a hard maximum (a chunk
 * longer than 3500 characters after a line is appended is closed at once),
 * followed by a filter that drops whitespace-only chunks.
 *
 * `Step`, `Fold`, `Group` and `Chunks` are the specification; `ChunkContent`
 * is the loop of the source, proved equal to it.
 */
module Chunker {
  import opened Text

  /** A heading closes the current chunk only when the chunk is longer than this. */
  const SoftMin := 500
  /** A chunk longer than this after a line is appended is closed. */
  const HardMax := 3500

  /** `line.startsWith('#')` */
  predicate IsHeading(s: string)
  {
    |s| > 0 && s[0] == '#'
  }

  /** The loop's state: the chunks pushed so far (`groupedChunks`) and `currentChunk`. */
  datatype Buffer = Buffer(grouped: seq<string>, current: string)

  /** One iteration of the loop over the lines. */
  function Step(b: Buffer, line: string): Buffer
  {
    if IsHeading(line) && |b.current| > SoftMin then
      Buffer(b.grouped + [b.current], line + "\n")
    else
      var c := b.current + line + "\n";
      if |c| > HardMax then Buffer(b.grouped + [c], "") else Buffer(b.grouped, c)
  }

  /** The loop run over `lines`, starting from `b`. */
  function Fold(b: Buffer, lines: seq<string>): Buffer
    decreases |lines|
  {
    if lines == [] then b else Fold(Step(b, lines[0]), lines[1..])
  }

  /** The chunks before the whitespace filter: the loop, then the final non-empty buffer. */
  function Group(markdown: string): seq<string>
  {
    var b := Fold(Buffer([], ""), Split(markdown, '\n'));
    if b.current != "" then b.grouped + [b.current] else b.grouped
  }

  /** `chunks.filter(c => c.trim().length > 0)` */
  function KeepNonBlank(chunks: seq<string>): seq<string>
  {
    if chunks == [] then []
    else (if |Trim(chunks[0])| > 0 then [chunks[0]] else []) + KeepNonBlank(chunks[1..])
  }

  /** The filter keeps some of the chunks, each with something left after `trim()`. */
  lemma {:induction false} KeepNonBlankSpec(chunks: seq<string>)
    ensures |KeepNonBlank(chunks)| <= |chunks|
    ensures forall i :: 0 <= i < |KeepNonBlank(chunks)| ==>
              KeepNonBlank(chunks)[i] in chunks && |Trim(KeepNonBlank(chunks)[i])| > 0
  {
    if chunks != [] {
      KeepNonBlankSpec(chunks[1..]);
      var head := if |Trim(chunks[0])| > 0 then [chunks[0]] else [];
      assert KeepNonBlank(chunks) == head + KeepNonBlank(chunks[1..]);
      assert forall c :: c in chunks[1..] ==> c in chunks;
    }
  }

  /** `a` is `b` with some elements left out, the rest in their order. */
  predicate IsSubsequence(a: seq<string>, b: seq<string>)
    decreases |b|
  {
    if a == [] then true
    else if b == [] then false
    else if a[0] == b[0] then IsSubsequence(a[1..], b[1..])
    else IsSubsequence(a, b[1..])
  }

  /** The filter keeps the chunks it keeps in their order. */
  lemma {:induction false} KeepNonBlankOrder(chunks: seq<string>)
    ensures IsSubsequence(KeepNonBlank(chunks), chunks)
  {
    if chunks != [] {
      var rest := chunks[1..];
      KeepNonBlankOrder(rest);
      var kept := KeepNonBlank(chunks);
      if |Trim(chunks[0])| > 0 {
        assert kept == [chunks[0]] + KeepNonBlank(rest);
        assert kept[1..] == KeepNonBlank(rest);
      } else {
        assert kept == KeepNonBlank(rest);
        KeepNonBlankSpec(rest);
        if kept != [] {
          assert |Trim(kept[0])| > 0;
        }
      }
    }
  }

  /** The filter keeps every non-blank chunk as often as it occurs, and no blank one. */
  lemma {:induction false} KeepNonBlankCount(chunks: seq<string>, c: string)
    ensures multiset(KeepNonBlank(chunks))[c] == if |Trim(c)| > 0 then multiset(chunks)[c] else 0
  {
    if chunks != [] {
      var rest := chunks[1..];
      KeepNonBlankCount(rest, c);
      var head := if |Trim(chunks[0])| > 0 then [chunks[0]] else [];
      assert KeepNonBlank(chunks) == head + KeepNonBlank(rest);
      assert chunks == [chunks[0]] + rest;
      assert multiset(KeepNonBlank(chunks)) == multiset(head) + multiset(KeepNonBlank(rest));
    }
  }

  /** Every non-blank chunk survives the filter. */
  lemma KeepNonBlankKeeps(chunks: seq<string>, c: string)
    requires c in chunks && |Trim(c)| > 0
    ensures c in KeepNonBlank(chunks)
  {
    KeepNonBlankCount(chunks, c);
  }

  /** What the `chunk-content` step returns. */
  function Chunks(markdown: string): seq<string>
  {
    KeepNonBlank(Group(markdown))
  }

  /** The lines, each followed by the "\n" the loop appends to it. */
  function Terminated(lines: seq<string>): string
  {
    if lines == [] then "" else lines[0] + "\n" + Terminated(lines[1..])
  }

  /** The text with every whitespace character removed. */
  function Strip(s: string): string
  {
    if s == [] then [] else (if IsWhitespace(s[0]) then [] else [s[0]]) + Strip(s[1..])
  }

  // ---------------------------------------------------------------------------
  // The shape of a chunk.

  predicate EndsWithNewline(s: string)
  {
    |s| > 0 && s[|s| - 1] == '\n'
  }

  /** A buffer holding one heading line and its newline, as set when a heading closes a chunk. */
  predicate IsHeadingLine(s: string)
  {
    EndsWithNewline(s) && s[0] == '#' && '\n' !in s[..|s| - 1]
  }

  /** What the buffer can be between iterations: within the hard maximum, or a lone heading line. */
  predicate BufferBound(s: string)
  {
    |s| <= HardMax || IsHeadingLine(s)
  }

  /** The last line of `s`, with its newline, begins at index `k`. */
  predicate LastLineAt(s: string, k: int)
  {
    0 <= k < |s| && EndsWithNewline(s) && '\n' !in s[k..|s| - 1]
  }

  /**
   * A chunk is a buffer as above, or such a buffer followed by one more line:
   * the line whose addition took it past the hard maximum.
   */
  ghost predicate ChunkBound(s: string)
  {
    BufferBound(s) || exists k :: LastLineAt(s, k) && BufferBound(s[..k])
  }

  /**
   * How a chunk `g` is closed when `next` follows it: every closed chunk is past
   * the soft minimum, and one that is not followed by a heading was closed by the
   * hard maximum.
   */
  predicate Break(g: string, next: string)
  {
    |g| > SoftMin && (!IsHeading(next) ==> |g| > HardMax)
  }

  ghost predicate Inv(b: Buffer)
  {
    && (forall i :: 0 <= i < |b.grouped| ==> EndsWithNewline(b.grouped[i]) && ChunkBound(b.grouped[i]))
    && (forall i :: 0 <= i < |b.grouped| - 1 ==> Break(b.grouped[i], b.grouped[i + 1]))
    && (b.current == "" || EndsWithNewline(b.current))
    && BufferBound(b.current)
    && (|b.grouped| > 0 ==> Break(b.grouped[|b.grouped| - 1], b.current))
  }

  // ---------------------------------------------------------------------------
  // Round trip: the chunks, before the filter, concatenate to the text plus "\n".

  lemma StepConcat(b: Buffer, line: string)
    ensures Concat(Step(b, line).grouped) + Step(b, line).current
            == Concat(b.grouped) + b.current + line + "\n"
  {
    if IsHeading(line) && |b.current| > SoftMin {
      ConcatSnoc(b.grouped, b.current);
    } else if |b.current + line + "\n"| > HardMax {
      ConcatSnoc(b.grouped, b.current + line + "\n");
    }
  }

  lemma {:induction false} FoldConcat(b: Buffer, lines: seq<string>)
    ensures Concat(Fold(b, lines).grouped) + Fold(b, lines).current
            == Concat(b.grouped) + b.current + Terminated(lines)
    decreases |lines|
  {
    if lines != [] {
      StepConcat(b, lines[0]);
      FoldConcat(Step(b, lines[0]), lines[1..]);
    }
  }

  lemma {:induction false} TerminatedJoin(lines: seq<string>)
    requires |lines| >= 1
    ensures Terminated(lines) == Join(lines, "\n") + "\n"
  {
    if |lines| > 1 {
      TerminatedJoin(lines[1..]);
    }
  }

  /** Every split line is appended once, in order, with its "\n", and the last buffer is kept. */
  lemma GroupConcat(markdown: string)
    ensures Concat(Group(markdown)) == markdown + "\n"
  {
    var lines := Split(markdown, '\n');
    var b := Fold(Buffer([], ""), lines);
    FoldConcat(Buffer([], ""), lines);
    TerminatedJoin(lines);
    JoinSplit(markdown, '\n');
    assert Concat(b.grouped) + b.current == markdown + "\n";
    if b.current != "" {
      ConcatSnoc(b.grouped, b.current);
    } else {
      assert Group(markdown) == b.grouped;
    }
  }

  // ---------------------------------------------------------------------------
  // Split conditions and length bounds.

  lemma StepInv(b: Buffer, line: string)
    requires Inv(b)
    requires '\n' !in line
    ensures Inv(Step(b, line))
  {
    if IsHeading(line) && |b.current| > SoftMin {
      StepInvHeading(b, line);
    } else if |b.current + line + "\n"| > HardMax {
      StepInvOverflow(b, line);
    } else {
      StepInvAppend(b, line);
    }
  }

  /** A heading after more than 500 characters pushes the buffer and starts over with the heading. */
  lemma StepInvHeading(b: Buffer, line: string)
    requires Inv(b) && '\n' !in line
    requires IsHeading(line) && |b.current| > SoftMin
    ensures Inv(Step(b, line))
  {
    var nl := line + "\n";
    assert nl[..|nl| - 1] == line;
    assert IsHeadingLine(nl);
    assert Step(b, line) == Buffer(b.grouped + [b.current], nl);
  }

  /** The buffer with its first character kept: appending a line does not change whether it opens with '#'. */
  lemma AppendBreak(b: Buffer, line: string)
    requires Inv(b)
    ensures |b.grouped| > 0 ==> Break(b.grouped[|b.grouped| - 1], b.current + line + "\n")
  {
    var c := b.current + line + "\n";
    if b.current != "" {
      assert c[0] == b.current[0];
    } else {
      assert !IsHeading(b.current);
    }
  }

  /** A line that keeps the buffer within 3500 characters is appended to it. */
  lemma StepInvAppend(b: Buffer, line: string)
    requires Inv(b) && '\n' !in line
    requires !(IsHeading(line) && |b.current| > SoftMin)
    requires |b.current + line + "\n"| <= HardMax
    ensures Inv(Step(b, line))
  {
    AppendBreak(b, line);
    assert Step(b, line) == Buffer(b.grouped, b.current + line + "\n");
  }

  /** The chunk closed by the hard maximum is a bounded buffer plus its last line. */
  lemma OverflowBound(cur: string, line: string)
    requires BufferBound(cur) && '\n' !in line
    ensures EndsWithNewline(cur + line + "\n") && ChunkBound(cur + line + "\n")
  {
    var c := cur + line + "\n";
    assert c[..|cur|] == cur;
    assert c[|cur|..|c| - 1] == line;
    assert LastLineAt(c, |cur|);
  }

  /** A line that takes the buffer past 3500 characters closes it, and the buffer starts empty. */
  lemma StepInvOverflow(b: Buffer, line: string)
    requires Inv(b) && '\n' !in line
    requires !(IsHeading(line) && |b.current| > SoftMin)
    requires |b.current + line + "\n"| > HardMax
    ensures Inv(Step(b, line))
  {
    var c := b.current + line + "\n";
    AppendBreak(b, line);
    OverflowBound(b.current, line);
    assert Step(b, line) == Buffer(b.grouped + [c], "");
    assert Break(c, "");
  }

  lemma {:induction false} FoldInv(b: Buffer, lines: seq<string>)
    requires Inv(b)
    requires forall i :: 0 <= i < |lines| ==> '\n' !in lines[i]
    ensures Inv(Fold(b, lines))
    decreases |lines|
  {
    if lines != [] {
      StepInv(b, lines[0]);
      FoldInv(Step(b, lines[0]), lines[1..]);
    }
  }

  /**
   * Every chunk before the filter ends with "\n" and obeys `ChunkBound`; every chunk
   * but the last is longer than 500 characters, and one that is not followed by a
   * chunk opening with '#' is longer than 3500.
   */
  lemma GroupShape(markdown: string)
    ensures forall i :: 0 <= i < |Group(markdown)| ==>
              EndsWithNewline(Group(markdown)[i]) && ChunkBound(Group(markdown)[i])
    ensures forall i :: 0 <= i < |Group(markdown)| - 1 ==> Break(Group(markdown)[i], Group(markdown)[i + 1])
  {
    var b := Fold(Buffer([], ""), Split(markdown, '\n'));
    FoldInv(Buffer([], ""), Split(markdown, '\n'));
    if b.current != "" {
      var g := b.grouped + [b.current];
      assert g[|g| - 1] == b.current;
      assert forall i :: 0 <= i < |b.grouped| ==> g[i] == b.grouped[i];
    }
  }

  lemma {:induction false} KeepNonBlankButLast(chunks: seq<string>)
    requires forall i :: 0 <= i < |chunks| - 1 ==> |chunks[i]| > SoftMin
    ensures forall i :: 0 <= i < |KeepNonBlank(chunks)| - 1 ==> |KeepNonBlank(chunks)[i]| > SoftMin
  {
    if |chunks| > 1 {
      KeepNonBlankButLast(chunks[1..]);
      var rest := KeepNonBlank(chunks[1..]);
      if |Trim(chunks[0])| > 0 {
        assert KeepNonBlank(chunks) == [chunks[0]] + rest;
      } else {
        assert KeepNonBlank(chunks) == rest;
      }
    } else if |chunks| == 1 {
      assert KeepNonBlank(chunks[1..]) == [];
    }
  }

  /**
   * Every chunk returned has a non-whitespace character, ends with "\n" and obeys
   * `ChunkBound`; every chunk but the last is longer than the soft minimum.
   */
  lemma ChunksShape(markdown: string)
    ensures forall i :: 0 <= i < |Chunks(markdown)| ==>
              HasContent(Chunks(markdown)[i]) && EndsWithNewline(Chunks(markdown)[i])
              && ChunkBound(Chunks(markdown)[i])
    ensures forall i :: 0 <= i < |Chunks(markdown)| - 1 ==> |Chunks(markdown)[i]| > SoftMin
  {
    GroupShape(markdown);
    var g := Group(markdown);
    assert forall i :: 0 <= i < |g| - 1 ==> |g[i]| > SoftMin by {
      forall i | 0 <= i < |g| - 1 ensures |g[i]| > SoftMin {
        assert Break(g[i], g[i + 1]);
      }
    }
    KeepNonBlankButLast(g);
    KeepNonBlankSpec(g);
    forall i | 0 <= i < |Chunks(markdown)|
      ensures HasContent(Chunks(markdown)[i])
    {
      TrimNonEmpty(Chunks(markdown)[i]);
    }
  }

  // ---------------------------------------------------------------------------
  // Content: the filter only drops whitespace.

  lemma {:induction false} StripAppend(a: string, b: string)
    ensures Strip(a + b) == Strip(a) + Strip(b)
  {
    if a != [] {
      var head := if IsWhitespace(a[0]) then [] else [a[0]];
      assert (a + b)[0] == a[0];
      assert (a + b)[1..] == a[1..] + b;
      StripAppend(a[1..], b);
      calc {
        Strip(a + b);
        head + Strip(a[1..] + b);
        head + (Strip(a[1..]) + Strip(b));
        (head + Strip(a[1..])) + Strip(b);
        Strip(a) + Strip(b);
      }
    } else {
      assert a + b == b;
    }
  }

  lemma {:induction false} StripEmpty(s: string)
    ensures Strip(s) == [] <==> !HasContent(s)
  {
    if s != [] {
      StripEmpty(s[1..]);
      HasContentAppend([s[0]], s[1..]);
      assert [s[0]] + s[1..] == s;
      assert HasContent([s[0]]) <==> !IsWhitespace(s[0]) by {
        if !IsWhitespace(s[0]) { assert [s[0]][0] == s[0]; }
      }
    }
  }

  lemma {:induction false} KeepNonBlankStrip(chunks: seq<string>)
    ensures Strip(Concat(KeepNonBlank(chunks))) == Strip(Concat(chunks))
  {
    if chunks != [] {
      var rest := KeepNonBlank(chunks[1..]);
      KeepNonBlankStrip(chunks[1..]);
      StripAppend(chunks[0], Concat(chunks[1..]));
      if |Trim(chunks[0])| > 0 {
        assert KeepNonBlank(chunks) == [chunks[0]] + rest;
        assert ([chunks[0]] + rest)[1..] == rest;
        StripAppend(chunks[0], Concat(rest));
      } else {
        assert KeepNonBlank(chunks) == rest;
        TrimNonEmpty(chunks[0]);
        StripEmpty(chunks[0]);
      }
      assert Concat(chunks) == chunks[0] + Concat(chunks[1..]);
    }
  }

  /** Ignoring whitespace, the chunks returned concatenate to the parsed text. */
  lemma ChunksContent(markdown: string)
    ensures Strip(Concat(Chunks(markdown))) == Strip(markdown)
  {
    GroupConcat(markdown);
    KeepNonBlankStrip(Group(markdown));
    StripAppend(markdown, "\n");
  }

  /** No chunk comes out exactly when the parsed text is all whitespace. */
  lemma ChunksEmptyIff(markdown: string)
    ensures Chunks(markdown) == [] <==> !HasContent(markdown)
  {
    ChunksContent(markdown);
    StripEmpty(markdown);
    var cs := Chunks(markdown);
    if cs != [] {
      ChunksShape(markdown);
      StripEmpty(cs[0]);
      StripAppend(cs[0], Concat(cs[1..]));
    }
  }

  // ---------------------------------------------------------------------------
  // A text no longer than the soft minimum.

  lemma {:induction false} FoldShort(b: Buffer, lines: seq<string>)
    requires |b.current| + |Terminated(lines)| <= SoftMin
    ensures Fold(b, lines) == Buffer(b.grouped, b.current + Terminated(lines))
    decreases |lines|
  {
    if lines != [] {
      var c := b.current + lines[0] + "\n";
      assert Step(b, lines[0]) == Buffer(b.grouped, c);
      FoldShort(Buffer(b.grouped, c), lines[1..]);
    }
  }

  /** A text with content whose length plus one is at most 500 gives exactly one chunk. */
  lemma ShortDocument(markdown: string)
    requires |markdown| + 1 <= SoftMin
    requires HasContent(markdown)
    ensures Chunks(markdown) == [markdown + "\n"]
  {
    GroupShort(markdown);
    HasContentAppend(markdown, "\n");
    TrimNonEmpty(markdown + "\n");
    KeepNonBlankOne(markdown + "\n");
  }

  lemma GroupShort(markdown: string)
    requires |markdown| + 1 <= SoftMin
    ensures Group(markdown) == [markdown + "\n"]
  {
    var lines := Split(markdown, '\n');
    TerminatedJoin(lines);
    JoinSplit(markdown, '\n');
    FoldShort(Buffer([], ""), lines);
    assert Fold(Buffer([], ""), lines) == Buffer([], markdown + "\n");
  }

  lemma KeepNonBlankOne(c: string)
    requires |Trim(c)| > 0
    ensures KeepNonBlank([c]) == [c]
  {
    assert [c][1..] == [];
  }

  // ---------------------------------------------------------------------------
  // The loop of the source.

  /** The `chunk-content` step: split into lines, group them, drop blank chunks. */
  method ChunkContent(markdownContent: string) returns (chunks: seq<string>)
    ensures chunks == Chunks(markdownContent)
    ensures forall i :: 0 <= i < |chunks| ==>
              HasContent(chunks[i]) && EndsWithNewline(chunks[i]) && ChunkBound(chunks[i])
    ensures forall i :: 0 <= i < |chunks| - 1 ==> |chunks[i]| > SoftMin
  {
    var lines := Split(markdownContent, '\n');
    var groupedChunks: seq<string> := [];
    var currentChunk := "";
    for k := 0 to |lines|
      invariant Fold(Buffer(groupedChunks, currentChunk), lines[k..]) == Fold(Buffer([], ""), lines)
    {
      var line := lines[k];
      assert lines[k..][1..] == lines[k + 1..];
      if IsHeading(line) && |currentChunk| > SoftMin {
        groupedChunks := groupedChunks + [currentChunk];
        currentChunk := line + "\n";
      } else {
        currentChunk := currentChunk + line + "\n";
        if |currentChunk| > HardMax {
          groupedChunks := groupedChunks + [currentChunk];
          currentChunk := "";
        }
      }
    }
    if currentChunk != "" {
      groupedChunks := groupedChunks + [currentChunk];
    }
    chunks := KeepNonBlank(groupedChunks);
    ChunksShape(markdownContent);
  }
}
