/** Pass 2 of markdown_comments_parse_markdown(): over the strings pass 1 produced,
    consecutive plain-text lines are gathered into one `<p>` paragraph, which is
    inline-formatted once; empty() lines and block lines end a paragraph, and block
    lines are copied through. */
module Paragraphs {
  import opened Text
  import opened Host
  import opened Inline

  /** An opening `h1` to `h6`, `ul`, `ol` or `li` tag at the start of t. */
  predicate StartsWithOpenTag(t: string) {
    |t| >= 4 && t[0] == '<' && t[3] == '>'
    && ((t[1] == 'h' && '1' <= t[2] <= '6')
        || (t[1] == 'u' && t[2] == 'l') || (t[1] == 'o' && t[2] == 'l') || (t[1] == 'l' && t[2] == 'i'))
  }

  /** A closing `ul` or `ol` tag at the start of t. */
  predicate StartsWithCloseTag(t: string) {
    |t| >= 5 && t[0] == '<' && t[1] == '/' && (t[2] == 'u' || t[2] == 'o') && t[3] == 'l' && t[4] == '>'
  }

  predicate StartsWithBlockTag(t: string) {
    StartsWithOpenTag(t) || StartsWithCloseTag(t)
  }

  /** What pass 2 does with a line, judged on the line after trim(). */
  datatype Role = Boundary | BlockRole | ProseRole

  function RoleOf(t: string): Role {
    if IsPhpEmpty(t) then Boundary
    else if StartsWithBlockTag(t) then BlockRole
    else ProseRole
  }

  function TrimAll(lines: seq<string>): (r: seq<string>)
    ensures |r| == |lines|
    ensures forall i :: 0 <= i < |lines| ==> r[i] == Trim(lines[i])
  {
    if lines == [] then [] else [Trim(lines[0])] + TrimAll(lines[1..])
  }

  // ---------------------------------------------------------------------------
  // The reference: maximal runs of prose lines.
  // ---------------------------------------------------------------------------

  /** A piece of pass 2's output: a block line, or a paragraph of trimmed prose lines. */
  datatype Chunk = BlockChunk(line: string) | Paragraph(lines: seq<string>)

  /** The length of the run of prose lines that `lines` starts with. */
  function ProseRun(lines: seq<string>): (n: nat)
    ensures n <= |lines|
    ensures forall i :: 0 <= i < n ==> RoleOf(lines[i]) == ProseRole
    ensures n == |lines| || RoleOf(lines[n]) != ProseRole
  {
    if lines != [] && RoleOf(lines[0]) == ProseRole then 1 + ProseRun(lines[1..]) else 0
  }

  /** Pass 2 described without its buffer, over the trimmed lines: empty() lines vanish,
      a block line is one chunk, and each maximal run of prose lines is one paragraph. */
  function Chunks(lines: seq<string>): seq<Chunk>
    decreases |lines|
  {
    if lines == [] then []
    else if RoleOf(lines[0]) == Boundary then Chunks(lines[1..])
    else if RoleOf(lines[0]) == BlockRole then [BlockChunk(lines[0])] + Chunks(lines[1..])
    else
      var n := ProseRun(lines);
      [Paragraph(lines[..n])] + Chunks(lines[n..])
  }

  /** A paragraph is its lines joined by single spaces, inline-formatted once, in `<p>`. */
  function RenderChunk(wp: WordPress, ch: Chunk): string {
    match ch
    case BlockChunk(t) => t
    case Paragraph(ps) => "<p>" + Format(wp, Join(ps, " ")) + "</p>"
  }

  function RenderChunks(wp: WordPress, chs: seq<Chunk>): (r: seq<string>)
    ensures |r| == |chs|
    ensures forall i :: 0 <= i < |chs| ==> r[i] == RenderChunk(wp, chs[i])
  {
    if chs == [] then [] else [RenderChunk(wp, chs[0])] + RenderChunks(wp, chs[1..])
  }

  /** Every line is trimmed first. */
  function SecondPass(wp: WordPress, lines: seq<string>): seq<string> {
    RenderChunks(wp, Chunks(TrimAll(lines)))
  }

  // ---------------------------------------------------------------------------
  // The loop of the source, with its paragraph buffer.
  // ---------------------------------------------------------------------------

  /** The chunks still to come when `current` holds the prose lines read so far of an
      unfinished paragraph. */
  function ChunksAfter(current: seq<string>, lines: seq<string>): seq<Chunk> {
    if current == [] then Chunks(lines)
    else
      var n := ProseRun(lines);
      [Paragraph(current + lines[..n])] + Chunks(lines[n..])
  }

  lemma RenderChunksAppend(wp: WordPress, a: seq<Chunk>, b: seq<Chunk>)
    ensures RenderChunks(wp, a + b) == RenderChunks(wp, a) + RenderChunks(wp, b)
  {
  }

  /** Flushing the buffer: the paragraph it holds, rendered. */
  function Flush(wp: WordPress, current: seq<string>): seq<string> {
    if current == [] then [] else [RenderChunk(wp, Paragraph(current))]
  }

  /** A line that is not prose ends the paragraph in the buffer. */
  lemma ChunksAfterBreak(wp: WordPress, current: seq<string>, lines: seq<string>)
    requires lines != [] && RoleOf(lines[0]) != ProseRole
    ensures RenderChunks(wp, ChunksAfter(current, lines)) == Flush(wp, current) + RenderChunks(wp, Chunks(lines))
  {
    if current != [] {
      assert ProseRun(lines) == 0;
      assert lines[..0] == [] && lines[0..] == lines;
      assert current + [] == current;
      RenderChunksAppend(wp, [Paragraph(current)], Chunks(lines));
    }
  }

  /** A prose line joins the paragraph in the buffer. */
  lemma ChunksAfterProse(current: seq<string>, lines: seq<string>)
    requires lines != [] && RoleOf(lines[0]) == ProseRole
    ensures ChunksAfter(current, lines) == ChunksAfter(current + [lines[0]], lines[1..])
  {
    var n := ProseRun(lines);
    var rest := lines[1..];
    var m := ProseRun(rest);
    var t := lines[0];
    assert n == 1 + m;
    assert lines[..n] == [t] + rest[..m];
    assert lines[n..] == rest[m..];
    if current == [] {
      assert [] + [t] == [t];
    } else {
      assert current + [t] + rest[..m] == current + ([t] + rest[..m]);
    }
  }

  /** Finishing the current paragraph: when the buffer is not empty its lines are joined
      with spaces, inline-formatted, wrapped in `<p>` and appended, and the buffer emptied. */
  method FlushParagraph(wp: WordPress, finalOutput0: seq<string>, current0: seq<string>)
    returns (finalOutput: seq<string>, current: seq<string>)
    ensures finalOutput == finalOutput0 + Flush(wp, current0)
    ensures current == []
  {
    finalOutput, current := finalOutput0, current0;
    if current != [] {
      var paragraphText := Join(current, " ");
      paragraphText := Format(wp, paragraphText);
      finalOutput := finalOutput + ["<p>" + paragraphText + "</p>"];
      current := [];
    }
  }

  /** The body of pass 2's loop for one line. */
  method SecondPassLine(wp: WordPress, finalOutput0: seq<string>, current0: seq<string>, raw: string)
    returns (finalOutput: seq<string>, current: seq<string>)
    ensures RoleOf(Trim(raw)) == Boundary ==> finalOutput == finalOutput0 + Flush(wp, current0) && current == []
    ensures RoleOf(Trim(raw)) == BlockRole ==>
      finalOutput == finalOutput0 + Flush(wp, current0) + [Trim(raw)] && current == []
    ensures RoleOf(Trim(raw)) == ProseRole ==> finalOutput == finalOutput0 && current == current0 + [Trim(raw)]
  {
    finalOutput, current := finalOutput0, current0;
    var line := Trim(raw);
    if IsPhpEmpty(line) {
      finalOutput, current := FlushParagraph(wp, finalOutput, current);
    } else if StartsWithBlockTag(line) {
      finalOutput, current := FlushParagraph(wp, finalOutput, current);
      finalOutput := finalOutput + [line];
    } else {
      current := current + [line];
    }
  }

  /** How one line moves pass 2 on: the output so far and the chunks still to come. */
  lemma SecondPassStep(wp: WordPress, out0: seq<string>, current0: seq<string>, out: seq<string>,
                       current: seq<string>, lines: seq<string>)
    requires lines != []
    requires RoleOf(lines[0]) == Boundary ==> out == out0 + Flush(wp, current0) && current == []
    requires RoleOf(lines[0]) == BlockRole ==> out == out0 + Flush(wp, current0) + [lines[0]] && current == []
    requires RoleOf(lines[0]) == ProseRole ==> out == out0 && current == current0 + [lines[0]]
    ensures out0 + RenderChunks(wp, ChunksAfter(current0, lines)) ==
      out + RenderChunks(wp, ChunksAfter(current, lines[1..]))
  {
    var rest := lines[1..];
    if RoleOf(lines[0]) == ProseRole {
      ChunksAfterProse(current0, lines);
    } else {
      ChunksAfterBreak(wp, current0, lines);
      ConcatAssoc(out0, Flush(wp, current0), RenderChunks(wp, Chunks(lines)));
      if RoleOf(lines[0]) == BlockRole {
        RenderChunksAppend(wp, [BlockChunk(lines[0])], Chunks(rest));
        ConcatAssoc(out0 + Flush(wp, current0), [lines[0]], RenderChunks(wp, Chunks(rest)));
      }
    }
  }

  /** The loop of pass 2, with its output and its paragraph buffer; the paragraph
      still open after the last line is flushed. */
  method SecondPassLoop(wp: WordPress, lines: seq<string>) returns (finalOutput: seq<string>)
    ensures finalOutput == SecondPass(wp, lines)
  {
    ghost var trimmed := TrimAll(lines);
    finalOutput := [];
    var current: seq<string> := [];
    assert trimmed[0..] == trimmed;
    for i := 0 to |lines|
      invariant finalOutput + RenderChunks(wp, ChunksAfter(current, trimmed[i..])) == SecondPass(wp, lines)
    {
      ghost var rest := trimmed[i..];
      assert rest[0] == Trim(lines[i]) && rest[1..] == trimmed[i + 1..];
      ghost var out0, current0 := finalOutput, current;
      finalOutput, current := SecondPassLine(wp, finalOutput, current, lines[i]);
      SecondPassStep(wp, out0, current0, finalOutput, current, rest);
    }
    ChunksAfterEnd(wp, current);
    finalOutput, current := FlushParagraph(wp, finalOutput, current);
  }

  /** At the end of the lines only the paragraph in the buffer is left. */
  lemma ChunksAfterEnd(wp: WordPress, current: seq<string>)
    ensures RenderChunks(wp, ChunksAfter(current, [])) == Flush(wp, current)
  {
    if current != [] {
      assert ProseRun([]) == 0;
      assert current + [] == current;
      assert [Paragraph(current)][1..] == [];
    }
  }

  // ---------------------------------------------------------------------------
  // What the grouping keeps.
  // ---------------------------------------------------------------------------

  /** The lines a chunk holds. */
  function Unchunk(chs: seq<Chunk>): seq<string> {
    if chs == [] then []
    else (match chs[0] case BlockChunk(t) => [t] case Paragraph(ps) => ps) + Unchunk(chs[1..])
  }

  /** The lines that are not empty(). */
  function Kept(lines: seq<string>): seq<string> {
    if lines == [] then []
    else (if RoleOf(lines[0]) == Boundary then [] else [lines[0]]) + Kept(lines[1..])
  }

  lemma {:induction false} UnchunkAppend(a: seq<Chunk>, b: seq<Chunk>)
    ensures Unchunk(a + b) == Unchunk(a) + Unchunk(b)
    decreases |a|
  {
    if a == [] {
      assert a + b == b;
    } else {
      assert (a + b)[1..] == a[1..] + b;
      UnchunkAppend(a[1..], b);
    }
  }

  lemma {:induction false} KeptProse(lines: seq<string>, n: nat)
    requires n <= ProseRun(lines)
    ensures Kept(lines) == lines[..n] + Kept(lines[n..])
    decreases n
  {
    if n > 0 {
      KeptProse(lines[1..], n - 1);
      assert lines[..n] == [lines[0]] + lines[1..][..n - 1];
      assert lines[1..][n - 1..] == lines[n..];
    }
  }

  /** No line is lost, added or moved: the chunks hold exactly the lines that are not
      empty(), in input order. */
  lemma {:induction false} ChunksKeepLines(lines: seq<string>)
    ensures Unchunk(Chunks(lines)) == Kept(lines)
    decreases |lines|
  {
    if lines != [] {
      if RoleOf(lines[0]) == Boundary {
        ChunksKeepLines(lines[1..]);
      } else if RoleOf(lines[0]) == BlockRole {
        ChunksKeepLines(lines[1..]);
        UnchunkAppend([BlockChunk(lines[0])], Chunks(lines[1..]));
      } else {
        var n := ProseRun(lines);
        ChunksKeepLines(lines[n..]);
        UnchunkAppend([Paragraph(lines[..n])], Chunks(lines[n..]));
        KeptProse(lines, n);
      }
    }
  }

  /** Each chunk is of one kind: a block chunk is a block line, and a paragraph is a
      non-empty run of prose lines. */
  predicate Sorted(chs: seq<Chunk>) {
    forall i :: 0 <= i < |chs| ==>
      match chs[i]
      case BlockChunk(t) => RoleOf(t) == BlockRole
      case Paragraph(ps) => ps != [] && forall j :: 0 <= j < |ps| ==> RoleOf(ps[j]) == ProseRole
  }

  lemma {:induction false} ChunksSorted(lines: seq<string>)
    ensures Sorted(Chunks(lines))
    decreases |lines|
  {
    if lines != [] {
      if RoleOf(lines[0]) == Boundary {
        ChunksSorted(lines[1..]);
      } else if RoleOf(lines[0]) == BlockRole {
        ChunksSorted(lines[1..]);
      } else {
        ChunksSorted(lines[ProseRun(lines)..]);
      }
    }
  }

  /** A paragraph is never cut short: a run of prose lines followed by anything else is
      one paragraph, so two paragraphs are never adjacent without an empty() line between. */
  lemma ProseRunIsOneParagraph(prose: seq<string>, rest: seq<string>)
    requires prose != [] && forall i :: 0 <= i < |prose| ==> RoleOf(prose[i]) == ProseRole
    requires rest == [] || RoleOf(rest[0]) != ProseRole
    ensures Chunks(prose + rest) == [Paragraph(prose)] + Chunks(rest)
  {
    var lines := prose + rest;
    ProseRunOf(prose, rest);
    assert lines[..|prose|] == prose;
    assert lines[|prose|..] == rest;
  }

  lemma {:induction false} ProseRunOf(prose: seq<string>, rest: seq<string>)
    requires forall i :: 0 <= i < |prose| ==> RoleOf(prose[i]) == ProseRole
    requires rest == [] || RoleOf(rest[0]) != ProseRole
    ensures ProseRun(prose + rest) == |prose|
    decreases |prose|
  {
    if prose == [] {
      assert prose + rest == rest;
    } else {
      assert (prose + rest)[1..] == prose[1..] + rest;
      ProseRunOf(prose[1..], rest);
    }
  }
}
