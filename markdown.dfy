/** markdown_comments_parse_markdown() end to end (split into lines, pass 1, pass 2,
    join with line feeds) and the comment_text filter around it. */
module Markdown {
  import opened Text
  import opened Host
  import Inline
  import opened Blocks
  import opened Paragraphs

  /** The HTML the converter returns for a comment body. */
  function MarkdownToHtml(wp: WordPress, text: string): string {
    Join(SecondPass(wp, RenderAll(FirstPass(wp, Split(text)))), "\n")
  }

  /** The converter as the source runs it: the two loops, then the lines joined with line feeds. */
  method ParseMarkdown(wp: WordPress, text: string) returns (html: string)
    ensures html == MarkdownToHtml(wp, text)
  {
    var lines := Split(text);
    var output := FirstPassLoop(wp, lines);
    var finalOutput := SecondPassLoop(wp, RenderAll(output));
    html := Join(finalOutput, "\n");
  }

  // ---------------------------------------------------------------------------
  // How pass 2 reads what pass 1 wrote.
  // ---------------------------------------------------------------------------

  /** The fragments pass 1 can emit: raw text is always trimmed and never empty(). */
  predicate Emittable(f: Fragment) {
    f.Raw? ==> IsTrimmed(f.text) && !IsPhpEmpty(f.text)
  }

  /** What Classify returns: plain text is trimmed and never empty(). */
  predicate Sound(c: LineClass) {
    c.TextLine? ==> IsTrimmed(c.text) && !IsPhpEmpty(c.text)
  }

  lemma ClassifySound(raw: Line)
    ensures Sound(Classify(raw))
  {
    assert IsTrimmed(Trim(raw));
  }

  lemma {:induction false} EmitEmittable(wp: WordPress, cs: seq<LineClass>, cursor: Option<ListKind>)
    requires forall c | c in cs :: Sound(c)
    ensures forall f | f in Emit(wp, cs, cursor) :: Emittable(f)
    decreases |cs|
  {
    if cs != [] {
      var (out, next) := Step(wp, cursor, cs[0]);
      assert cs[0] in cs;
      EmitEmittable(wp, cs[1..], next);
      assert forall f | f in Tags(cursor, cs[0]) :: !f.Raw?;
    }
  }

  lemma FirstPassEmittable(wp: WordPress, lines: seq<Line>)
    ensures forall f | f in FirstPass(wp, lines) :: Emittable(f)
  {
    var cs := Classes(lines);
    forall c | c in cs
      ensures Sound(c)
    {
      var i :| 0 <= i < |cs| && cs[i] == c;
      ClassifySound(lines[i]);
    }
    EmitEmittable(wp, cs, None);
  }

  /** Every string pass 1 stores survives pass 2's trim() unchanged, and pass 2 sorts it
      back into what it was: a blank ends a paragraph, heading, list and item tags are
      block lines, and raw text is prose unless it starts with a block tag itself. */
  lemma RenderedRole(f: Fragment)
    requires Emittable(f)
    ensures IsTrimmed(RenderFragment(f)) && Trim(RenderFragment(f)) == RenderFragment(f)
    ensures f.Blank? ==> RoleOf(RenderFragment(f)) == Boundary
    ensures f.Heading? || f.Open? || f.Close? || f.Item? ==> RoleOf(RenderFragment(f)) == BlockRole
    ensures f.Raw? ==> RoleOf(RenderFragment(f)) == (if StartsWithBlockTag(f.text) then BlockRole else ProseRole)
  {
    var r := RenderFragment(f);
    match f {
      case Blank =>
        assert r == "";
      case Heading(n, html) =>
        var p, q := "<h" + [LevelDigit(n)] + ">", "</h" + [LevelDigit(n)] + ">";
        assert r == p + html + q;
        TagAround(p, html, q);
        assert '1' <= LevelDigit(n) <= '6';
        assert StartsWithOpenTag(r) && !IsPhpEmpty(r);
      case Open(k) =>
        assert r == "<ul>" || r == "<ol>";
        assert StartsWithOpenTag(r) && !IsPhpEmpty(r);
      case Close(k) =>
        assert r == "</ul>" || r == "</ol>";
        assert StartsWithCloseTag(r) && !IsPhpEmpty(r);
      case Item(_, html) =>
        assert r == "<li>" + html + "</li>";
        TagAround("<li>", html, "</li>");
        assert StartsWithOpenTag(r) && !IsPhpEmpty(r);
      case Raw(t) =>
        assert r == t;
    }
    TrimOfTrimmed(r);
  }

  /** A string wrapped in tags starts with the opening tag's characters and ends in '>'. */
  lemma TagAround(p: string, body: string, q: string)
    requires |p| == 4 && |q| >= 1
    ensures var r := p + body + q;
            |r| >= 5 && r[..4] == p && r[|r| - 1] == q[|q| - 1]
  {
    var r := p + body + q;
    assert r[..4] == p by {
      assert forall i | 0 <= i < 4 :: r[i] == p[i];
    }
  }

  /** The fragments that are not blanks. */
  function NonBlank(fs: seq<Fragment>): (r: seq<Fragment>)
    ensures forall f | f in r :: f in fs && !f.Blank?
  {
    if fs == [] then []
    else (if fs[0].Blank? then [] else [fs[0]]) + NonBlank(fs[1..])
  }

  lemma {:induction false} KeptRendered(fs: seq<Fragment>)
    requires forall f | f in fs :: Emittable(f)
    ensures Kept(TrimAll(RenderAll(fs))) == RenderAll(NonBlank(fs))
    decreases |fs|
  {
    if fs != [] {
      var f := fs[0];
      var head := if f.Blank? then [] else [f];
      var rest := TrimAll(RenderAll(fs[1..]));
      assert f in fs;
      TrimRenderCons(fs);
      KeptCons(RenderFragment(f), rest);
      RenderedRole(f);
      assert (if RoleOf(RenderFragment(f)) == Boundary then [] else [RenderFragment(f)]) == RenderAll(head);
      KeptRendered(fs[1..]);
      assert NonBlank(fs) == head + NonBlank(fs[1..]);
      RenderAllAppend(head, NonBlank(fs[1..]));
    }
  }

  lemma TrimRenderCons(fs: seq<Fragment>)
    requires fs != [] && Emittable(fs[0])
    ensures TrimAll(RenderAll(fs)) == [RenderFragment(fs[0])] + TrimAll(RenderAll(fs[1..]))
  {
    var r := RenderAll(fs);
    assert r == [RenderFragment(fs[0])] + RenderAll(fs[1..]);
    assert r[1..] == RenderAll(fs[1..]);
    RenderedRole(fs[0]);
  }

  lemma KeptCons(l: string, rest: seq<string>)
    ensures Kept([l] + rest) == (if RoleOf(l) == Boundary then [] else [l]) + Kept(rest)
  {
    assert ([l] + rest)[1..] == rest;
  }

  lemma {:induction false} RenderAllAppend(a: seq<Fragment>, b: seq<Fragment>)
    ensures RenderAll(a + b) == RenderAll(a) + RenderAll(b)
    decreases |a|
  {
    if a == [] {
      assert a + b == b;
    } else {
      assert (a + b)[1..] == a[1..] + b;
      RenderAllAppend(a[1..], b);
    }
  }

  /** Nothing pass 1 emits is lost, duplicated or reordered by pass 2: the lines of its
      chunks are the rendered fragments of pass 1 minus the blanks, in order. */
  lemma PassTwoKeepsPassOne(wp: WordPress, lines: seq<Line>)
    ensures Unchunk(Chunks(TrimAll(RenderAll(FirstPass(wp, lines))))) ==
            RenderAll(NonBlank(FirstPass(wp, lines)))
  {
    var fs := FirstPass(wp, lines);
    FirstPassEmittable(wp, lines);
    KeptRendered(fs);
    ChunksKeepLines(TrimAll(RenderAll(fs)));
  }

  lemma {:induction false} InUnchunk(chs: seq<Chunk>, t: string)
    requires t in Unchunk(chs)
    ensures exists i :: 0 <= i < |chs| && (chs[i] == BlockChunk(t) || (chs[i].Paragraph? && t in chs[i].lines))
    decreases |chs|
  {
    var head := match chs[0] case BlockChunk(u) => [u] case Paragraph(ps) => ps;
    assert Unchunk(chs) == head + Unchunk(chs[1..]);
    if t !in head {
      InUnchunk(chs[1..], t);
      var i :| 0 <= i < |chs[1..]| && (chs[1..][i] == BlockChunk(t) || (chs[1..][i].Paragraph? && t in chs[1..][i].lines));
      assert chs[i + 1] == chs[1..][i];
    }
  }

  /** Headings and list tags are never wrapped in a paragraph: each one pass 1 emits is a
      block line of its own in the output, and every paragraph line is raw text. */
  lemma TagsStayOutOfParagraphs(wp: WordPress, lines: seq<Line>)
    ensures var fs := FirstPass(wp, lines);
            var chs := Chunks(TrimAll(RenderAll(fs)));
            (forall f | f in fs && (f.Heading? || f.Open? || f.Close? || f.Item?) ::
               BlockChunk(RenderFragment(f)) in chs)
            && (forall ch, t | ch in chs && ch.Paragraph? && t in ch.lines :: Raw(t) in fs)
  {
    var fs := FirstPass(wp, lines);
    var chs := Chunks(TrimAll(RenderAll(fs)));
    FirstPassEmittable(wp, lines);
    PassTwoKeepsPassOne(wp, lines);
    ChunksSorted(TrimAll(RenderAll(fs)));
    forall f | f in fs && (f.Heading? || f.Open? || f.Close? || f.Item?)
      ensures BlockChunk(RenderFragment(f)) in chs
    {
      TagIsBlockChunk(fs, chs, f);
    }
    forall ch, t | ch in chs && ch.Paragraph? && t in ch.lines
      ensures Raw(t) in fs
    {
      ProseIsRaw(fs, chs, ch, t);
    }
  }

  lemma TagIsBlockChunk(fs: seq<Fragment>, chs: seq<Chunk>, f: Fragment)
    requires Unchunk(chs) == RenderAll(NonBlank(fs)) && Sorted(chs)
    requires f in fs && (f.Heading? || f.Open? || f.Close? || f.Item?)
    ensures BlockChunk(RenderFragment(f)) in chs
  {
    assert RoleOf(RenderFragment(f)) == BlockRole by {
      RenderedRole(f);
    }
    NonBlankKeeps(fs, f);
    BlockLineIsChunk(chs, RenderFragment(f));
  }

  /** A block line among sorted chunks is a block chunk of its own. */
  lemma BlockLineIsChunk(chs: seq<Chunk>, t: string)
    requires t in Unchunk(chs) && Sorted(chs) && RoleOf(t) == BlockRole
    ensures BlockChunk(t) in chs
  {
    InUnchunk(chs, t);
    var i :| 0 <= i < |chs| && (chs[i] == BlockChunk(t) || (chs[i].Paragraph? && t in chs[i].lines));
    assert chs[i] == BlockChunk(t);
  }

  lemma ProseIsRaw(fs: seq<Fragment>, chs: seq<Chunk>, ch: Chunk, t: string)
    requires Unchunk(chs) == RenderAll(NonBlank(fs)) && Sorted(chs)
    requires forall f | f in fs :: Emittable(f)
    requires ch in chs && ch.Paragraph? && t in ch.lines
    ensures Raw(t) in fs
  {
    var i :| 0 <= i < |chs| && chs[i] == ch;
    assert RoleOf(t) == ProseRole;
    UnchunkHas(chs, i, t);
    var kept := RenderAll(NonBlank(fs));
    var k :| 0 <= k < |kept| && kept[k] == t;
    var f := NonBlank(fs)[k];
    assert f in fs && !f.Blank? && Emittable(f);
    RenderedRole(f);
    assert f == Raw(t);
  }

  lemma NonBlankKeeps(fs: seq<Fragment>, f: Fragment)
    requires f in fs && !f.Blank?
    ensures RenderFragment(f) in RenderAll(NonBlank(fs))
  {
    NonBlankHas(fs, f);
    var k :| 0 <= k < |NonBlank(fs)| && NonBlank(fs)[k] == f;
    assert RenderAll(NonBlank(fs))[k] == RenderFragment(f);
  }

  lemma {:induction false} NonBlankHas(fs: seq<Fragment>, f: Fragment)
    requires f in fs && !f.Blank?
    ensures f in NonBlank(fs)
    decreases |fs|
  {
    if fs[0] != f {
      NonBlankHas(fs[1..], f);
    }
  }

  lemma {:induction false} UnchunkHas(chs: seq<Chunk>, i: nat, t: string)
    requires i < |chs| && chs[i].Paragraph? && t in chs[i].lines
    ensures t in Unchunk(chs)
    decreases i
  {
    if i > 0 {
      UnchunkHas(chs[1..], i - 1, t);
    }
  }

  // ---------------------------------------------------------------------------
  // Whole comments.
  // ---------------------------------------------------------------------------

  lemma {:induction false} EmitBlankLines(wp: WordPress, cs: seq<LineClass>)
    requires forall c | c in cs :: c == BlankLine
    ensures forall f | f in Emit(wp, cs, None) :: f.Blank?
    decreases |cs|
  {
    if cs != [] {
      assert cs[0] in cs;
      assert Emit(wp, cs, None) == [Blank] + Emit(wp, cs[1..], None);
      forall c | c in cs[1..]
        ensures c == BlankLine
      {
        assert c in cs;
      }
      EmitBlankLines(wp, cs[1..]);
    }
  }

  lemma {:induction false} NonBlankOfBlanks(fs: seq<Fragment>)
    requires forall f | f in fs :: f.Blank?
    ensures NonBlank(fs) == []
    decreases |fs|
  {
    if fs != [] {
      assert fs[0] in fs;
      NonBlankOfBlanks(fs[1..]);
    }
  }

  /** A comment whose every line is empty() after trim() (spaces, or a lone "0") converts
      to the empty string. */
  lemma EmptyLinesGiveNothing(wp: WordPress, text: string)
    requires forall l | l in Split(text) :: IsPhpEmpty(Trim(l))
    ensures MarkdownToHtml(wp, text) == ""
  {
    var lines := Split(text);
    var fs := FirstPass(wp, lines);
    BlankClasses(lines);
    EmitBlankLines(wp, Classes(lines));
    NonBlankOfBlanks(fs);
    PassTwoKeepsPassOne(wp, lines);
    NoChunksLeft(TrimAll(RenderAll(fs)));
  }

  lemma BlankClasses(lines: seq<Line>)
    requires forall l | l in lines :: IsPhpEmpty(Trim(l))
    ensures forall c | c in Classes(lines) :: c == BlankLine
  {
    var cs := Classes(lines);
    forall c | c in cs
      ensures c == BlankLine
    {
      var i :| 0 <= i < |cs| && cs[i] == c;
      assert lines[i] in lines;
    }
  }

  /** Chunks that hold no line are no chunks: every chunk holds at least one. */
  lemma NoChunksLeft(ls: seq<string>)
    requires Unchunk(Chunks(ls)) == []
    ensures Chunks(ls) == []
  {
    ChunksSorted(ls);
  }

  /** The comment "0" disappears: PHP's empty() is true for it. */
  lemma ZeroCommentIsEmpty(wp: WordPress)
    ensures MarkdownToHtml(wp, "0") == ""
  {
    SingleEmptyLine("0");
    EmptyLinesGiveNothing(wp, "0");
  }

  /** A text for which empty() holds is a single line, which trim() leaves empty(). */
  lemma SingleEmptyLine(z: string)
    requires IsPhpEmpty(z)
    ensures forall l | l in Split(z) :: IsPhpEmpty(Trim(l))
  {
    SplitSingleLine(z);
    TrimOfTrimmed(z);
  }

  /** A line of plain text is prose for pass 2 once pass 1 has copied it. */
  predicate IsPlain(t: Line) {
    Classify(t).TextLine? && !StartsWithBlockTag(Trim(t))
  }

  function Paragraph1(wp: WordPress, t: string): string {
    "<p>" + Inline.Format(wp, t) + "</p>"
  }

  /** One line of plain text becomes one paragraph of its trimmed, inline-formatted text. */
  lemma PlainLineIsParagraph(wp: WordPress, t: Line)
    requires IsPlain(t)
    ensures MarkdownToHtml(wp, t) == Paragraph1(wp, Trim(t))
  {
    assert FirstPass(wp, Split(t)) == [Raw(Trim(t))] by {
      SplitSingleLine(t);
      ClassesOne(t);
      PlainIsProse(t);
      EmitText(wp, Trim(t));
    }
    ProseAlone(wp, Trim(t));
  }

  lemma ProseAlone(wp: WordPress, tt: string)
    requires IsTrimmed(tt) && RoleOf(tt) == ProseRole
    ensures Join(SecondPass(wp, RenderAll([Raw(tt)])), "\n") == Paragraph1(wp, tt)
  {
    RenderOneRaw(tt);
    OneProseLine(wp, tt);
    JoinOne(Paragraph1(wp, tt), "\n");
  }

  lemma RenderOneRaw(tt: string)
    ensures RenderAll([Raw(tt)]) == [tt]
  {
    assert [Raw(tt)][1..] == [];
  }

  lemma JoinOne(x: string, sep: string)
    ensures Join([x], sep) == x
  {
  }

  /** Pass 2 on one trimmed line of prose: one paragraph. */
  lemma OneProseLine(wp: WordPress, tt: string)
    requires IsTrimmed(tt) && RoleOf(tt) == ProseRole
    ensures SecondPass(wp, [tt]) == [Paragraph1(wp, tt)]
  {
    assert TrimAll([tt]) == [tt] by {
      TrimOfTrimmed(tt);
    }
    assert Chunks([tt]) == [Paragraph([tt])] by {
      ProseRunIsOneParagraph([tt], []);
      assert [tt] + [] == [tt];
    }
    JoinOne(tt, " ");
    assert RenderChunks(wp, [Paragraph([tt])]) == [RenderChunk(wp, Paragraph([tt]))];
  }

  /** An item line outside any list opens its list. */
  lemma StepFreshItem(wp: WordPress, c: LineClass)
    requires c.ItemLine?
    ensures Step(wp, None, c).0 == [Open(c.kind), Item(c.kind, Inline.Format(wp, c.content))]
    ensures Step(wp, None, c).1 == Some(c.kind)
  {
    assert Tags(None, c) == [Open(c.kind)];
    assert Content(wp, c) == Item(c.kind, Inline.Format(wp, c.content));
  }

  /** An item line inside a list of its kind continues it. */
  lemma StepSameItem(wp: WordPress, c: LineClass)
    requires c.ItemLine?
    ensures Step(wp, Some(c.kind), c).0 == [Item(c.kind, Inline.Format(wp, c.content))]
    ensures Step(wp, Some(c.kind), c).1 == Some(c.kind)
  {
    assert Tags(Some(c.kind), c) == [];
    assert Content(wp, c) == Item(c.kind, Inline.Format(wp, c.content));
  }

  /** An item line inside a list of the other kind closes it and opens its own. */
  lemma StepOtherItem(wp: WordPress, k: ListKind, c: LineClass)
    requires c.ItemLine? && c.kind != k
    ensures Step(wp, Some(k), c).0 == [Close(k), Open(c.kind), Item(c.kind, Inline.Format(wp, c.content))]
    ensures Step(wp, Some(k), c).1 == Some(c.kind)
  {
    assert Tags(Some(k), c) == [Close(k), Open(c.kind)];
    assert Content(wp, c) == Item(c.kind, Inline.Format(wp, c.content));
  }

  /** Any other line closes the open list, if there is one, before its own fragment. */
  lemma StepNonItem(wp: WordPress, cursor: Option<ListKind>, c: LineClass)
    requires !c.ItemLine?
    ensures Step(wp, cursor, c).0 == Closing(cursor) + [Content(wp, c)]
    ensures Step(wp, cursor, c).1 == None
  {
  }

  /** Pass 1 on a class in front of others: that line's step, then the rest. */
  lemma EmitCons(wp: WordPress, c: LineClass, rest: seq<LineClass>, cursor: Option<ListKind>)
    ensures Emit(wp, [c] + rest, cursor) == Step(wp, cursor, c).0 + Emit(wp, rest, Step(wp, cursor, c).1)
  {
    assert ([c] + rest)[1..] == rest;
  }

  lemma EmitFreshItem(wp: WordPress, c: LineClass, rest: seq<LineClass>)
    requires c.ItemLine?
    ensures Emit(wp, [c] + rest, None) ==
            [Open(c.kind), Item(c.kind, Inline.Format(wp, c.content))] + Emit(wp, rest, Some(c.kind))
  {
    EmitCons(wp, c, rest, None);
    StepFreshItem(wp, c);
  }

  lemma EmitSameItem(wp: WordPress, c: LineClass, rest: seq<LineClass>)
    requires c.ItemLine?
    ensures Emit(wp, [c] + rest, Some(c.kind)) ==
            [Item(c.kind, Inline.Format(wp, c.content))] + Emit(wp, rest, Some(c.kind))
  {
    EmitCons(wp, c, rest, Some(c.kind));
    StepSameItem(wp, c);
  }

  lemma EmitNonItem(wp: WordPress, c: LineClass, rest: seq<LineClass>, cursor: Option<ListKind>)
    requires !c.ItemLine?
    ensures Emit(wp, [c] + rest, cursor) == Closing(cursor) + [Content(wp, c)] + Emit(wp, rest, None)
  {
    EmitCons(wp, c, rest, cursor);
    StepNonItem(wp, cursor, c);
  }

  /** Pass 1 outside any list on a line that is not an item: its one fragment. */
  lemma EmitOutside(wp: WordPress, c: LineClass, rest: seq<LineClass>)
    requires !c.ItemLine?
    ensures Emit(wp, [c] + rest, None) == [Content(wp, c)] + Emit(wp, rest, None)
  {
    EmitCons(wp, c, rest, None);
    assert Tags(None, c) == [];
  }

  /** Pass 1 on a last line: its step, then the close tag it leaves owing. */
  lemma EmitLast(wp: WordPress, c: LineClass, cursor: Option<ListKind>)
    ensures Emit(wp, [c], cursor) == Step(wp, cursor, c).0 + Closing(Step(wp, cursor, c).1)
  {
    assert [c][1..] == [];
  }

  /** Pass 1 on a last line of plain text outside any list. */
  lemma EmitText(wp: WordPress, tt: string)
    ensures Emit(wp, [TextLine(tt)], None) == [Raw(tt)]
  {
    EmitLast(wp, TextLine(tt), None);
    assert Tags(None, TextLine(tt)) == [] && Closing(None) == [];
  }

  /** Pass 1 on an empty line and a last line of plain text: the open list, if any, is
      closed first. */
  lemma EmitBlankText(wp: WordPress, tt: string, cursor: Option<ListKind>)
    ensures Emit(wp, [BlankLine] + [TextLine(tt)], cursor) == Closing(cursor) + [Blank] + [Raw(tt)]
  {
    EmitNonItem(wp, BlankLine, [TextLine(tt)], cursor);
    EmitText(wp, tt);
  }

  lemma EmitBlankTextOutside(wp: WordPress, tt: string, tail: seq<LineClass>)
    requires tail == [BlankLine] + [TextLine(tt)]
    ensures Emit(wp, tail, None) == [Blank] + [Raw(tt)]
  {
    EmitOutside(wp, BlankLine, [TextLine(tt)]);
    EmitText(wp, tt);
  }

  lemma ClassesCons(l: Line, rest: seq<Line>)
    ensures Classes([l] + rest) == [Classify(l)] + Classes(rest)
  {
    assert ([l] + rest)[1..] == rest;
  }

  lemma ClassesOne(l: Line)
    ensures Classes([l]) == [Classify(l)]
  {
    assert [l][1..] == [];
  }

  /** A line for which empty() holds is left so by trim() and classified blank. */
  lemma EmptyValueIsBlank(e: Line)
    requires IsPhpEmpty(e)
    ensures Classify(e) == BlankLine
  {
    TrimOfTrimmed(e);
  }

  /** An empty line and then a plain line, as pass 1 classifies them. */
  lemma ClassesBlankPlain(b: Line, rest: seq<Line>)
    requires IsPlain(b) && rest == [[]] + [b]
    ensures Classes(rest) == [BlankLine] + [TextLine(Trim(b))]
  {
    ClassesCons([], [b]);
    ClassesOne(b);
    EmptyValueIsBlank([]);
    PlainIsProse(b);
  }

  /** Block lines pass through pass 2 unchanged and do not affect what follows them. */
  lemma BlocksThen(wp: WordPress, blocks: seq<string>, rest: seq<string>)
    requires forall b | b in blocks :: IsTrimmed(b) && RoleOf(b) == BlockRole
    ensures SecondPass(wp, blocks + rest) == blocks + SecondPass(wp, rest)
  {
    TrimAllTrimmed(blocks, rest);
    ChunksOfBlocks(blocks, TrimAll(rest));
    RenderChunksAppend(wp, BlockChunks(blocks), Chunks(TrimAll(rest)));
    assert RenderChunks(wp, BlockChunks(blocks)) == blocks;
  }

  /** Block lines, each a chunk of its own. */
  function BlockChunks(blocks: seq<string>): (r: seq<Chunk>)
    ensures |r| == |blocks| && forall i :: 0 <= i < |blocks| ==> r[i] == BlockChunk(blocks[i])
  {
    if blocks == [] then [] else [BlockChunk(blocks[0])] + BlockChunks(blocks[1..])
  }

  lemma TrimAllTrimmed(blocks: seq<string>, rest: seq<string>)
    requires forall b | b in blocks :: IsTrimmed(b)
    ensures TrimAll(blocks + rest) == blocks + TrimAll(rest)
  {
    var l := blocks + rest;
    forall i | 0 <= i < |blocks|
      ensures TrimAll(l)[i] == blocks[i]
    {
      assert blocks[i] in blocks;
      TrimOfTrimmed(blocks[i]);
    }
    assert TrimAll(l) == blocks + TrimAll(rest);
  }

  lemma {:induction false} ChunksOfBlocks(blocks: seq<string>, rest: seq<string>)
    requires forall b | b in blocks :: RoleOf(b) == BlockRole
    ensures Chunks(blocks + rest) == BlockChunks(blocks) + Chunks(rest)
    decreases |blocks|
  {
    if blocks == [] {
      assert blocks + rest == rest;
    } else {
      var b, tail := blocks[0], blocks[1..];
      assert b in blocks;
      assert forall x | x in tail :: x in blocks;
      assert (blocks + rest)[1..] == tail + rest;
      ChunksOfBlocks(tail, rest);
      assert BlockChunks(blocks) == [BlockChunk(b)] + BlockChunks(tail);
      ConcatAssoc([BlockChunk(b)], BlockChunks(tail), Chunks(rest));
    }
  }

  /** Block lines, an empty line and one prose line: the block lines, then the paragraph. */
  lemma BlocksBlankProse(wp: WordPress, lines: seq<string>, blocks: seq<string>, tt: string)
    requires lines == blocks + ([""] + [tt])
    requires forall b | b in blocks :: IsTrimmed(b) && RoleOf(b) == BlockRole
    requires IsTrimmed(tt) && RoleOf(tt) == ProseRole
    ensures SecondPass(wp, lines) == blocks + [Paragraph1(wp, tt)]
  {
    BlocksThen(wp, blocks, [""] + [tt]);
    TrimOfTrimmed("");
    BoundaryThen(wp, "", [tt]);
    OneProseLine(wp, tt);
  }

  /** A line that trims to an empty() value passes through pass 2 without a trace,
      whatever follows it. */
  lemma BoundaryThen(wp: WordPress, e: string, rest: seq<string>)
    requires RoleOf(Trim(e)) == Boundary
    ensures SecondPass(wp, [e] + rest) == SecondPass(wp, rest)
  {
    assert TrimAll([e] + rest) == [Trim(e)] + TrimAll(rest);
    assert ([Trim(e)] + TrimAll(rest))[1..] == TrimAll(rest);
  }

  lemma JoinTwo(a: string, b: string, sep: string)
    ensures Join([a] + [b], sep) == a + sep + b
  {
    assert ([a] + [b])[1..] == [b];
  }

  /** A plain line is copied by pass 1 as its trimmed text, which pass 2 reads as prose. */
  lemma PlainIsProse(t: Line)
    requires IsPlain(t)
    ensures Classify(t) == TextLine(Trim(t))
    ensures IsTrimmed(Trim(t)) && RoleOf(Trim(t)) == ProseRole
  {
  }

  lemma SplitBlankSeparated(h: Line, b: Line)
    ensures Split(h + "\n\n" + b) == [h] + ([[]] + [b])
  {
    var t := "\n" + b;
    SplitLeadingNewline(b);
    SplitAtNewline(h, t);
    assert h + "\n\n" + b == h + "\n" + t;
  }

  lemma SplitLeadingNewline(b: Line)
    ensures Split("\n" + b) == [[]] + [b]
  {
    assert "\n" + b == [] + "\n" + b;
    SplitAtNewline([], b);
    SplitSingleLine(b);
  }

  lemma SplitTwoThenBlankSeparated(a: Line, b: Line, p: Line)
    ensures Split(a + "\n" + b + "\n\n" + p) == [a] + ([b] + ([[]] + [p]))
  {
    var t := b + "\n\n" + p;
    assert Split(t) == [b] + ([[]] + [p]) by {
      SplitBlankSeparated(b, p);
    }
    assert Split(a + "\n" + t) == [a] + Split(t) by {
      SplitAtNewline(a, t);
    }
    assert a + "\n" + b + "\n\n" + p == a + "\n" + t by {
      ConcatAssoc(a + "\n", b + "\n\n", p);
      ConcatAssoc(a + "\n", b, "\n\n");
    }
  }

  lemma ClassesHeadingBlankPlain(h: Line, b: Line, rest: seq<Line>, lines: seq<Line>)
    requires IsPlain(b)
    requires rest == [[]] + [b] && lines == [h] + rest
    ensures Classes(lines) == [Classify(h)] + ([BlankLine] + [TextLine(Trim(b))])
  {
    ClassesCons(h, rest);
    ClassesBlankPlain(b, rest);
  }

  lemma EmitHeadingBlankText(wp: WordPress, ch: LineClass, tt: string, tail: seq<LineClass>, cs: seq<LineClass>)
    requires ch.HeadingLine? && tail == [BlankLine] + [TextLine(tt)] && cs == [ch] + tail
    ensures Emit(wp, cs, None) == [Heading(ch.level, Inline.Format(wp, ch.content))] + ([Blank] + [Raw(tt)])
  {
    EmitOutside(wp, ch, tail);
    EmitBlankTextOutside(wp, tt, tail);
  }

  lemma HeadingFirstPass(wp: WordPress, h: Line, b: Line, rest: seq<Line>, lines: seq<Line>)
    requires Classify(h).HeadingLine? && IsPlain(b)
    requires rest == [[]] + [b] && lines == [h] + rest
    ensures FirstPass(wp, lines) ==
            [Heading(Classify(h).level, Inline.Format(wp, Classify(h).content))] + ([Blank] + [Raw(Trim(b))])
  {
    ClassesHeadingBlankPlain(h, b, rest, lines);
    EmitHeadingBlankText(wp, Classify(h), Trim(b), [BlankLine] + [TextLine(Trim(b))], Classes(lines));
  }

  lemma RenderHeadingBlankRaw(heading: Fragment, tt: string)
    ensures RenderAll([heading] + ([Blank] + [Raw(tt)])) == [RenderFragment(heading)] + ([""] + [tt])
  {
    assert |RenderAll([heading] + ([Blank] + [Raw(tt)]))| == 3;
  }

  lemma OneBlockBlankProse(wp: WordPress, lines: seq<string>, r: string, tt: string)
    requires lines == [r] + ([""] + [tt])
    requires IsTrimmed(r) && RoleOf(r) == BlockRole && IsTrimmed(tt) && RoleOf(tt) == ProseRole
    ensures Join(SecondPass(wp, lines), "\n") == r + "\n" + Paragraph1(wp, tt)
  {
    BlocksBlankProse(wp, lines, [r], tt);
    JoinTwo(r, Paragraph1(wp, tt), "\n");
  }

  /** A heading, an empty line and a line of plain text: the heading tag, then the
      paragraph, each on a line of its own. */
  lemma HeadingThenParagraph(wp: WordPress, h: Line, b: Line)
    requires Classify(h).HeadingLine? && IsPlain(b)
    ensures var heading := Heading(Classify(h).level, Inline.Format(wp, Classify(h).content));
            MarkdownToHtml(wp, h + "\n\n" + b) == RenderFragment(heading) + "\n" + Paragraph1(wp, Trim(b))
  {
    var heading := Heading(Classify(h).level, Inline.Format(wp, Classify(h).content));
    var text := h + "\n\n" + b;
    var fs := [heading] + ([Blank] + [Raw(Trim(b))]);
    HeadingTextFirstPass(wp, h, b, text);
    HtmlOf(wp, text, fs);
    PlainIsProse(b);
    HeadingBlankProseHtml(wp, heading, Trim(b), fs);
  }

  lemma HeadingTextFirstPass(wp: WordPress, h: Line, b: Line, text: string)
    requires Classify(h).HeadingLine? && IsPlain(b) && text == h + "\n\n" + b
    ensures FirstPass(wp, Split(text)) ==
            [Heading(Classify(h).level, Inline.Format(wp, Classify(h).content))] + ([Blank] + [Raw(Trim(b))])
  {
    SplitBlankSeparated(h, b);
    HeadingFirstPass(wp, h, b, [[]] + [b], Split(text));
  }

  /** The converter's output once pass 1's fragments are known. */
  lemma HtmlOf(wp: WordPress, text: string, fs: seq<Fragment>)
    requires FirstPass(wp, Split(text)) == fs
    ensures MarkdownToHtml(wp, text) == Join(SecondPass(wp, RenderAll(fs)), "\n")
  {
  }

  lemma HeadingBlankProseHtml(wp: WordPress, heading: Fragment, tt: string, fs: seq<Fragment>)
    requires heading.Heading? && IsTrimmed(tt) && RoleOf(tt) == ProseRole
    requires fs == [heading] + ([Blank] + [Raw(tt)])
    ensures Join(SecondPass(wp, RenderAll(fs)), "\n") == RenderFragment(heading) + "\n" + Paragraph1(wp, tt)
  {
    RenderedRole(heading);
    RenderHeadingBlankRaw(heading, tt);
    OneBlockBlankProse(wp, RenderAll(fs), RenderFragment(heading), tt);
  }

  lemma ClassesPair(a: Line, b: Line, lines: seq<Line>)
    requires lines == [a, b]
    ensures Classes(lines) == [Classify(a)] + [Classify(b)]
  {
    assert lines == [a] + [b];
    ClassesCons(a, [b]);
    ClassesOne(b);
  }

  lemma EmitItemSwitch(wp: WordPress, ca: LineClass, cb: LineClass, last: seq<LineClass>, cs: seq<LineClass>)
    requires ca.ItemLine? && cb.ItemLine? && ca.kind != cb.kind
    requires last == [cb] && cs == [ca] + last
    ensures var x, y := Item(ca.kind, Inline.Format(wp, ca.content)), Item(cb.kind, Inline.Format(wp, cb.content));
            Emit(wp, cs, None) == [Open(ca.kind), x] + [Close(ca.kind), Open(cb.kind), y, Close(cb.kind)]
  {
    EmitLast(wp, cb, Some(ca.kind));
    StepOtherItem(wp, ca.kind, cb);
    EmitFreshItem(wp, ca, last);
  }

  /** An item that follows an item of the other kind closes its list and opens a new one:
      the two kinds never share a list. */
  lemma ListKindSwitch(wp: WordPress, a: Line, b: Line)
    requires Classify(a).ItemLine? && Classify(b).ItemLine?
    requires Classify(a).kind != Classify(b).kind
    ensures var k, k' := Classify(a).kind, Classify(b).kind;
            FirstPass(wp, [a, b]) ==
              [Open(k), Item(k, Inline.Format(wp, Classify(a).content))]
              + [Close(k), Open(k'), Item(k', Inline.Format(wp, Classify(b).content)), Close(k')]
  {
    ClassesPair(a, b, [a, b]);
    EmitItemSwitch(wp, Classify(a), Classify(b), [Classify(b)], Classes([a, b]));
  }

  lemma ClassesListBlankPlain(a: Line, b: Line, p: Line, rest: seq<Line>, lines: seq<Line>)
    requires IsPlain(p)
    requires rest == [[]] + [p] && lines == [a] + ([b] + rest)
    ensures Classes(lines) == [Classify(a)] + ([Classify(b)] + ([BlankLine] + [TextLine(Trim(p))]))
  {
    ClassesCons(a, [b] + rest);
    ClassesCons(b, rest);
    ClassesBlankPlain(p, rest);
  }

  lemma EmitBlankTextInside(wp: WordPress, tt: string, tail: seq<LineClass>, k: ListKind)
    requires tail == [BlankLine] + [TextLine(tt)]
    ensures Emit(wp, tail, Some(k)) == [Close(k), Blank] + [Raw(tt)]
  {
    EmitBlankText(wp, tt, Some(k));
    assert Closing(Some(k)) == [Close(k)];
  }

  lemma EmitItemsBlankText(wp: WordPress, ca: LineClass, cb: LineClass, tt: string,
                           tail: seq<LineClass>, mid: seq<LineClass>, cs: seq<LineClass>)
    requires ca.ItemLine? && cb.ItemLine? && ca.kind == cb.kind
    requires tail == [BlankLine] + [TextLine(tt)] && mid == [cb] + tail && cs == [ca] + mid
    ensures var k := ca.kind;
            Emit(wp, cs, None) ==
              [Open(k), Item(k, Inline.Format(wp, ca.content))]
              + ([Item(k, Inline.Format(wp, cb.content))] + ([Close(k), Blank] + [Raw(tt)]))
  {
    EmitBlankTextInside(wp, tt, tail, ca.kind);
    EmitSameItem(wp, cb, tail);
    EmitFreshItem(wp, ca, mid);
  }

  lemma ListFirstPass(wp: WordPress, a: Line, b: Line, p: Line, rest: seq<Line>, lines: seq<Line>)
    requires Classify(a).ItemLine? && Classify(b).ItemLine? && IsPlain(p)
    requires Classify(a).kind == Classify(b).kind
    requires rest == [[]] + [p] && lines == [a] + ([b] + rest)
    ensures var k := Classify(a).kind;
            FirstPass(wp, lines) ==
              [Open(k), Item(k, Inline.Format(wp, Classify(a).content))]
              + ([Item(k, Inline.Format(wp, Classify(b).content))] + ([Close(k), Blank] + [Raw(Trim(p))]))
  {
    var tail := [BlankLine] + [TextLine(Trim(p))];
    ClassesListBlankPlain(a, b, p, rest, lines);
    EmitItemsBlankText(wp, Classify(a), Classify(b), Trim(p), tail, [Classify(b)] + tail, Classes(lines));
  }

  lemma RenderListBlankRaw(k: ListKind, x: Fragment, y: Fragment, tt: string)
    ensures RenderAll([Open(k), x] + ([y] + ([Close(k), Blank] + [Raw(tt)]))) ==
            [RenderFragment(Open(k)), RenderFragment(x), RenderFragment(y), RenderFragment(Close(k))] + ([""] + [tt])
  {
    assert |RenderAll([Open(k), x] + ([y] + ([Close(k), Blank] + [Raw(tt)])))| == 6;
  }

  lemma FourBlocksBlankProse(wp: WordPress, lines: seq<string>, o: string, i: string, j: string, c: string, tt: string)
    requires lines == [o, i, j, c] + ([""] + [tt])
    requires IsTrimmed(o) && RoleOf(o) == BlockRole && IsTrimmed(i) && RoleOf(i) == BlockRole
    requires IsTrimmed(j) && RoleOf(j) == BlockRole && IsTrimmed(c) && RoleOf(c) == BlockRole
    requires IsTrimmed(tt) && RoleOf(tt) == ProseRole
    ensures Join(SecondPass(wp, lines), "\n") == Join([o, i, j, c, Paragraph1(wp, tt)], "\n")
  {
    BlocksBlankProse(wp, lines, [o, i, j, c], tt);
    assert [o, i, j, c] + [Paragraph1(wp, tt)] == [o, i, j, c, Paragraph1(wp, tt)];
  }

  /** Two items of one kind, an empty line and plain text: one list holding both items,
      closed before the paragraph. */
  lemma ListThenParagraph(wp: WordPress, a: Line, b: Line, p: Line)
    requires Classify(a).ItemLine? && Classify(b).ItemLine? && IsPlain(p)
    requires Classify(a).kind == Classify(b).kind
    ensures var k := Classify(a).kind;
            MarkdownToHtml(wp, a + "\n" + b + "\n\n" + p) ==
              Join([RenderFragment(Open(k)), RenderFragment(Item(k, Inline.Format(wp, Classify(a).content))),
                    RenderFragment(Item(k, Inline.Format(wp, Classify(b).content))), RenderFragment(Close(k)),
                    Paragraph1(wp, Trim(p))], "\n")
  {
    var k := Classify(a).kind;
    var x, y := Item(k, Inline.Format(wp, Classify(a).content)), Item(k, Inline.Format(wp, Classify(b).content));
    var text := a + "\n" + b + "\n\n" + p;
    var fs := [Open(k), x] + ([y] + ([Close(k), Blank] + [Raw(Trim(p))]));
    ListTextFirstPass(wp, a, b, p, text);
    PlainIsProse(p);
    ListBlankProseHtml(wp, text, k, x, y, Trim(p), fs);
  }

  lemma ListTextFirstPass(wp: WordPress, a: Line, b: Line, p: Line, text: string)
    requires Classify(a).ItemLine? && Classify(b).ItemLine? && IsPlain(p)
    requires Classify(a).kind == Classify(b).kind
    requires text == a + "\n" + b + "\n\n" + p
    ensures var k := Classify(a).kind;
            FirstPass(wp, Split(text)) ==
              [Open(k), Item(k, Inline.Format(wp, Classify(a).content))]
              + ([Item(k, Inline.Format(wp, Classify(b).content))] + ([Close(k), Blank] + [Raw(Trim(p))]))
  {
    SplitTwoThenBlankSeparated(a, b, p);
    ListFirstPass(wp, a, b, p, [[]] + [p], Split(text));
  }

  lemma ListBlankProseHtml(wp: WordPress, text: string, k: ListKind, x: Fragment, y: Fragment, tt: string, fs: seq<Fragment>)
    requires x.Item? && y.Item? && IsTrimmed(tt) && RoleOf(tt) == ProseRole
    requires fs == [Open(k), x] + ([y] + ([Close(k), Blank] + [Raw(tt)])) && FirstPass(wp, Split(text)) == fs
    ensures MarkdownToHtml(wp, text) ==
            Join([RenderFragment(Open(k)), RenderFragment(x), RenderFragment(y), RenderFragment(Close(k)), Paragraph1(wp, tt)], "\n")
  {
    HtmlOf(wp, text, fs);
    RenderedRole(Open(k));
    RenderedRole(x);
    RenderedRole(y);
    RenderedRole(Close(k));
    RenderListBlankRaw(k, x, y, tt);
    FourBlocksBlankProse(wp, RenderAll(fs), RenderFragment(Open(k)), RenderFragment(x), RenderFragment(y), RenderFragment(Close(k)), tt);
  }

  // ---------------------------------------------------------------------------
  // The comment_text filter.
  // ---------------------------------------------------------------------------

  /** The filter's dash normalisation: en dashes become hyphens and em dashes become two
      hyphens, the en dash replaced first. */
  function NormalizeDashes(s: string): (r: string)
    ensures '–' !in r && '—' !in r
  {
    ReplaceChar(ReplaceChar(s, '–', "-"), '—', "--")
  }

  /** Text without the two dashes passes through unchanged. */
  lemma DashFreeUnchanged(s: string)
    requires '–' !in s && '—' !in s
    ensures NormalizeDashes(s) == s
  {
  }

  /** The replacement works character by character, so it distributes over concatenation. */
  lemma NormalizeDashesAppend(a: string, b: string)
    ensures NormalizeDashes(a + b) == NormalizeDashes(a) + NormalizeDashes(b)
  {
    ReplaceCharAppend(a, b, '–', "-");
    ReplaceCharAppend(ReplaceChar(a, '–', "-"), ReplaceChar(b, '–', "-"), '—', "--");
  }

  /** One en dash gives one hyphen and one em dash gives two. */
  lemma NormalizeOneDash()
    ensures NormalizeDashes("–") == "-"
    ensures NormalizeDashes("—") == "--"
  {
    assert ReplaceChar("–", '–', "-") == "-" by {
      assert "–"[1..] == [];
    }
    assert ReplaceChar("-", '—', "--") == "-" by {
      assert "-"[1..] == [];
    }
    assert ReplaceChar("—", '–', "-") == "—" by {
      assert "—"[1..] == [];
    }
    assert ReplaceChar("—", '—', "--") == "--" by {
      assert "—"[1..] == [];
    }
  }

  /** The text grows by one character per em dash. */
  lemma NormalizedLength(s: string)
    ensures |NormalizeDashes(s)| == |s| + Count(s, '—')
  {
    var s1 := ReplaceChar(s, '–', "-");
    ReplaceCharLength(s, '–', "-");
    ReplaceCharLength(s1, '—', "--");
    ReplaceCharKeepsCount(s, '–', "-", '—');
  }

  lemma {:induction false} ReplaceCharAppend(a: string, b: string, from: char, to: string)
    ensures ReplaceChar(a + b, from, to) == ReplaceChar(a, from, to) + ReplaceChar(b, from, to)
    decreases |a|
  {
    if a == [] {
      assert a + b == b;
    } else {
      assert (a + b)[1..] == a[1..] + b;
      ReplaceCharAppend(a[1..], b, from, to);
    }
  }

  lemma {:induction false} ReplaceCharLength(s: string, from: char, to: string)
    ensures |ReplaceChar(s, from, to)| == |s| + Count(s, from) * (|to| - 1)
    decreases |s|
  {
    if s != [] {
      ReplaceCharLength(s[1..], from, to);
      ReplaceCharStep(s, from, to);
      LengthStep(|ReplaceChar(s, from, to)|, |ReplaceChar(s[1..], from, to)|, |s|,
                 Count(s, from), Count(s[1..], from), |to| - 1, s[0] == from);
    }
  }

  /** The arithmetic of one step of ReplaceCharLength: a replaced character adds m. */
  lemma LengthStep(len: int, tail: int, size: int, count: int, n: int, m: int, hit: bool)
    requires tail == size - 1 + n * m
    requires len == (if hit then m + 1 else 1) + tail
    requires count == (if hit then 1 else 0) + n
    ensures len == size + count * m
  {
    if hit {
      MulStep(n, m);
    }
  }

  lemma ReplaceCharStep(s: string, from: char, to: string)
    requires s != []
    ensures |ReplaceChar(s, from, to)| == (if s[0] == from then |to| else 1) + |ReplaceChar(s[1..], from, to)|
    ensures Count(s, from) == (if s[0] == from then 1 else 0) + Count(s[1..], from)
  {
  }

  lemma MulStep(n: int, m: int)
    ensures (n + 1) * m == n * m + m
  {
  }

  lemma {:induction false} ReplaceCharKeepsCount(s: string, from: char, to: string, c: char)
    requires c != from && c !in to
    ensures Count(ReplaceChar(s, from, to), c) == Count(s, c)
    decreases |s|
  {
    if s != [] {
      var head := if s[0] == from then to else [s[0]];
      ReplaceCharKeepsCount(s[1..], from, to, c);
      CountAppend(head, ReplaceChar(s[1..], from, to), c);
      if s[0] != from {
        assert head[1..] == [];
      }
    }
  }

  /** markdown_comments_filter_comment_text(): with the setting on, dashes are normalised,
      the text converted and the HTML passed through wp_kses_post(); with it off the
      comment is returned as it came. */
  method FilterCommentText(wp: WordPress, enabled: bool, text: string) returns (r: string)
    ensures !enabled ==> r == text
    ensures enabled ==> r == wp.ksesPost(MarkdownToHtml(wp, NormalizeDashes(text)))
  {
    if enabled {
      var normalized := NormalizeDashes(text);
      var html := ParseMarkdown(wp, normalized);
      r := wp.ksesPost(html);
    } else {
      r := text;
    }
  }
}
