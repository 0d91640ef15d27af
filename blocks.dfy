/** Pass 1 of markdown_comments_parse_markdown(): every trimmed line is sorted into
    blank, heading, bulleted item, numbered item or plain text, and a flat list of
    block fragments is emitted, with list open and close tags driven by one
    "current list" cursor. */
module Blocks {
  import opened Text
  import opened Host
  import opened Inline

  // ---------------------------------------------------------------------------
  // The three line patterns, each anchored at the start of a trimmed line.
  // ---------------------------------------------------------------------------

  /** White space from p, then a group from k to the end of the line: at least one
      white-space character, then a non-empty rest (a line holds no line feed, so the
      group takes any character). */
  predicate SpacedGroup(t: Line, p: nat, k: nat) {
    p < k < |t| && forall i :: p <= i < k ==> IsSpace(t[i])
  }

  /** The end of the run of white space that starts at p. */
  function SpaceRunEnd(t: string, p: nat): (j: nat)
    requires p <= |t|
    ensures p <= j <= |t|
    ensures forall i :: p <= i < j ==> IsSpace(t[i])
    ensures j == |t| || !IsSpace(t[j])
    decreases |t| - p
  {
    if p < |t| && IsSpace(t[p]) then SpaceRunEnd(t, p + 1) else p
  }

  /** Where the group after the white space at p starts: the greedy white-space run is
      taken whole, and gives its last character back to the group when it reaches the end
      of the line. */
  function GroupStart(t: Line, p: nat): (r: Option<nat>)
    requires p <= |t|
    ensures r.Some? ==> SpacedGroup(t, p, r.value)
    ensures forall k: nat {:trigger SpacedGroup(t, p, k)} :: SpacedGroup(t, p, k) ==> r.Some? && k <= r.value
  {
    var j := SpaceRunEnd(t, p);
    if p < j < |t| then Some(j)
    else if j == |t| && j >= p + 2 then Some(j - 1)
    else None
  }

  /** The end of the run of `#` that starts at i. */
  function HashRun(t: string, i: nat): (n: nat)
    requires i <= |t|
    ensures i <= n <= |t|
    ensures forall j :: i <= j < n ==> t[j] == '#'
    ensures n == |t| || t[n] != '#'
    decreases |t| - i
  {
    if i < |t| && t[i] == '#' then HashRun(t, i + 1) else i
  }

  /** The end of the run of decimal digits that starts at i. */
  function DigitRun(t: string, i: nat): (n: nat)
    requires i <= |t|
    ensures i <= n <= |t|
    ensures forall j :: i <= j < n ==> IsDigit(t[j])
    ensures n == |t| || !IsDigit(t[n])
    decreases |t| - i
  {
    if i < |t| && IsDigit(t[i]) then DigitRun(t, i + 1) else i
  }

  type Level = n: nat | 1 <= n <= 6 witness 1

  /** A heading line: one to six `#`, white space, and the content group starting at k. */
  predicate HeadingShape(t: Line, n: nat, k: nat) {
    1 <= n <= 6 && n <= |t| && (forall i :: 0 <= i < n ==> t[i] == '#') && SpacedGroup(t, n, k)
  }

  /** A heading pattern can only use the whole run of leading hashes. */
  lemma HashRunIsLevel(t: Line, n: nat)
    requires n == HashRun(t, 0)
    ensures forall n': nat, k: nat {:trigger HeadingShape(t, n', k)} :: HeadingShape(t, n', k) ==> n' == n
  {
    forall n': nat, k: nat | HeadingShape(t, n', k) ensures n' == n {
      assert IsSpace(t[n']);
    }
  }

  /** The heading pattern: the level is the whole run of hashes (a seventh `#` leaves no
      white space after six), and the group starts where the greedy white-space run stops. */
  function HeadingMatch(t: Line): (r: Option<(Level, nat)>)
    ensures r.Some? ==> HeadingShape(t, r.value.0, r.value.1)
    ensures forall n: nat, k: nat {:trigger HeadingShape(t, n, k)} :: HeadingShape(t, n, k) ==>
      r.Some? && n == r.value.0 && k <= r.value.1
  {
    var n := HashRun(t, 0);
    HashRunIsLevel(t, n);
    if 1 <= n <= 6 then
      match GroupStart(t, n)
      case Some(k) => Some((n, k))
      case None => None
    else None
  }

  /** The characters that start a bulleted item. The source's class also lists the en
      dash, but the pattern reads bytes and is tried only at the first byte of a trimmed
      line. For an en dash that byte is its UTF-8 lead byte 0xE2, which valid UTF-8 always
      follows with a continuation byte and never with white space, so an en dash never
      starts an item. */
  predicate IsBullet(c: char) {
    c == '-' || c == '*' || c == '+'
  }

  /** A bulleted item: a bullet character, white space, and the item group starting at k. */
  predicate BulletShape(t: Line, k: nat) {
    |t| >= 1 && IsBullet(t[0]) && SpacedGroup(t, 1, k)
  }

  function BulletMatch(t: Line): (r: Option<nat>)
    ensures r.Some? ==> BulletShape(t, r.value)
    ensures forall k: nat {:trigger BulletShape(t, k)} :: BulletShape(t, k) ==> r.Some? && k <= r.value
  {
    if |t| >= 1 && IsBullet(t[0]) then GroupStart(t, 1) else None
  }

  /** A numbered item: d decimal digits, a dot, white space, and the item group starting at k. */
  predicate NumberShape(t: Line, d: nat, k: nat) {
    1 <= d < |t| && (forall i :: 0 <= i < d ==> IsDigit(t[i])) && t[d] == '.' && SpacedGroup(t, d + 1, k)
  }

  /** A number pattern can only use the whole run of leading digits. */
  lemma DigitRunIsNumber(t: Line, d: nat)
    requires d == DigitRun(t, 0)
    ensures forall d': nat, k: nat {:trigger NumberShape(t, d', k)} :: NumberShape(t, d', k) ==> d' == d
  {
    forall d': nat, k: nat | NumberShape(t, d', k) ensures d' == d {
      assert t[d'] == '.';
    }
  }

  function NumberMatch(t: Line): (r: Option<(nat, nat)>)
    ensures r.Some? ==> NumberShape(t, r.value.0, r.value.1)
    ensures forall d: nat, k: nat {:trigger NumberShape(t, d, k)} :: NumberShape(t, d, k) ==>
      r.Some? && d == r.value.0 && k <= r.value.1
  {
    var d := DigitRun(t, 0);
    DigitRunIsNumber(t, d);
    if 1 <= d < |t| && t[d] == '.' then
      match GroupStart(t, d + 1)
      case Some(k) => Some((d, k))
      case None => None
    else None
  }

  // ---------------------------------------------------------------------------
  // Sorting a line.
  // ---------------------------------------------------------------------------

  datatype ListKind = Bulleted | Numbered

  /** What pass 1 makes of one line; contents are still raw Markdown. */
  datatype LineClass =
    | BlankLine
    | HeadingLine(level: Level, content: string)
    | ItemLine(kind: ListKind, content: string)
    | TextLine(text: string)

  /** The tests in the source's order on a trimmed line: empty() first, then heading,
      bullet, number; what matches none is plain text. */
  function Sort(t: Line): (r: LineClass)
    ensures r.BlankLine? <==> IsPhpEmpty(t)
    ensures r.TextLine? ==> r.text == t
  {
    if IsPhpEmpty(t) then BlankLine
    else if HeadingMatch(t).Some? then
      HeadingLine(HeadingMatch(t).value.0, Trim(t[HeadingMatch(t).value.1..]))
    else if BulletMatch(t).Some? then
      ItemLine(Bulleted, Trim(t[BulletMatch(t).value..]))
    else if NumberMatch(t).Some? then
      ItemLine(Numbered, Trim(t[NumberMatch(t).value.1..]))
    else TextLine(t)
  }

  /** Each line is trimmed before it is sorted. */
  function Classify(raw: Line): LineClass {
    Sort(Trim(raw))
  }

  /** No line matches two of the patterns: they differ in the first character. */
  lemma ShapesDisjoint(t: Line)
    ensures forall n: nat, k: nat, k': nat {:trigger HeadingShape(t, n, k), BulletShape(t, k')} ::
      !(HeadingShape(t, n, k) && BulletShape(t, k'))
    ensures forall n: nat, k: nat, d: nat, k': nat {:trigger HeadingShape(t, n, k), NumberShape(t, d, k')} ::
      !(HeadingShape(t, n, k) && NumberShape(t, d, k'))
    ensures forall k: nat, d: nat, k': nat {:trigger BulletShape(t, k), NumberShape(t, d, k')} ::
      !(BulletShape(t, k) && NumberShape(t, d, k'))
  {
    forall n: nat, k: nat | HeadingShape(t, n, k) ensures t[0] == '#' {
      assert t[0] == '#';
    }
  }

  /** A line matching the heading pattern is a heading, whose level is the number of
      hashes and whose content is the trimmed group of the greedy match. */
  lemma HeadingLines(t: Line, n: nat, k: nat)
    requires HeadingShape(t, n, k)
    requires forall k': nat {:trigger HeadingShape(t, n, k')} :: HeadingShape(t, n, k') ==> k' <= k
    ensures Sort(t) == HeadingLine(n, Trim(t[k..]))
  {
    assert t[0] == '#';
    var r := HeadingMatch(t).value;
    assert r.0 == n && r.1 == k;
  }

  /** Only lines matching the heading pattern become headings. */
  lemma OnlyHeadingLines(t: Line)
    requires Sort(t).HeadingLine?
    ensures exists k: nat :: HeadingShape(t, Sort(t).level, k)
  {
    assert HeadingShape(t, HeadingMatch(t).value.0, HeadingMatch(t).value.1);
  }

  /** A line matching the bullet pattern is a bulleted item with the trimmed group. */
  lemma BulletLines(t: Line, k: nat)
    requires BulletShape(t, k)
    requires forall k': nat {:trigger BulletShape(t, k')} :: BulletShape(t, k') ==> k' <= k
    ensures Sort(t) == ItemLine(Bulleted, Trim(t[k..]))
  {
    assert !IsPhpEmpty(t) by { assert IsBullet(t[0]); }
    assert HeadingMatch(t).None? by {
      assert t[0] != '#';
      HeadingNeedsHash(t);
    }
    assert BulletMatch(t) == Some(k);
  }

  /** Only a line starting with `#` can be a heading. */
  lemma HeadingNeedsHash(t: Line)
    ensures HeadingMatch(t).Some? ==> |t| > 0 && t[0] == '#'
  {
    if HeadingMatch(t).Some? {
      var r := HeadingMatch(t).value;
      assert HeadingShape(t, r.0, r.1);
    }
  }

  /** A line matching the number pattern is a numbered item with the trimmed group. */
  lemma NumberLines(t: Line, d: nat, k: nat)
    requires NumberShape(t, d, k)
    requires forall k': nat {:trigger NumberShape(t, d, k')} :: NumberShape(t, d, k') ==> k' <= k
    ensures Sort(t) == ItemLine(Numbered, Trim(t[k..]))
  {
    assert !IsPhpEmpty(t) by { assert |t| > 1; }
    assert IsDigit(t[0]);
    assert HeadingMatch(t).None? by {
      HeadingNeedsHash(t);
    }
    assert BulletMatch(t).None?;
    var r := NumberMatch(t).value;
    assert r.0 == d && r.1 == k;
  }

  /** Items come only from lines matching the pattern of their kind. */
  lemma OnlyItemLines(t: Line)
    requires Sort(t).ItemLine?
    ensures Sort(t).kind == Bulleted ==> exists k: nat :: BulletShape(t, k)
    ensures Sort(t).kind == Numbered ==> exists d: nat, k: nat :: NumberShape(t, d, k)
  {
    if BulletMatch(t).Some? {
      assert BulletShape(t, BulletMatch(t).value);
    } else {
      assert NumberShape(t, NumberMatch(t).value.0, NumberMatch(t).value.1);
    }
  }

  /** Plain text is exactly what is neither empty() nor matched by any pattern. */
  lemma TextLines(t: Line)
    ensures Sort(t).TextLine? <==>
      !IsPhpEmpty(t)
      && (forall n: nat, k: nat :: !HeadingShape(t, n, k))
      && (forall k: nat :: !BulletShape(t, k))
      && (forall d: nat, k: nat :: !NumberShape(t, d, k))
  {
    if HeadingMatch(t).Some? {
      assert HeadingShape(t, HeadingMatch(t).value.0, HeadingMatch(t).value.1);
    } else if BulletMatch(t).Some? {
      assert BulletShape(t, BulletMatch(t).value);
    } else if NumberMatch(t).Some? {
      assert NumberShape(t, NumberMatch(t).value.0, NumberMatch(t).value.1);
    }
  }

  // ---------------------------------------------------------------------------
  // Fragments and the list cursor.
  // ---------------------------------------------------------------------------

  /** One entry of pass 1's output array. */
  datatype Fragment =
    | Blank
    | Heading(level: Level, html: string)
    | Open(kind: ListKind)
    | Close(kind: ListKind)
    | Item(kind: ListKind, html: string)
    | Raw(text: string)

  function LevelDigit(n: Level): char {
    (('0' as int) + n) as char
  }

  /** The string pass 1 stores for a fragment. */
  function RenderFragment(f: Fragment): string {
    match f
    case Blank => ""
    case Heading(n, html) => "<h" + [LevelDigit(n)] + ">" + html + "</h" + [LevelDigit(n)] + ">"
    case Open(k) => if k == Bulleted then "<ul>" else "<ol>"
    case Close(k) => if k == Bulleted then "</ul>" else "</ol>"
    case Item(_, html) => "<li>" + html + "</li>"
    case Raw(t) => t
  }

  function RenderAll(fs: seq<Fragment>): (r: seq<string>)
    ensures |r| == |fs|
    ensures forall i :: 0 <= i < |fs| ==> r[i] == RenderFragment(fs[i])
  {
    if fs == [] then [] else [RenderFragment(fs[0])] + RenderAll(fs[1..])
  }

  /** The close tag owed to the open list, if any. */
  function Closing(cursor: Option<ListKind>): seq<Fragment> {
    if cursor.Some? then [Close(cursor.value)] else []
  }

  /** The one fragment a line contributes besides list tags. */
  function Content(wp: WordPress, c: LineClass): Fragment {
    match c
    case BlankLine => Blank
    case HeadingLine(n, s) => Heading(n, Format(wp, s))
    case ItemLine(k, s) => Item(k, Format(wp, s))
    case TextLine(s) => Raw(s)
  }

  /** The tags an item of kind k emits first: none when it continues the open list,
      otherwise the close tag of an open list of the other kind and an open tag. */
  function Opening(cursor: Option<ListKind>, k: ListKind): seq<Fragment> {
    if cursor == Some(k) then [] else Closing(cursor) + [Open(k)]
  }

  /** The list tags a line emits before its own fragment. */
  function Tags(cursor: Option<ListKind>, c: LineClass): seq<Fragment> {
    if c.ItemLine? then Opening(cursor, c.kind) else Closing(cursor)
  }

  /** The cursor after a line: an item leaves its list open, anything else closes it. */
  function After(c: LineClass): Option<ListKind> {
    if c.ItemLine? then Some(c.kind) else None
  }

  /** One line of pass 1: the fragments it emits and the cursor after it. */
  function Step(wp: WordPress, cursor: Option<ListKind>, c: LineClass): (seq<Fragment>, Option<ListKind>) {
    (Tags(cursor, c) + [Content(wp, c)], After(c))
  }

  /** The class of every line, in order. */
  function Classes(lines: seq<Line>): (r: seq<LineClass>)
    ensures |r| == |lines|
    ensures forall i :: 0 <= i < |lines| ==> r[i] == Classify(lines[i])
  {
    if lines == [] then [] else [Classify(lines[0])] + Classes(lines[1..])
  }

  /** Pass 1 over the classes of the remaining lines from a cursor, closing a list left
      open at the end. */
  function Emit(wp: WordPress, cs: seq<LineClass>, cursor: Option<ListKind>): seq<Fragment>
    decreases |cs|
  {
    if cs == [] then Closing(cursor)
    else
      var (out, next) := Step(wp, cursor, cs[0]);
      out + Emit(wp, cs[1..], next)
  }

  function FirstPass(wp: WordPress, lines: seq<Line>): seq<Fragment> {
    Emit(wp, Classes(lines), None)
  }

  function Cursor(inList: bool, listType: ListKind): Option<ListKind> {
    if inList then Some(listType) else None
  }

  lemma EmitUnfold(wp: WordPress, cs: seq<LineClass>, i: nat, cursor: Option<ListKind>)
    requires i < |cs|
    ensures var (out, next) := Step(wp, cursor, cs[i]);
      Emit(wp, cs[i..], cursor) == out + Emit(wp, cs[i + 1..], next)
  {
    assert cs[i..][1..] == cs[i + 1..];
  }

  /** Closing the open list: its close tag is appended, if a list is open, and the
      list flag is cleared. */
  method CloseList(output0: seq<Fragment>, inList0: bool, listType: ListKind)
    returns (output: seq<Fragment>, inList: bool)
    ensures output == output0 + Closing(Cursor(inList0, listType))
    ensures !inList
  {
    output, inList := output0, inList0;
    if inList {
      output := output + [Close(listType)];
      inList := false;
    }
  }

  /** What an item of kind k does to the list cursor before its `<li>`: unless a list of
      its kind is open, it closes a list of the other kind and opens one of its own. */
  method EnterList(output0: seq<Fragment>, inList0: bool, listType0: ListKind, kind: ListKind)
    returns (output: seq<Fragment>, inList: bool, listType: ListKind)
    ensures output == output0 + Opening(Cursor(inList0, listType0), kind)
    ensures Cursor(inList, listType) == Some(kind)
  {
    output, inList, listType := output0, inList0, listType0;
    if !inList || listType != kind {
      if inList && listType != kind {
        output := output + [Close(listType)];
      }
      output := output + [Open(kind)];
      inList := true;
      listType := kind;
    }
  }

  /** The body of pass 1's loop for one line: it appends to `output` the fragments of
      the line and updates the list flag and the list kind. */
  method FirstPassLine(wp: WordPress, output0: seq<Fragment>, inList0: bool, listType0: ListKind, raw: Line)
    returns (output: seq<Fragment>, inList: bool, listType: ListKind)
    ensures output == output0 + Step(wp, Cursor(inList0, listType0), Classify(raw)).0
    ensures Cursor(inList, listType) == Step(wp, Cursor(inList0, listType0), Classify(raw)).1
  {
    output, inList, listType := output0, inList0, listType0;
    ghost var cursor := Cursor(inList, listType);
    var line: Line := Trim(raw);
    if IsPhpEmpty(line) {
      StepOfBlank(wp, cursor, raw);
      output, inList := CloseList(output, inList, listType);
      output := output + [Blank];
      ConcatAssoc(output0, Closing(cursor), [Blank]);
    } else if HeadingMatch(line).Some? {
      var (level, k) := HeadingMatch(line).value;
      StepOfHeading(wp, cursor, raw, level, k);
      output, inList := CloseList(output, inList, listType);
      output := output + [Heading(level, Format(wp, Trim(line[k..])))];
      ConcatAssoc(output0, Closing(cursor), [Heading(level, Format(wp, Trim(line[k..])))]);
    } else if BulletMatch(line).Some? {
      var k := BulletMatch(line).value;
      StepOfItem(wp, cursor, raw, Bulleted, Trim(line[k..]));
      output, inList, listType := EnterList(output, inList, listType, Bulleted);
      output := output + [Item(Bulleted, Format(wp, Trim(line[k..])))];
      ConcatAssoc(output0, Opening(cursor, Bulleted), [Item(Bulleted, Format(wp, Trim(line[k..])))]);
    } else if NumberMatch(line).Some? {
      var k := NumberMatch(line).value.1;
      StepOfItem(wp, cursor, raw, Numbered, Trim(line[k..]));
      output, inList, listType := EnterList(output, inList, listType, Numbered);
      output := output + [Item(Numbered, Format(wp, Trim(line[k..])))];
      ConcatAssoc(output0, Opening(cursor, Numbered), [Item(Numbered, Format(wp, Trim(line[k..])))]);
    } else {
      StepOfText(wp, cursor, raw);
      output, inList := CloseList(output, inList, listType);
      output := output + [Raw(line)];
      ConcatAssoc(output0, Closing(cursor), [Raw(line)]);
    }
  }

  lemma StepOfBlank(wp: WordPress, cursor: Option<ListKind>, raw: Line)
    requires IsPhpEmpty(Trim(raw))
    ensures Step(wp, cursor, Classify(raw)) == (Closing(cursor) + [Blank], None)
  {
    assert Classify(raw) == BlankLine;
  }

  lemma StepOfHeading(wp: WordPress, cursor: Option<ListKind>, raw: Line, level: Level, k: nat)
    requires !IsPhpEmpty(Trim(raw)) && HeadingMatch(Trim(raw)) == Some((level, k))
    ensures k <= |Trim(raw)|
    ensures Step(wp, cursor, Classify(raw)) ==
            (Closing(cursor) + [Heading(level, Format(wp, Trim(Trim(raw)[k..])))], None)
  {
    var t := Trim(raw);
    assert HeadingShape(t, level, k);
    assert Sort(t) == HeadingLine(level, Trim(t[k..]));
    StepOfClass(wp, cursor, HeadingLine(level, Trim(t[k..])));
  }

  lemma StepOfClass(wp: WordPress, cursor: Option<ListKind>, c: LineClass)
    requires !c.ItemLine?
    ensures Step(wp, cursor, c) == (Closing(cursor) + [Content(wp, c)], None)
  {
  }

  lemma StepOfItem(wp: WordPress, cursor: Option<ListKind>, raw: Line, kind: ListKind, content: string)
    requires Classify(raw) == ItemLine(kind, content)
    ensures Step(wp, cursor, Classify(raw)) == (Opening(cursor, kind) + [Item(kind, Format(wp, content))], Some(kind))
  {
  }

  lemma StepOfText(wp: WordPress, cursor: Option<ListKind>, raw: Line)
    requires Classify(raw) == TextLine(Trim(raw))
    ensures Step(wp, cursor, Classify(raw)) == (Closing(cursor) + [Raw(Trim(raw))], None)
  {
  }

  /** The loop of pass 1, with its two variables, the list flag and the list kind;
      a list still open after the last line is closed. */
  method FirstPassLoop(wp: WordPress, lines: seq<Line>) returns (output: seq<Fragment>)
    ensures output == FirstPass(wp, lines)
  {
    output := [];
    var inList := false;
    var listType := Bulleted;
    for i := 0 to |lines|
      invariant output + Emit(wp, Classes(lines)[i..], Cursor(inList, listType)) == FirstPass(wp, lines)
    {
      ghost var cs := Classes(lines);
      ghost var before := output;
      ghost var (out, next) := Step(wp, Cursor(inList, listType), cs[i]);
      EmitUnfold(wp, cs, i, Cursor(inList, listType));
      output, inList, listType := FirstPassLine(wp, output, inList, listType, lines[i]);
      ConcatAssoc(before, out, Emit(wp, cs[i + 1..], next));
    }
    output, inList := CloseList(output, inList, listType);
  }

  // ---------------------------------------------------------------------------
  // Lists are well formed: a grammar over fragments, read left to right.
  // ---------------------------------------------------------------------------

  /** Where a reader of the fragments stands: outside any list (perhaps right after the
      close tag of one), right after an open tag, or inside a list after an item. */
  datatype Phase = Outside | JustClosed(kind: ListKind) | Opened(kind: ListKind) | Inside(kind: ListKind)

  /** The fragments allowed in each phase: a list opens only outside any list, and never
      right after a list of the same kind closed; it holds items of its own kind only, at
      least one; only its own close tag ends it; blanks, headings and text stand outside. */
  function Next(ph: Phase, f: Fragment): Option<Phase> {
    match f
    case Open(k) => if ph.Outside? || (ph.JustClosed? && ph.kind != k) then Some(Opened(k)) else None
    case Item(k, _) => if ph == Opened(k) || ph == Inside(k) then Some(Inside(k)) else None
    case Close(k) => if ph == Inside(k) then Some(JustClosed(k)) else None
    case _ => if ph.Outside? || ph.JustClosed? then Some(Outside) else None
  }

  function Run(ph: Option<Phase>, fs: seq<Fragment>): Option<Phase>
    decreases |fs|
  {
    if fs == [] || ph.None? then ph else Run(Next(ph.value, fs[0]), fs[1..])
  }

  /** Every list is opened, filled with items of its kind and closed, none is nested or
      left open, and two lists of one kind are never back to back. */
  predicate WellFormed(fs: seq<Fragment>) {
    var e := Run(Some(Outside), fs);
    e.Some? && (e.value.Outside? || e.value.JustClosed?)
  }

  lemma {:induction false} RunAppend(ph: Option<Phase>, a: seq<Fragment>, b: seq<Fragment>)
    ensures Run(ph, a + b) == Run(Run(ph, a), b)
    decreases |a|
  {
    if a == [] {
      assert a + b == b;
    } else if ph.None? {
      assert Run(None, b) == None by { RunNone(b); }
    } else {
      assert (a + b)[1..] == a[1..] + b;
      RunAppend(Next(ph.value, a[0]), a[1..], b);
    }
  }

  lemma {:induction false} RunNone(fs: seq<Fragment>)
    ensures Run(None, fs) == None
  {
  }

  function PhaseOf(cursor: Option<ListKind>): Phase {
    if cursor.Some? then Inside(cursor.value) else Outside
  }

  /** Each line's fragments lead from the phase of the cursor before it to the phase of
      the cursor after it. */
  /** Where the list tags of a line leave the reader. */
  lemma TagsRun(cursor: Option<ListKind>, c: LineClass)
    ensures Run(Some(PhaseOf(cursor)), Tags(cursor, c)) ==
      if c.ItemLine? then (if cursor == Some(c.kind) then Some(Inside(c.kind)) else Some(Opened(c.kind)))
      else if cursor.Some? then Some(JustClosed(cursor.value))
      else Some(Outside)
  {
    var tags := Tags(cursor, c);
    if c.ItemLine? && cursor != Some(c.kind) && cursor.Some? {
      assert tags == [Close(cursor.value), Open(c.kind)];
      assert tags[1..] == [Open(c.kind)] && tags[1..][1..] == [];
      assert Run(Some(JustClosed(cursor.value)), [Open(c.kind)]) == Some(Opened(c.kind));
    } else if tags != [] {
      assert tags[1..] == [];
    }
  }

  lemma StepRun(wp: WordPress, cursor: Option<ListKind>, c: LineClass)
    ensures Run(Some(PhaseOf(cursor)), Step(wp, cursor, c).0) == Some(PhaseOf(Step(wp, cursor, c).1))
  {
    var x := Content(wp, c);
    var tags := Tags(cursor, c);
    assert Step(wp, cursor, c).0 == tags + [x];
    var ph := Run(Some(PhaseOf(cursor)), tags);
    TagsRun(cursor, c);
    RunAppend(Some(PhaseOf(cursor)), tags, [x]);
    RunOne(ph.value, x);
    if c.ItemLine? {
      assert x == Item(c.kind, Format(wp, c.content));
      assert Next(ph.value, x) == Some(Inside(c.kind));
    } else {
      assert !x.Open? && !x.Close? && !x.Item?;
      assert Next(ph.value, x) == Some(Outside);
    }
  }

  lemma RunOne(ph: Phase, f: Fragment)
    ensures Run(Some(ph), [f]) == Next(ph, f)
  {
    assert [f][1..] == [];
  }

  lemma {:induction false} EmitWellFormed(wp: WordPress, cs: seq<LineClass>, cursor: Option<ListKind>)
    ensures var e := Run(Some(PhaseOf(cursor)), Emit(wp, cs, cursor));
      e.Some? && (e.value.Outside? || e.value.JustClosed?)
    decreases |cs|
  {
    if cs == [] {
      if cursor.Some? {
        assert Closing(cursor)[1..] == [];
      }
    } else {
      var (out, next) := Step(wp, cursor, cs[0]);
      StepRun(wp, cursor, cs[0]);
      RunAppend(Some(PhaseOf(cursor)), out, Emit(wp, cs[1..], next));
      EmitWellFormed(wp, cs[1..], next);
    }
  }

  /** Pass 1 never nests lists, never leaves one open, never emits an empty one, puts
      every item in a list of its own kind and keeps blanks, headings and text outside
      lists. */
  lemma FirstPassWellFormed(wp: WordPress, lines: seq<Line>)
    ensures WellFormed(FirstPass(wp, lines))
  {
    EmitWellFormed(wp, Classes(lines), None);
  }

  // ---------------------------------------------------------------------------
  // Nothing is dropped or reordered: one content fragment per line.
  // ---------------------------------------------------------------------------

  function Contents(wp: WordPress, cs: seq<LineClass>): (r: seq<Fragment>)
    ensures |r| == |cs|
    ensures forall i :: 0 <= i < |cs| ==> r[i] == Content(wp, cs[i])
  {
    if cs == [] then [] else [Content(wp, cs[0])] + Contents(wp, cs[1..])
  }

  /** The fragments without list open and close tags. */
  function Unlisted(fs: seq<Fragment>): seq<Fragment> {
    if fs == [] then []
    else (if fs[0].Open? || fs[0].Close? then [] else [fs[0]]) + Unlisted(fs[1..])
  }

  lemma {:induction false} UnlistedAppend(a: seq<Fragment>, b: seq<Fragment>)
    ensures Unlisted(a + b) == Unlisted(a) + Unlisted(b)
    decreases |a|
  {
    if a == [] {
      assert a + b == b;
    } else {
      assert (a + b)[1..] == a[1..] + b;
      UnlistedAppend(a[1..], b);
    }
  }

  lemma StepContent(wp: WordPress, cursor: Option<ListKind>, c: LineClass)
    ensures Unlisted(Step(wp, cursor, c).0) == [Content(wp, c)]
  {
    TagsUnlisted(cursor, c);
    TagsThen(Tags(cursor, c), Content(wp, c));
  }

  /** List tags, then one fragment that is not a list tag: only that fragment is left. */
  lemma TagsThen(tags: seq<Fragment>, f: Fragment)
    requires Unlisted(tags) == [] && !f.Open? && !f.Close?
    ensures Unlisted(tags + [f]) == [f]
  {
    assert Unlisted([f]) == [f] by { assert [f][1..] == []; }
    UnlistedAppend(tags, [f]);
  }

  /** List tags are all that Unlisted drops. */
  lemma TagsUnlisted(cursor: Option<ListKind>, c: LineClass)
    ensures Unlisted(Tags(cursor, c)) == []
  {
    var tags := Tags(cursor, c);
    if c.ItemLine? && cursor != Some(c.kind) && cursor.Some? {
      assert tags == [Close(cursor.value), Open(c.kind)];
      assert tags[1..] == [Open(c.kind)] && tags[1..][1..] == [];
      assert Unlisted(tags[1..]) == [];
    } else if tags != [] {
      assert |tags| == 1 && (tags[0].Open? || tags[0].Close?);
      assert tags[1..] == [];
    }
  }

  lemma {:induction false} EmitContents(wp: WordPress, cs: seq<LineClass>, cursor: Option<ListKind>)
    ensures Unlisted(Emit(wp, cs, cursor)) == Contents(wp, cs)
    decreases |cs|
  {
    if cs == [] {
      if cursor.Some? {
        assert Closing(cursor)[1..] == [];
      }
    } else {
      var (out, next) := Step(wp, cursor, cs[0]);
      StepContent(wp, cursor, cs[0]);
      UnlistedAppend(out, Emit(wp, cs[1..], next));
      EmitContents(wp, cs[1..], next);
    }
  }

  /** Take away the list tags and what is left is exactly one fragment per input line, in
      input order: a blank for each empty() line, the heading, the item or the raw text. */
  lemma FirstPassContents(wp: WordPress, lines: seq<Line>)
    ensures |Unlisted(FirstPass(wp, lines))| == |lines|
    ensures forall i :: 0 <= i < |lines| ==> Unlisted(FirstPass(wp, lines))[i] == Content(wp, Classify(lines[i]))
  {
    EmitContents(wp, Classes(lines), None);
  }
}
