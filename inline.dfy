/** markdown_comments_apply_inline_formatting: six preg_replace_callback passes run one
    after the other (bold with `**`, bold with `__`, italic with `*`, italic with `_`,
    code spans, links). Each pass scans its subject from the left; where its pattern
    matches, the match is replaced by a tag around the escaped capture and the scan
    resumes after the match; elsewhere the character is kept.

    For every pattern there is a `...Shape` predicate that reads the regular expression
    declaratively (which spans it matches), and a `...Match` function that scans the way
    PCRE does. The contract of each `...Match` says that it returns the shortest span of
    that shape; for the italic and link patterns there is only ever one candidate. */
module Inline {
  import opened Text
  import opened Host

  datatype Marker = Star | Underscore

  function MarkerChar(m: Marker): char {
    match m
    case Star => '*'
    case Underscore => '_'
  }

  /** One regular expression of the formatter. */
  datatype Pattern = Bold(m: Marker) | Italic(m: Marker) | Code | Link

  /** The passes, in the order the formatter runs them. */
  const Passes: seq<Pattern> := [Bold(Star), Bold(Underscore), Italic(Star), Italic(Underscore), Code, Link]

  /** A match: the index just past it, and its capture groups (group2 only for links). */
  datatype Hit = Hit(end: nat, group1: string, group2: string)

  /** Two marker characters at k. */
  predicate PairAt(s: string, k: nat, c: char) {
    k + 1 < |s| && s[k] == c && s[k + 1] == c
  }

  /** No line feed in s[a..b]: what PCRE's `.` needs without the /s flag. */
  predicate LineFeedFree(s: string, a: nat, b: nat)
    requires b <= |s|
  {
    forall q :: a <= q < b ==> s[q] != '\n'
  }

  // ---------------------------------------------------------------- scanning helpers

  /** A lazy run up to a closing pair: the first k >= j where the pair cc starts, provided
      no line feed comes before it. */
  function FindPair(s: string, j: nat, c: char): (r: Option<nat>)
    requires j <= |s|
    ensures r.Some? ==> j <= r.value && PairAt(s, r.value, c) && LineFeedFree(s, j, r.value)
    ensures r.Some? ==> forall k :: j <= k < r.value ==> !PairAt(s, k, c)
    ensures r.None? ==> forall k {:trigger PairAt(s, k, c)} :: j <= k && PairAt(s, k, c) ==> !LineFeedFree(s, j, k)
    decreases |s| - j
  {
    if j + 1 >= |s| then None
    else if s[j] == c && s[j + 1] == c then Some(j)
    else if s[j] == '\n' then None
    else FindPair(s, j + 1, c)
  }

  /** A lazy run up to a closing c: the first k >= j with s[k] == c, provided no line feed
      comes before it. */
  function FindOnLine(s: string, j: nat, c: char): (r: Option<nat>)
    requires j <= |s|
    ensures r.Some? ==> j <= r.value < |s| && s[r.value] == c && LineFeedFree(s, j, r.value)
    ensures r.Some? ==> forall k :: j <= k < r.value ==> s[k] != c
    ensures r.None? ==> forall k :: j <= k < |s| && s[k] == c ==> !LineFeedFree(s, j, k)
    decreases |s| - j
  {
    if j == |s| then None
    else if s[j] == c then Some(j)
    else if s[j] == '\n' then None
    else FindOnLine(s, j + 1, c)
  }

  /** The first k >= j with s[k] == c. */
  function FindChar(s: string, j: nat, c: char): (r: Option<nat>)
    requires j <= |s|
    ensures r.Some? ==> j <= r.value < |s| && s[r.value] == c
    ensures r.Some? ==> forall k :: j <= k < r.value ==> s[k] != c
    ensures r.None? ==> forall k :: j <= k < |s| ==> s[k] != c
    decreases |s| - j
  {
    if j == |s| then None
    else if s[j] == c then Some(j)
    else FindChar(s, j + 1, c)
  }

  // ---------------------------------------------------------------- bold: two markers, a lazy run, two markers

  /** s[i..e] is two markers, a run without line feeds, two markers. */
  predicate BoldShape(m: Marker, s: string, i: nat, e: nat) {
    i + 4 <= e <= |s| && PairAt(s, i, MarkerChar(m)) && PairAt(s, e - 2, MarkerChar(m))
    && LineFeedFree(s, i + 2, e - 2)
  }

  /** The lazy group makes the match the shortest span of bold shape starting at i. */
  function BoldMatch(m: Marker, s: string, i: nat): (r: Option<Hit>)
    requires i <= |s|
    ensures r.Some? ==> BoldShape(m, s, i, r.value.end) && r.value.group1 == s[i + 2..r.value.end - 2]
    ensures forall e {:trigger BoldShape(m, s, i, e)} :: BoldShape(m, s, i, e) ==> r.Some? && r.value.end <= e
  {
    if PairAt(s, i, MarkerChar(m)) then
      match FindPair(s, i + 2, MarkerChar(m))
      case Some(k) => Some(Hit(k + 2, s[i + 2..k], ""))
      case None => None
    else None
  }

  // ---------------------------------------------------------------- italic: one marker each side, with look-arounds

  /** The look-behinds: the character before the opening marker is neither the marker nor
      a word character. */
  predicate FreeBefore(c: char, s: string, i: nat)
    requires i <= |s|
  {
    i == 0 || (s[i - 1] != c && !IsWord(s[i - 1]))
  }

  /** The look-aheads: the character after the closing marker is neither the marker nor a
      word character. */
  predicate FreeAfter(c: char, s: string, e: nat)
    requires e <= |s|
  {
    e == |s| || (s[e] != c && !IsWord(s[e]))
  }

  /** A group of one character. The pattern reads bytes. The second alternative takes one
      ASCII word character. A character above U+007F is two or more bytes in UTF-8, none
      of them the marker or white space, so the first alternative takes it whole. */
  predicate LoneItalicChar(ch: char) {
    IsWord(ch) || ch > '\U{007F}'
  }

  /** The italic group: at least two characters without the marker that neither start nor
      end with white space, or a lone character of the kind above. */
  predicate ItalicContent(c: char, t: string) {
    || (|t| >= 2 && t[0] != c && !IsSpace(t[0]) && t[|t| - 1] != c && !IsSpace(t[|t| - 1])
        && forall k :: 1 <= k < |t| - 1 ==> t[k] != c)
    || (|t| == 1 && LoneItalicChar(t[0]))
  }

  predicate ItalicShape(m: Marker, s: string, i: nat, e: nat) {
    var c := MarkerChar(m);
    i + 3 <= e <= |s| && FreeBefore(c, s, i) && s[i] == c && s[e - 1] == c
    && ItalicContent(c, s[i + 1..e - 1]) && FreeAfter(c, s, e)
  }

  /** The first alternative can only close at the first marker after the opening one,
      the second only right after one character, so at most one span qualifies. */
  function ItalicMatch(m: Marker, s: string, i: nat): (r: Option<Hit>)
    requires i <= |s|
    ensures r.Some? ==> ItalicShape(m, s, i, r.value.end) && r.value.group1 == s[i + 1..r.value.end - 1]
    ensures forall e {:trigger ItalicShape(m, s, i, e)} :: ItalicShape(m, s, i, e) ==> r.Some? && r.value.end == e
  {
    var c := MarkerChar(m);
    ItalicShapesClose(m, s, i);
    if i + 3 <= |s| && FreeBefore(c, s, i) && s[i] == c then
      var close := FindChar(s, i + 2, c);
      if s[i + 1] != c && !IsSpace(s[i + 1]) && close.Some? && close.value >= i + 3
         && !IsSpace(s[close.value - 1]) && FreeAfter(c, s, close.value + 1)
      then
        ItalicLongShape(m, s, i, close.value);
        Some(Hit(close.value + 1, s[i + 1..close.value], ""))
      else if LoneItalicChar(s[i + 1]) && s[i + 2] == c && FreeAfter(c, s, i + 3) then
        Some(Hit(i + 3, s[i + 1..i + 2], ""))
      else None
    else None
  }

  /** The first alternative matches up to the first marker after the opening one. */
  lemma ItalicLongShape(m: Marker, s: string, i: nat, k: nat)
    requires i + 3 <= k < |s| && FreeBefore(MarkerChar(m), s, i) && s[i] == MarkerChar(m)
    requires s[i + 1] != MarkerChar(m) && !IsSpace(s[i + 1]) && !IsSpace(s[k - 1])
    requires FindChar(s, i + 2, MarkerChar(m)) == Some(k) && FreeAfter(MarkerChar(m), s, k + 1)
    ensures ItalicShape(m, s, i, k + 1)
  {
    var c, t := MarkerChar(m), s[i + 1..k];
    assert forall j :: 1 <= j < |t| ==> t[j] == s[i + 1 + j];
    assert ItalicContent(c, t);
  }

  /** Where a span of italic shape closes, as ItalicMatch looks for it. */
  lemma ItalicShapeClose(m: Marker, s: string, i: nat, e: nat)
    requires ItalicShape(m, s, i, e)
    ensures var c := MarkerChar(m);
            if e == i + 3 then LoneItalicChar(s[i + 1]) && s[i + 2] == c
            else e >= i + 4 && s[i + 1] != c && !IsSpace(s[i + 1]) && !IsSpace(s[e - 2])
                 && FindChar(s, i + 2, c) == Some(e - 1)
  {
    var c, t := MarkerChar(m), s[i + 1..e - 1];
    if e > i + 3 {
      assert t[0] == s[i + 1] && t[|t| - 1] == s[e - 2];
      forall j | i + 2 <= j < e - 1
        ensures s[j] != c
      {
        assert s[j] == t[j - i - 1];
      }
    }
  }

  lemma ItalicShapesClose(m: Marker, s: string, i: nat)
    ensures forall e: nat {:trigger ItalicShape(m, s, i, e)} :: ItalicShape(m, s, i, e) ==>
            var c := MarkerChar(m);
            if e == i + 3 then LoneItalicChar(s[i + 1]) && s[i + 2] == c
            else e >= i + 4 && s[i + 1] != c && !IsSpace(s[i + 1]) && !IsSpace(s[e - 2])
                 && FindChar(s, i + 2, c) == Some(e - 1)
  {
    forall e: nat | ItalicShape(m, s, i, e) {
      ItalicShapeClose(m, s, i, e);
    }
  }

  // ---------------------------------------------------------------- code: a lazy run between backticks

  predicate CodeShape(s: string, i: nat, e: nat) {
    i + 2 <= e <= |s| && s[i] == '`' && s[e - 1] == '`' && LineFeedFree(s, i + 1, e - 1)
  }

  function CodeMatch(s: string, i: nat): (r: Option<Hit>)
    requires i <= |s|
    ensures r.Some? ==> CodeShape(s, i, r.value.end) && r.value.group1 == s[i + 1..r.value.end - 1]
    ensures forall e {:trigger CodeShape(s, i, e)} :: CodeShape(s, i, e) ==> r.Some? && r.value.end <= e
  {
    if i < |s| && s[i] == '`' then
      match FindOnLine(s, i + 1, '`')
      case Some(k) => Some(Hit(k + 1, s[i + 1..k], ""))
      case None => None
    else None
  }

  // ---------------------------------------------------------------- link: caption in brackets, target in parentheses

  /** s[i..e] is `[`, a non-empty caption without `]`, `](` at b, a non-empty target without `)`, `)`. */
  predicate LinkShape(s: string, i: nat, b: nat, e: nat) {
    i + 1 < b && b + 3 < e <= |s| && s[i] == '[' && s[b] == ']' && s[b + 1] == '(' && s[e - 1] == ')'
    && (forall k :: i < k < b ==> s[k] != ']')
    && (forall k :: b + 2 <= k < e - 1 ==> s[k] != ')')
  }

  /** The caption stops at the first `]`, the target at the first `)`: the match is unique. */
  function LinkMatch(s: string, i: nat): (r: Option<Hit>)
    requires i <= |s|
    ensures r.Some? ==>
      var b := i + 1 + |r.value.group1|;
      && LinkShape(s, i, b, r.value.end)
      && r.value.group1 == s[i + 1..b] && r.value.group2 == s[b + 2..r.value.end - 1]
    ensures forall b: nat, e: nat {:trigger LinkShape(s, i, b, e)} :: LinkShape(s, i, b, e) ==>
      r.Some? && r.value.end == e && |r.value.group1| == b - i - 1
  {
    if i < |s| && s[i] == '[' then
      match FindChar(s, i + 1, ']')
      case Some(b) =>
        if b > i + 1 && b + 1 < |s| && s[b + 1] == '(' then
          match FindChar(s, b + 2, ')')
          case Some(k) =>
            if k > b + 2 then Some(Hit(k + 1, s[i + 1..b], s[b + 2..k]))
            else
              assert forall b': nat, e: nat :: LinkShape(s, i, b', e) ==> b' == b;
              None
          case None => None
        else None
      case None => None
    else None
  }

  // ---------------------------------------------------------------- one pass

  /** The character every match of the pattern starts with. */
  function Opener(p: Pattern): char {
    match p
    case Bold(m) => MarkerChar(m)
    case Italic(m) => MarkerChar(m)
    case Code => '`'
    case Link => '['
  }

  function MatchAt(p: Pattern, s: string, i: nat): (r: Option<Hit>)
    requires i <= |s|
    ensures r.Some? ==> i < r.value.end <= |s| && s[i] == Opener(p)
  {
    match p
    case Bold(m) => BoldMatch(m, s, i)
    case Italic(m) => ItalicMatch(m, s, i)
    case Code => CodeMatch(s, i)
    case Link => LinkMatch(s, i)
  }

  /** How a pass cuts its subject: kept characters and matches, left to right. */
  datatype Piece = Literal(c: char) | Matched(text: string, hit: Hit)

  /** preg_replace_callback's search: try a match at i; on success resume after it,
      otherwise keep s[i] and try at i + 1. */
  function Pieces(p: Pattern, s: string, i: nat): seq<Piece>
    requires i <= |s|
    decreases |s| - i
  {
    if i == |s| then []
    else
      match MatchAt(p, s, i)
      case Some(h) => [Matched(s[i..h.end], h)] + Pieces(p, s, h.end)
      case None => [Literal(s[i])] + Pieces(p, s, i + 1)
  }

  /** The text the pieces were cut from. */
  function Source(ps: seq<Piece>): string {
    if ps == [] then []
    else (match ps[0] case Literal(c) => [c] case Matched(t, _) => t) + Source(ps[1..])
  }

  /** esc_url() on a link target, or esc_html() when esc_url does not exist. */
  function EscapeUrl(wp: WordPress, url: string): string {
    match wp.escUrl
    case Some(f) => f(url)
    case None => wp.escHtml(url)
  }

  /** The callback of each pass. */
  function Replacement(p: Pattern, wp: WordPress, h: Hit): string {
    match p
    case Bold(_) => "<strong>" + wp.escHtml(h.group1) + "</strong>"
    case Italic(_) => "<em>" + wp.escHtml(h.group1) + "</em>"
    case Code => "<code>" + wp.escHtml(h.group1) + "</code>"
    case Link => "<a href=\"" + EscapeUrl(wp, h.group2) + "\" rel=\"nofollow\">" + wp.escHtml(h.group1) + "</a>"
  }

  /** Kept characters stay as they are; each match becomes its replacement. */
  function Render(p: Pattern, wp: WordPress, ps: seq<Piece>): string {
    if ps == [] then []
    else
      (match ps[0] case Literal(c) => [c] case Matched(_, h) => Replacement(p, wp, h))
      + Render(p, wp, ps[1..])
  }

  /** One preg_replace_callback pass over the whole subject. */
  function Apply(p: Pattern, wp: WordPress, s: string): string {
    Render(p, wp, Pieces(p, s, 0))
  }

  /** The passes in sequence, each on the output of the one before. */
  function ApplyAll(ps: seq<Pattern>, wp: WordPress, s: string): string
    decreases |ps|
  {
    if ps == [] then s else ApplyAll(ps[1..], wp, Apply(ps[0], wp, s))
  }

  /** markdown_comments_apply_inline_formatting */
  function Format(wp: WordPress, s: string): string {
    ApplyAll(Passes, wp, s)
  }

  // ---------------------------------------------------------------- properties

  /** The formatter is the six passes composed in their fixed order. */
  lemma FormatPipeline(wp: WordPress, s: string)
    ensures Format(wp, s) ==
      Apply(Link, wp, Apply(Code, wp, Apply(Italic(Underscore), wp, Apply(Italic(Star), wp,
        Apply(Bold(Underscore), wp, Apply(Bold(Star), wp, s))))))
  {
    var ps := Passes;
    assert ps[1..][1..][1..][1..][1..][1..] == [];
  }

  /** Chaining the six passes one result at a time. */
  lemma FormatSteps(wp: WordPress, s: string, a: string, b: string, c: string, d: string, e: string, f: string)
    requires Apply(Bold(Star), wp, s) == a && Apply(Bold(Underscore), wp, a) == b
    requires Apply(Italic(Star), wp, b) == c && Apply(Italic(Underscore), wp, c) == d
    requires Apply(Code, wp, d) == e && Apply(Link, wp, e) == f
    ensures Format(wp, s) == f
  {
    FormatPipeline(wp, s);
  }

  /** A pass cuts its subject without losing or reordering any of it. */
  lemma {:induction false} PiecesCoverSubject(p: Pattern, s: string, i: nat)
    requires i <= |s|
    ensures Source(Pieces(p, s, i)) == s[i..]
    decreases |s| - i
  {
    if i < |s| {
      match MatchAt(p, s, i)
      case Some(h) =>
        PiecesCoverSubject(p, s, h.end);
        CoverMatched(s, i, h, Pieces(p, s, h.end));
      case None =>
        PiecesCoverSubject(p, s, i + 1);
        CoverLiteral(s, i, Pieces(p, s, i + 1));
    }
  }

  lemma CoverMatched(s: string, i: nat, h: Hit, rest: seq<Piece>)
    requires i < h.end <= |s| && Source(rest) == s[h.end..]
    ensures Source([Matched(s[i..h.end], h)] + rest) == s[i..]
  {
    assert ([Matched(s[i..h.end], h)] + rest)[1..] == rest;
    assert s[i..] == s[i..h.end] + s[h.end..];
  }

  lemma CoverLiteral(s: string, i: nat, rest: seq<Piece>)
    requires i < |s| && Source(rest) == s[i + 1..]
    ensures Source([Literal(s[i])] + rest) == s[i..]
  {
    assert ([Literal(s[i])] + rest)[1..] == rest;
    assert s[i..] == [s[i]] + s[i + 1..];
  }

  lemma {:induction false} RenderWithoutMatch(p: Pattern, wp: WordPress, s: string, i: nat)
    requires i <= |s|
    requires forall k :: i <= k < |s| ==> MatchAt(p, s, k).None?
    ensures Render(p, wp, Pieces(p, s, i)) == s[i..]
    decreases |s| - i
  {
    if i < |s| {
      RenderWithoutMatch(p, wp, s, i + 1);
      var ps := Pieces(p, s, i);
      assert ps[1..] == Pieces(p, s, i + 1);
      assert s[i..] == [s[i]] + s[i + 1..];
    }
  }

  /** Where the pattern matches nowhere, a pass returns its subject unchanged. */
  lemma ApplyWithoutMatch(p: Pattern, wp: WordPress, s: string)
    requires forall k :: 0 <= k < |s| ==> MatchAt(p, s, k).None?
    ensures Apply(p, wp, s) == s
  {
    RenderWithoutMatch(p, wp, s, 0);
  }

  /** A subject without the pattern's opening character passes through unchanged. */
  lemma ApplyWithoutOpener(p: Pattern, wp: WordPress, s: string)
    requires Opener(p) !in s
    ensures Apply(p, wp, s) == s
  {
    forall k | 0 <= k < |s| ensures MatchAt(p, s, k).None? {
      assert s[k] in s;
    }
    ApplyWithoutMatch(p, wp, s);
  }

  /** Text with none of `*`, `_`, a backtick or `[` comes out of the formatter unchanged. */
  lemma FormatPlainText(wp: WordPress, s: string)
    requires '*' !in s && '_' !in s && '`' !in s && '[' !in s
    ensures Format(wp, s) == s
  {
    ApplyWithoutOpener(Bold(Star), wp, s);
    ApplyWithoutOpener(Bold(Underscore), wp, s);
    ApplyWithoutOpener(Italic(Star), wp, s);
    ApplyWithoutOpener(Italic(Underscore), wp, s);
    ApplyWithoutOpener(Code, wp, s);
    ApplyWithoutOpener(Link, wp, s);
  }

  /** The character a match needs at its close, and how many of it a match contains at least. */
  function Closer(p: Pattern): char {
    match p
    case Bold(m) => MarkerChar(m)
    case Italic(m) => MarkerChar(m)
    case Code => '`'
    case Link => ')'
  }

  function Needed(p: Pattern): nat {
    match p
    case Bold(_) => 4
    case Italic(_) => 2
    case Code => 2
    case Link => 1
  }

  lemma CountTwo(s: string, a: nat, b: nat, c: char)
    requires a < b < |s| && s[a] == c && s[b] == c
    ensures Count(s, c) >= 2
  {
    assert s == s[..b] + s[b..];
    CountAppend(s[..b], s[b..], c);
    assert s[..b][a] == c;
    assert s[b..][0] == c;
  }

  lemma CountFour(s: string, a: nat, b: nat, c: char)
    requires a + 1 < b < b + 1 < |s| && s[a] == c && s[a + 1] == c && s[b] == c && s[b + 1] == c
    ensures Count(s, c) >= 4
  {
    assert s == s[..a + 2] + s[a + 2..];
    CountAppend(s[..a + 2], s[a + 2..], c);
    CountTwo(s[..a + 2], a, a + 1, c);
    CountTwo(s[a + 2..], b - a - 2, b - a - 1, c);
  }

  /** Every match contains its closing character at least `Needed` times. */
  lemma MatchNeedsClosers(p: Pattern, s: string, i: nat)
    requires i <= |s| && MatchAt(p, s, i).Some?
    ensures Count(s, Closer(p)) >= Needed(p)
  {
    match p
    case Bold(m) => BoldNeedsClosers(m, s, i, BoldMatch(m, s, i).value.end);
    case Italic(m) => ItalicNeedsClosers(m, s, i, ItalicMatch(m, s, i).value.end);
    case Code => CodeNeedsClosers(s, i);
    case Link => LinkNeedsCloser(s, i);
  }

  lemma BoldNeedsClosers(m: Marker, s: string, i: nat, e: nat)
    requires BoldShape(m, s, i, e)
    ensures Count(s, MarkerChar(m)) >= 4
  {
    CountFour(s, i, e - 2, MarkerChar(m));
  }

  lemma ItalicNeedsClosers(m: Marker, s: string, i: nat, e: nat)
    requires ItalicShape(m, s, i, e)
    ensures Count(s, MarkerChar(m)) >= 2
  {
    CountTwo(s, i, e - 1, MarkerChar(m));
  }

  lemma CodeNeedsClosers(s: string, i: nat)
    requires i <= |s| && CodeMatch(s, i).Some?
    ensures Count(s, '`') >= 2
  {
    CountTwo(s, i, CodeMatch(s, i).value.end - 1, '`');
  }

  lemma LinkNeedsCloser(s: string, i: nat)
    requires i <= |s| && LinkMatch(s, i).Some?
    ensures Count(s, ')') >= 1
  {
    assert s[LinkMatch(s, i).value.end - 1] in s;
  }

  /** An unterminated construct matches nothing: with too few closing characters
      (fewer than four markers for bold, two for italic or code, no `)` for a link)
      the pass leaves its subject as it is. */
  lemma UnterminatedIsLiteral(p: Pattern, wp: WordPress, s: string)
    requires Count(s, Closer(p)) < Needed(p)
    ensures Apply(p, wp, s) == s
  {
    forall k | 0 <= k < |s| ensures MatchAt(p, s, k).None? {
      if MatchAt(p, s, k).Some? {
        MatchNeedsClosers(p, s, k);
      }
    }
    ApplyWithoutMatch(p, wp, s);
  }

  /** A pass that matches exactly the whole subject replaces it by the callback's result. */
  lemma ApplyWholeMatch(p: Pattern, wp: WordPress, s: string, h: Hit)
    requires MatchAt(p, s, 0) == Some(h) && h.end == |s|
    ensures Apply(p, wp, s) == Replacement(p, wp, h)
  {
    var ps := Pieces(p, s, 0);
    assert s[0..h.end] == s;
    assert Pieces(p, s, |s|) == [];
    assert ps == [Matched(s, h)];
    assert ps[1..] == [];
    assert Render(p, wp, ps) == Replacement(p, wp, h) + Render(p, wp, []);
  }

  /** Text without any of the formatter's opening characters. */
  predicate MarkerFree(t: string) {
    '*' !in t && '_' !in t && '`' !in t && '[' !in t
  }

  /** A subject that is one bold span `ccwcc` becomes `<strong>esc_html(w)</strong>`
      when w holds neither the marker nor a line feed (w may be empty). */
  lemma BoldSpan(m: Marker, wp: WordPress, w: string)
    requires MarkerChar(m) !in w && '\n' !in w
    ensures Apply(Bold(m), wp, [MarkerChar(m), MarkerChar(m)] + w + [MarkerChar(m), MarkerChar(m)]) == "<strong>" + wp.escHtml(w) + "</strong>"
  {
    var c := MarkerChar(m);
    var s := [c, c] + w + [c, c];
    assert BoldShape(m, s, 0, |s|);
    var h := BoldMatch(m, s, 0).value;
    assert h.group1 == s[2..|s| - 2] == w;
    ApplyWholeMatch(Bold(m), wp, s, h);
  }

  /** `**w**` comes out of the formatter as `<strong>esc_html(w)</strong>`. */
  lemma FormatBold(wp: WordPress, w: string)
    requires MarkerFree(w) && '\n' !in w && MarkerFree(wp.escHtml(w))
    ensures Format(wp, "**" + w + "**") == "<strong>" + wp.escHtml(w) + "</strong>"
  {
    var t := "<strong>" + wp.escHtml(w) + "</strong>";
    StarBoldSpan(wp, w);
    StrongKept(wp, wp.escHtml(w));
    FormatSteps(wp, "**" + w + "**", t, t, t, t, t, t);
  }

  lemma StarBoldSpan(wp: WordPress, w: string)
    requires '*' !in w && '\n' !in w
    ensures Apply(Bold(Star), wp, "**" + w + "**") == "<strong>" + wp.escHtml(w) + "</strong>"
  {
    BoldSpan(Star, wp, w);
  }

  /** The five passes after the first keep a `<strong>` element with marker-free content. */
  lemma StrongKept(wp: WordPress, e: string)
    requires MarkerFree(e)
    ensures var t := "<strong>" + e + "</strong>";
            && Apply(Bold(Underscore), wp, t) == t && Apply(Italic(Star), wp, t) == t
            && Apply(Italic(Underscore), wp, t) == t && Apply(Code, wp, t) == t && Apply(Link, wp, t) == t
  {
    var t := "<strong>" + e + "</strong>";
    assert MarkerFree(t);
    ApplyWithoutOpener(Bold(Underscore), wp, t);
    ApplyWithoutOpener(Italic(Star), wp, t);
    ApplyWithoutOpener(Italic(Underscore), wp, t);
    ApplyWithoutOpener(Code, wp, t);
    ApplyWithoutOpener(Link, wp, t);
  }

  /** A subject that is one italic span `cwc` becomes `<em>esc_html(w)</em>` when w is
      valid italic content. */
  lemma ItalicSpan(m: Marker, wp: WordPress, w: string)
    requires ItalicContent(MarkerChar(m), w)
    ensures Apply(Italic(m), wp, [MarkerChar(m)] + w + [MarkerChar(m)]) == "<em>" + wp.escHtml(w) + "</em>"
  {
    var c := MarkerChar(m);
    var s := [c] + w + [c];
    assert s[1..|s| - 1] == w;
    assert ItalicShape(m, s, 0, |s|);
    var h := ItalicMatch(m, s, 0).value;
    ApplyWholeMatch(Italic(m), wp, s, h);
  }

  /** A lone accented letter between asterisks is italic: as bytes it is the two-byte
      group of the first alternative, although it is no word character. */
  lemma AccentedLetterIsItalic(wp: WordPress)
    ensures Apply(Italic(Star), wp, "*\U{00E9}*") == "<em>" + wp.escHtml("\U{00E9}") + "</em>"
  {
    assert [MarkerChar(Star)] + "\U{00E9}" + [MarkerChar(Star)] == "*\U{00E9}*";
    ItalicSpan(Star, wp, "\U{00E9}");
  }

  /** Text with fewer than four asterisks and no underscore passes both bold passes unchanged. */
  lemma BoldPassesSkip(wp: WordPress, s: string)
    requires Count(s, '*') < 4 && '_' !in s
    ensures Apply(Bold(Underscore), wp, Apply(Bold(Star), wp, s)) == s
  {
    UnterminatedIsLiteral(Bold(Star), wp, s);
    ApplyWithoutOpener(Bold(Underscore), wp, s);
  }

  lemma CountEnclosed(w: string, c: char)
    requires c !in w
    ensures Count([c] + w + [c], c) == 2
  {
    CountAppend([c] + w, [c], c);
    CountAppend([c], w, c);
  }

  /** `*w*` comes out of the formatter as `<em>esc_html(w)</em>`: one `*` on each side is
      too few for bold. */
  lemma FormatItalic(wp: WordPress, w: string)
    requires (|w| >= 2 && !IsSpace(w[0]) && !IsSpace(w[|w| - 1])) || (|w| == 1 && LoneItalicChar(w[0]))
    requires MarkerFree(w) && MarkerFree(wp.escHtml(w))
    ensures Format(wp, "*" + w + "*") == "<em>" + wp.escHtml(w) + "</em>"
  {
    var s := "*" + w + "*";
    var t := "<em>" + wp.escHtml(w) + "</em>";
    StarItalicSkipsBold(wp, w);
    StarItalicSpan(wp, w);
    EmKept(wp, wp.escHtml(w));
    FormatSteps(wp, s, s, s, t, t, t, t);
  }

  lemma StarItalicSkipsBold(wp: WordPress, w: string)
    requires MarkerFree(w)
    ensures Apply(Bold(Star), wp, "*" + w + "*") == "*" + w + "*"
    ensures Apply(Bold(Underscore), wp, "*" + w + "*") == "*" + w + "*"
  {
    var s := "*" + w + "*";
    CountEnclosed(w, '*');
    assert ['*'] + w + ['*'] == s;
    UnterminatedIsLiteral(Bold(Star), wp, s);
    ApplyWithoutOpener(Bold(Underscore), wp, s);
  }

  lemma StarItalicSpan(wp: WordPress, w: string)
    requires (|w| >= 2 && !IsSpace(w[0]) && !IsSpace(w[|w| - 1])) || (|w| == 1 && LoneItalicChar(w[0]))
    requires MarkerFree(w)
    ensures Apply(Italic(Star), wp, "*" + w + "*") == "<em>" + wp.escHtml(w) + "</em>"
  {
    assert [MarkerChar(Star)] + w + [MarkerChar(Star)] == "*" + w + "*";
    assert ItalicContent('*', w);
    ItalicSpan(Star, wp, w);
  }

  /** The three passes after the italic ones keep an `<em>` element with marker-free content. */
  lemma EmKept(wp: WordPress, e: string)
    requires MarkerFree(e)
    ensures var t := "<em>" + e + "</em>";
            Apply(Italic(Underscore), wp, t) == t && Apply(Code, wp, t) == t && Apply(Link, wp, t) == t
  {
    var t := "<em>" + e + "</em>";
    assert MarkerFree(t);
    ApplyWithoutOpener(Italic(Underscore), wp, t);
    ApplyWithoutOpener(Code, wp, t);
    ApplyWithoutOpener(Link, wp, t);
  }

  /** A subject that is one code span becomes `<code>esc_html(w)</code>`. */
  lemma CodeSpan(wp: WordPress, w: string)
    requires '`' !in w && '\n' !in w
    ensures Apply(Code, wp, "`" + w + "`") == "<code>" + wp.escHtml(w) + "</code>"
  {
    var s := "`" + w + "`";
    assert CodeShape(s, 0, |s|);
    var h := CodeMatch(s, 0).value;
    assert h.group1 == s[1..|s| - 1] == w;
    ApplyWholeMatch(Code, wp, s, h);
  }

  /** `` `w` `` comes out of the formatter as `<code>esc_html(w)</code>`. */
  lemma FormatCode(wp: WordPress, w: string)
    requires MarkerFree(w) && '\n' !in w && '[' !in wp.escHtml(w)
    ensures Format(wp, "`" + w + "`") == "<code>" + wp.escHtml(w) + "</code>"
  {
    var s := "`" + w + "`";
    var t := "<code>" + wp.escHtml(w) + "</code>";
    CodeSkipsEmphasis(wp, w);
    CodeSpan(wp, w);
    CodeKeptByLink(wp, wp.escHtml(w));
    FormatSteps(wp, s, s, s, s, s, t, t);
  }

  /** The four emphasis passes keep a backticked span with marker-free content. */
  lemma CodeSkipsEmphasis(wp: WordPress, w: string)
    requires MarkerFree(w)
    ensures var s := "`" + w + "`";
            && Apply(Bold(Star), wp, s) == s && Apply(Bold(Underscore), wp, s) == s
            && Apply(Italic(Star), wp, s) == s && Apply(Italic(Underscore), wp, s) == s
  {
    var s := "`" + w + "`";
    ApplyWithoutOpener(Bold(Star), wp, s);
    ApplyWithoutOpener(Bold(Underscore), wp, s);
    ApplyWithoutOpener(Italic(Star), wp, s);
    ApplyWithoutOpener(Italic(Underscore), wp, s);
  }

  /** The link pass keeps a `<code>` element without `[`. */
  lemma CodeKeptByLink(wp: WordPress, e: string)
    requires '[' !in e
    ensures Apply(Link, wp, "<code>" + e + "</code>") == "<code>" + e + "</code>"
  {
    ApplyWithoutOpener(Link, wp, "<code>" + e + "</code>");
  }

  /** A subject that is one link becomes an anchor with the sanitised target and the escaped caption. */
  lemma LinkSpan(wp: WordPress, caption: string, url: string)
    requires caption != [] && ']' !in caption && url != [] && ')' !in url
    ensures Apply(Link, wp, "[" + caption + "](" + url + ")") ==
      "<a href=\"" + EscapeUrl(wp, url) + "\" rel=\"nofollow\">" + wp.escHtml(caption) + "</a>"
  {
    var s := "[" + caption + "](" + url + ")";
    var h := LinkTextMatch(caption, url, s);
    ApplyWholeMatch(Link, wp, s, h);
  }

  /** The link pattern matches all of `[caption](url)`, with the caption and the url as
      its groups. */
  lemma LinkTextMatch(caption: string, url: string, s: string) returns (h: Hit)
    requires caption != [] && ']' !in caption && url != [] && ')' !in url
    requires s == "[" + caption + "](" + url + ")"
    ensures MatchAt(Link, s, 0) == Some(h) && h.end == |s| && h.group1 == caption && h.group2 == url
  {
    var b := |caption| + 1;
    assert s[1..b] == caption;
    assert s[b + 2..|s| - 1] == url;
    assert LinkShape(s, 0, b, |s|);
    h := LinkMatch(s, 0).value;
  }

  /** `[caption](url)` comes out of the formatter as an anchor. */
  lemma FormatLink(wp: WordPress, caption: string, url: string)
    requires caption != [] && ']' !in caption && url != [] && ')' !in url
    requires MarkerFree(caption) && MarkerFree(url)
    ensures Format(wp, "[" + caption + "](" + url + ")") ==
      "<a href=\"" + EscapeUrl(wp, url) + "\" rel=\"nofollow\">" + wp.escHtml(caption) + "</a>"
  {
    var s := "[" + caption + "](" + url + ")";
    LinkSkipsOthers(wp, caption, url);
    LinkSpan(wp, caption, url);
    FormatSteps(wp, s, s, s, s, s, s,
      "<a href=\"" + EscapeUrl(wp, url) + "\" rel=\"nofollow\">" + wp.escHtml(caption) + "</a>");
  }

  /** The five passes before the link pass keep a link whose parts are marker-free. */
  lemma LinkSkipsOthers(wp: WordPress, caption: string, url: string)
    requires MarkerFree(caption) && MarkerFree(url)
    ensures var s := "[" + caption + "](" + url + ")";
            && Apply(Bold(Star), wp, s) == s && Apply(Bold(Underscore), wp, s) == s
            && Apply(Italic(Star), wp, s) == s && Apply(Italic(Underscore), wp, s) == s
            && Apply(Code, wp, s) == s
  {
    var s := "[" + caption + "](" + url + ")";
    ApplyWithoutOpener(Bold(Star), wp, s);
    ApplyWithoutOpener(Bold(Underscore), wp, s);
    ApplyWithoutOpener(Italic(Star), wp, s);
    ApplyWithoutOpener(Italic(Underscore), wp, s);
    ApplyWithoutOpener(Code, wp, s);
  }

  /** The bold pass replaces the span between the backticks and keeps the backticks. */
  lemma BoldInsideBackticks(wp: WordPress, w: string)
    requires '*' !in w && '\n' !in w
    ensures Apply(Bold(Star), wp, "`**" + w + "**`") == "`<strong>" + wp.escHtml(w) + "</strong>`"
  {
    var s := "`**" + w + "**`";
    var h := BacktickedBoldMatch(w, s);
    ApplyMatchInside(Bold(Star), wp, s, h);
  }

  /** In `` `**w**` `` the bold pattern matches only the span inside the backticks. */
  lemma BacktickedBoldMatch(w: string, s: string) returns (h: Hit)
    requires '*' !in w && '\n' !in w && s == "`**" + w + "**`"
    ensures |s| >= 2 && s[0] == '`' && s[|s| - 1] == '`'
    ensures MatchAt(Bold(Star), s, 0).None? && MatchAt(Bold(Star), s, |s| - 1).None?
    ensures MatchAt(Bold(Star), s, 1) == Some(h) && h.end == |s| - 1 && h.group1 == w
  {
    var n := |s|;
    assert BoldShape(Star, s, 1, n - 1);
    h := BoldMatch(Star, s, 1).value;
    assert h.group1 == s[3..n - 3] == w;
    assert MatchAt(Bold(Star), s, 0).None?;
    assert MatchAt(Bold(Star), s, n - 1).None?;
  }

  /** A subject whose first and last characters are kept and whose middle is one match. */
  lemma ApplyMatchInside(p: Pattern, wp: WordPress, s: string, h: Hit)
    requires |s| >= 2 && MatchAt(p, s, 0).None? && MatchAt(p, s, 1) == Some(h)
    requires h.end == |s| - 1 && MatchAt(p, s, |s| - 1).None?
    ensures Apply(p, wp, s) == [s[0]] + Replacement(p, wp, h) + [s[|s| - 1]]
  {
    var n := |s|;
    var last := [Literal(s[n - 1])];
    assert Pieces(p, s, n) == [];
    assert Pieces(p, s, n - 1) == last;
    assert Pieces(p, s, 1) == [Matched(s[1..n - 1], h)] + last;
    var ps := Pieces(p, s, 0);
    assert ps == [Literal(s[0])] + ([Matched(s[1..n - 1], h)] + last);
    assert last[1..] == [];
    assert Render(p, wp, last) == [s[n - 1]];
    assert ps[1..][1..] == last;
    assert Render(p, wp, ps[1..]) == Replacement(p, wp, h) + [s[n - 1]];
  }

  /** The passes run in order and each escapes what it captures, even markup an earlier
      pass produced: a code span around bold text escapes the `<strong>` tags. */
  lemma CodeSpanEscapesEarlierMarkup(wp: WordPress, w: string)
    requires MarkerFree(w) && '\n' !in w
    requires MarkerFree(wp.escHtml(w)) && '\n' !in wp.escHtml(w)
    requires '[' !in wp.escHtml("<strong>" + wp.escHtml(w) + "</strong>")
    ensures Format(wp, "`**" + w + "**`") ==
      "<code>" + wp.escHtml("<strong>" + wp.escHtml(w) + "</strong>") + "</code>"
  {
    var s := "`**" + w + "**`";
    var x := "<strong>" + wp.escHtml(w) + "</strong>";
    var t := "`<strong>" + wp.escHtml(w) + "</strong>`";
    var u := "<code>" + wp.escHtml(x) + "</code>";
    BoldInsideBackticks(wp, w);
    BacktickedStrongKept(wp, wp.escHtml(w));
    CodeAroundStrong(wp, wp.escHtml(w));
    CodeKeptByLink(wp, wp.escHtml(x));
    FormatSteps(wp, s, t, t, t, t, u, u);
  }

  /** The three passes after the first bold one keep a backticked `<strong>` element. */
  lemma BacktickedStrongKept(wp: WordPress, e: string)
    requires MarkerFree(e)
    ensures var t := "`<strong>" + e + "</strong>`";
            && Apply(Bold(Underscore), wp, t) == t && Apply(Italic(Star), wp, t) == t
            && Apply(Italic(Underscore), wp, t) == t
  {
    var t := "`<strong>" + e + "</strong>`";
    StrongHasNoMarker(e, t);
    ApplyWithoutOpener(Bold(Underscore), wp, t);
    ApplyWithoutOpener(Italic(Star), wp, t);
    ApplyWithoutOpener(Italic(Underscore), wp, t);
  }

  lemma StrongHasNoMarker(e: string, t: string)
    requires MarkerFree(e) && t == "`<strong>" + e + "</strong>`"
    ensures '*' !in t && '_' !in t
  {
    assert '*' !in "`<strong>" && '_' !in "`<strong>";
    assert '*' !in "</strong>`" && '_' !in "</strong>`";
  }

  /** The code pass captures the `<strong>` element and escapes it whole. */
  lemma CodeAroundStrong(wp: WordPress, e: string)
    requires '`' !in e && '\n' !in e
    ensures Apply(Code, wp, "`<strong>" + e + "</strong>`") ==
            "<code>" + wp.escHtml("<strong>" + e + "</strong>") + "</code>"
  {
    var x := "<strong>" + e + "</strong>";
    assert "`" + x + "`" == "`<strong>" + e + "</strong>`";
    CodeSpan(wp, x);
  }

  /** The word-character look-behind: an underscore right after a word character never opens
      italics, so identifiers like snake_case_name are kept. */
  lemma IntrawordUnderscoresStayLiteral(wp: WordPress, s: string)
    requires forall k :: 0 <= k < |s| && s[k] == '_' ==> k > 0 && IsWord(s[k - 1])
    ensures Apply(Italic(Underscore), wp, s) == s
  {
    ApplyWithoutMatch(Italic(Underscore), wp, s);
  }

  /** The group cannot start with white space: an asterisk followed by white space never
      opens italics, so `2 * 3 * 4` is kept. */
  lemma SpacedAsterisksStayLiteral(wp: WordPress, s: string)
    requires forall k :: 0 <= k < |s| && s[k] == '*' ==> k + 1 < |s| && IsSpace(s[k + 1])
    ensures Apply(Italic(Star), wp, s) == s
  {
    ApplyWithoutMatch(Italic(Star), wp, s);
  }

}
