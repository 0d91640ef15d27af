# Markdown Comments for WordPress: the converter, in Dafny

This project models the Markdown converter of the WordPress plugin "Markdown Comments for
WordPress" and proves properties of it. The converter has three parts:

- **The inline formatter.** `markdown_comments_apply_inline_formatting` runs six
  `preg_replace_callback` passes in a fixed order: bold with `**`, bold with `__`, italic
  with `*`, italic with `_`, code spans, then links.
- **The block parser.** `markdown_comments_parse_markdown` makes two passes over the lines.
  - Pass 1 trims each line and sorts it into a blank line, a heading, a bullet or numbered
    list item, or raw text. It emits the list open and close tags, a list being a "cursor"
    of at most one open list.
  - Pass 2 gathers consecutive raw lines into `<p>` paragraphs and formats each paragraph
    once. It copies block lines through.
  - The result is joined with line feeds.
- **The `comment_text` filter.** `markdown_comments_filter_comment_text` normalises en and
  em dashes, converts the comment and passes the HTML to `wp_kses_post`. When the feature
  is switched off, it returns the comment unchanged.

Modules:

- `Text`: the PHP string primitives. These are `trim()`, `empty()`, `explode`, `implode`,
  `str_replace` of one character, and the PCRE classes `\s`, `\w` and `\d` (no `/u` flag).
- `Host`: the WordPress functions the converter calls, passed in as a value. These are
  `esc_html`, `esc_url` (which may be missing) and `wp_kses_post`.
- `Inline`: each regular expression as a declarative `...Shape` predicate, plus a
  `...Match` scanner. The scanner is proved to return the span PCRE picks: the shortest
  span for lazy groups, and the only one possible for the italic and link patterns.
  `Pieces`/`Render` model one `preg_replace_callback` pass, and `Format` runs the six
  passes.
- `Blocks`: pass 1. `Classify` sorts one line. `Emit`/`FirstPass` are the reference
  definition. `FirstPassLoop` is the source's `foreach` with its `$output`, `$in_list` and
  `$list_type` variables, proved equal to the reference.
- `Paragraphs`: pass 2. `Chunks` is the reference: it splits the lines into block lines and
  maximal runs of prose. `SecondPassLoop` is the source's loop with its
  `$current_paragraph` buffer, proved equal to `SecondPass`.
- `Markdown`: `ParseMarkdown`, `FilterCommentText`, and lemmas about the whole converter.

## Model

| member | source | states |
|---|---|---|
| Text.Trim | markdown-comments-for-wordpress.php:197 | trim() removes exactly the maximal runs of " \t\n\r\0\x0B" at both ends and keeps the slice between them |
| Text.TrimOfTrimmed | markdown-comments-for-wordpress.php:273 | trimming a line again, as pass 2 does with pass 1's trimmed output, changes nothing |
| Text.TrimKeepsLine | markdown-comments-for-wordpress.php:197 | a trimmed line still holds no line feed |
| Text.JoinSplit | markdown-comments-for-wordpress.php:191 | implode("\n", explode("\n", s)) == s: splitting into lines loses nothing |
| Text.SplitSingleLine | markdown-comments-for-wordpress.php:191 | text without a line feed is exactly one line |
| Text.SplitAtNewline | markdown-comments-for-wordpress.php:191 | a line feed after `a` makes `a` the first line and splits the rest on its own |
| Text.ReplaceChar | markdown-comments-for-wordpress.php:325 | after str_replace of a character by text without it, the character is gone; text without it is unchanged; no character appears that was in neither |
| Inline.BoldMatch | markdown-comments-for-wordpress.php:151-156 | `\*\*(.*?)\*\*` and `__(.*?)__`: a hit is a span of bold shape (two markers, a run without line feeds, two markers) with group 1 between the markers, and it is the shortest such span; a miss means none exists |
| Inline.ItalicMatch | markdown-comments-for-wordpress.php:160-167 | the italic patterns with their look-arounds: a hit is a span of italic shape with group 1 inside the markers; every span of that shape is this hit, so there is never a second candidate. A lone content character may be an ASCII word character or any non-ASCII character, because the pattern reads bytes |
| Inline.AccentedLetterIsItalic | markdown-comments-for-wordpress.php:160-162 | `*é*` becomes `<em>` + esc_html("é") + `</em>`: the two bytes of é form the first alternative of the group, although é is no word character |
| Inline.CodeMatch | markdown-comments-for-wordpress.php:168-170 | `` `(.*?)` ``: the shortest backtick span without a line feed, with its inside as group 1 |
| Inline.LinkMatch | markdown-comments-for-wordpress.php:173-176 | `\[([^\]]+)\]\(([^)]+)\)`: a hit is a link shape with caption and target as groups 1 and 2; every link shape at i is this hit |
| Inline.FormatPipeline | markdown-comments-for-wordpress.php:149-179 | the formatter is the six passes composed in the source's order, each on the output of the one before |
| Inline.PiecesCoverSubject | markdown-comments-for-wordpress.php:151 | a pass's scan cuts the subject into kept characters and matches that, put back together, give the subject |
| Inline.ApplyWithoutMatch | markdown-comments-for-wordpress.php:151-176 | a pass whose pattern matches nowhere returns its subject unchanged |
| Inline.ApplyWithoutOpener | markdown-comments-for-wordpress.php:151-176 | a pass over text without its opening character returns it unchanged |
| Inline.FormatPlainText | markdown-comments-for-wordpress.php:149-179 | text without `*`, `_`, a backtick or `[` comes out of the formatter unchanged and unescaped |
| Inline.MatchNeedsClosers | markdown-comments-for-wordpress.php:151-176 | a match needs enough closing characters in the subject: four markers for bold, two for italic and code, one `)` for a link |
| Inline.UnterminatedIsLiteral | markdown-comments-for-wordpress.php:151-176 | an unterminated construct, meaning too few closers, leaves the pass's text unchanged |
| Inline.ApplyWholeMatch | markdown-comments-for-wordpress.php:151-176 | a subject matched whole at 0 is replaced by the pass's callback result |
| Inline.BoldSpan | markdown-comments-for-wordpress.php:151-156 | `**w**` or `__w__` becomes `<strong>` + esc_html(w) + `</strong>`, for w without the marker or a line feed |
| Inline.FormatBold | markdown-comments-for-wordpress.php:149-179 | the whole formatter turns `**w**` into `<strong>esc_html(w)</strong>`, for w without line feed when neither w nor esc_html(w) holds `*`, `_`, a backtick or `[` |
| Inline.ItalicSpan | markdown-comments-for-wordpress.php:160-167 | `*w*` or `_w_` with valid italic content becomes `<em>` + esc_html(w) + `</em>` |
| Inline.BoldPassesSkip | markdown-comments-for-wordpress.php:151-156 | with fewer than four `*` and no `_`, both bold passes leave the text alone |
| Inline.FormatItalic | markdown-comments-for-wordpress.php:149-179 | the whole formatter turns `*w*` into `<em>esc_html(w)</em>`, for w of at least two characters that does not start or end with white space, or a lone word or non-ASCII character, when neither w nor esc_html(w) holds `*`, `_`, a backtick or `[` |
| Inline.CodeSpan | markdown-comments-for-wordpress.php:168-170 | a backticked w without backtick or line feed becomes `<code>` + esc_html(w) + `</code>` |
| Inline.FormatCode | markdown-comments-for-wordpress.php:149-179 | the whole formatter turns a backticked w into `<code>esc_html(w)</code>`, for w without line feed that holds none of `*`, `_`, a backtick or `[`, when esc_html(w) holds no `[` |
| Inline.LinkSpan | markdown-comments-for-wordpress.php:173-176 | `[caption](url)` becomes an anchor with the escaped URL (esc_url, or esc_html when esc_url is missing), `rel="nofollow"` and the escaped caption, for a non-empty caption without `]` and a non-empty url without `)` |
| Inline.FormatLink | markdown-comments-for-wordpress.php:149-179 | the whole formatter produces that anchor, for a non-empty caption without `]` and a non-empty target without `)`, when neither holds `*`, `_`, a backtick or `[` |
| Inline.CodeSpanEscapesEarlierMarkup | markdown-comments-for-wordpress.php:151-170 | because bold runs before code, a backticked `**w**` ends up with the `<strong>` markup escaped inside `<code>`, for w and esc_html(w) without `*`, `_`, a backtick, `[` or a line feed, when the escaped `<strong>` markup holds no `[` |
| Inline.IntrawordUnderscoresStayLiteral | markdown-comments-for-wordpress.php:165-167 | underscores that each follow a word character (snake_case) are never made italic |
| Inline.SpacedAsterisksStayLiteral | markdown-comments-for-wordpress.php:160-162 | asterisks each followed by white space (such as `2 * 3`) are never made italic |
| Blocks.HeadingMatch | markdown-comments-for-wordpress.php:210 | `^(#{1,6})\s+(.+)`: a hit is a heading shape with its level and the start of group 2; every heading shape has this level and starts group 2 no later |
| Blocks.HashRunIsLevel | markdown-comments-for-wordpress.php:215 | the heading level is the full run of leading `#`, so seven hashes are no heading |
| Blocks.BulletMatch | markdown-comments-for-wordpress.php:223 | the bullet pattern: a hit is a bullet shape, and group 1 starts as late as any bullet shape allows |
| Blocks.NumberMatch | markdown-comments-for-wordpress.php:239 | `^\d+\.\s+(.+)`: a hit is a number shape over the whole digit run |
| Blocks.DigitRunIsNumber | markdown-comments-for-wordpress.php:239 | the digits of a numbered item are the whole leading digit run |
| Blocks.Sort | markdown-comments-for-wordpress.php:200-259 | a trimmed line is blank exactly when empty() holds (so "0" is blank); raw text is kept as the trimmed line |
| Blocks.ShapesDisjoint | markdown-comments-for-wordpress.php:210-252 | no line has two of the heading, bullet and number shapes, so the order of the tests does not matter |
| Blocks.HeadingLines | markdown-comments-for-wordpress.php:210-218 | a non-empty line of heading shape is a heading of that level with the trimmed group 2 as content |
| Blocks.OnlyHeadingLines | markdown-comments-for-wordpress.php:210 | only lines of heading shape are headings |
| Blocks.BulletLines | markdown-comments-for-wordpress.php:223-236 | a line of bullet shape is a bullet item with the trimmed group 1 as content |
| Blocks.NumberLines | markdown-comments-for-wordpress.php:239-252 | a line of number shape is a numbered item with the trimmed group 1 as content |
| Blocks.OnlyItemLines | markdown-comments-for-wordpress.php:223-252 | only lines of bullet or number shape are items of that kind |
| Blocks.TextLines | markdown-comments-for-wordpress.php:254-259 | a line is raw text exactly when it is not empty() and has none of the three shapes |
| Blocks.StepOfBlank | markdown-comments-for-wordpress.php:200-207 | an empty() line closes the open list, emits an empty line and leaves no list open |
| Blocks.StepOfHeading | markdown-comments-for-wordpress.php:210-219 | a heading closes the open list and emits `<hN>` around the formatted, trimmed content |
| Blocks.StepOfItem | markdown-comments-for-wordpress.php:223-251 | an item continues an open list of its kind; otherwise it closes the other kind's list, opens its own, and emits `<li>` around the formatted content |
| Blocks.StepOfText | markdown-comments-for-wordpress.php:255-259 | raw text closes the open list and is emitted as the trimmed line, unformatted |
| Blocks.CloseList | markdown-comments-for-wordpress.php:201-204 | appends the close tag owed to the open list (`</ul>` or `</ol>`, none if no list is open) and clears `$in_list` |
| Blocks.EnterList | markdown-comments-for-wordpress.php:224-231 | appends the tags an item owes (none, or the other kind's close tag and its own open tag) and leaves its kind as the open list |
| Blocks.FirstPassLine | markdown-comments-for-wordpress.php:197-259 | one iteration of the pass-1 loop appends exactly the fragments the reference step emits and moves the cursor as the step does |
| Blocks.FirstPassLoop | markdown-comments-for-wordpress.php:191-265 | the pass-1 loop with its final close returns exactly the reference pass 1 |
| Blocks.FirstPassWellFormed | markdown-comments-for-wordpress.php:196-265 | pass 1's output is well formed: every list is opened, holds only items of its kind and is closed; none is nested or left open; two lists of one kind are never adjacent |
| Blocks.FirstPassContents | markdown-comments-for-wordpress.php:196-259 | without its list tags, pass 1's output has one fragment per input line, in order, and that fragment is the line's content |
| Paragraphs.FlushParagraph | markdown-comments-for-wordpress.php:277-283 | appends the buffered lines joined with spaces, formatted and in `<p>`, if the buffer is not empty, and empties it |
| Paragraphs.SecondPassLine | markdown-comments-for-wordpress.php:273-301 | per trimmed line: an empty() line flushes; a line starting with a block tag flushes and is copied; anything else is buffered |
| Paragraphs.SecondPassStep | markdown-comments-for-wordpress.php:272-302 | one loop iteration keeps the output plus the chunks still to come equal to the reference |
| Paragraphs.SecondPassLoop | markdown-comments-for-wordpress.php:268-309 | the pass-2 loop with its final flush returns exactly the reference pass 2 |
| Paragraphs.ChunksKeepLines | markdown-comments-for-wordpress.php:272-309 | pass 2 loses, adds and reorders no line: its chunks hold exactly the non-empty() lines in order |
| Paragraphs.ChunksSorted | markdown-comments-for-wordpress.php:288-301 | each block chunk is a block-tag line, and each paragraph is a non-empty run of prose lines |
| Paragraphs.ProseRunIsOneParagraph | markdown-comments-for-wordpress.php:299-309 | a maximal run of prose lines becomes exactly one paragraph |
| Markdown.ParseMarkdown | markdown-comments-for-wordpress.php:189-312 | the converter (explode, pass 1, pass 2, implode) returns exactly `MarkdownToHtml` |
| Markdown.RenderedRole | markdown-comments-for-wordpress.php:273-301 | pass 2 reads pass 1's strings back correctly: the empty line is a boundary; headings and list tags are block lines; raw text is prose unless it starts with a block tag itself |
| Markdown.FirstPassEmittable | markdown-comments-for-wordpress.php:197-259 | raw text from pass 1 is always trimmed and never empty() |
| Markdown.PassTwoKeepsPassOne | markdown-comments-for-wordpress.php:268-301 | the lines pass 2 groups are exactly pass 1's output without its empty lines, in order |
| Markdown.TagsStayOutOfParagraphs | markdown-comments-for-wordpress.php:196-301 | every heading, list tag and item of pass 1 reaches the output as its own block line, and every paragraph line is raw text from pass 1 |
| Markdown.EmptyLinesGiveNothing | markdown-comments-for-wordpress.php:200-207 | text whose lines are all empty() after trim converts to the empty string |
| Markdown.ZeroCommentIsEmpty | markdown-comments-for-wordpress.php:200 | the comment "0" converts to the empty string, because empty("0") holds |
| Markdown.PlainLineIsParagraph | markdown-comments-for-wordpress.php:254-309 | one line of plain text becomes one `<p>` around its trimmed, formatted text |
| Markdown.HeadingThenParagraph | markdown-comments-for-wordpress.php:189-312 | a heading, a blank line and plain text give the heading, a line feed and the paragraph (for example "# Title\n\nBody text") |
| Markdown.ListKindSwitch | markdown-comments-for-wordpress.php:223-265 | a bullet item followed by a numbered item gives `<ul>`, item, `</ul>`, `<ol>`, item, `</ol>`, with no list mixing kinds; likewise the other way round |
| Markdown.ListThenParagraph | markdown-comments-for-wordpress.php:189-312 | two items of one kind, a blank line and plain text give the open tag, both items, the close tag and the paragraph, joined by line feeds |
| Markdown.NormalizeDashes | markdown-comments-for-wordpress.php:325 | no en or em dash survives normalisation |
| Markdown.DashFreeUnchanged | markdown-comments-for-wordpress.php:325 | text without dashes to replace is unchanged |
| Markdown.NormalizeDashesAppend | markdown-comments-for-wordpress.php:325 | normalisation works character by character, so it distributes over concatenation |
| Markdown.NormalizeOneDash | markdown-comments-for-wordpress.php:325 | an en dash becomes `-` and an em dash becomes `--` |
| Markdown.NormalizedLength | markdown-comments-for-wordpress.php:325 | normalisation lengthens the text by exactly one per em dash |
| Markdown.ReplaceCharLength | markdown-comments-for-wordpress.php:325 | replacing a character by `to` changes the length by (length of `to` - 1) per occurrence |
| Markdown.ReplaceCharKeepsCount | markdown-comments-for-wordpress.php:325 | replacement does not change the count of any other character absent from `to` |
| Markdown.FilterCommentText | markdown-comments-for-wordpress.php:322-331 | when the option is off, the comment is returned unchanged; when on, the result is `wp_kses_post` of the converted, dash-normalised comment |

## Left out

- `esc_html`, `esc_url` and `wp_kses_post` are WordPress functions outside this plugin. They are opaque function values in `Host.WordPress`, and `function_exists('esc_url')` is whether that field is present. Nothing is proved about what they escape or strip, so the claim that escaping is never doubled is not modelled.
- `get_option('markdown_comments_enable_markdown_comments', true)` reads the database. It is the `enabled` parameter of `Markdown.FilterCommentText`.
- Strings are sequences of characters, not bytes.
  - Every special character of the patterns but the en dash of the bullet class (below) is ASCII, and every byte of a non-ASCII character in UTF-8 is above 0x7F: never a marker, white space, a word character or a digit. So a multi-byte character acts in the patterns as one non-special character.
  - Two consequences of the byte reading are kept.
    - The italic group takes a lone non-ASCII character, as `Inline.LoneItalicChar` states. Its two or more bytes form the group's first alternative.
    - The bullet class lists the en dash, which is three bytes in a byte class. The class is only tried at the first byte of a trimmed line. For an en dash that byte is the lead byte 0xE2, which valid UTF-8 always follows with a continuation byte, never with white space. So the class behaves as {`-`, `*`, `+`}, and a line starting with an en dash is raw text, not a list item.
  - The dash normalisation in the filter removes en dashes before conversion anyway.
- `preg_replace_callback` failing on PCRE's backtracking or JIT stack limit is not modelled: every pass is total.
- The plugin bootstrap is not modelled: constants, the settings page and option registration, script enqueueing, the comment-form help text, the removal of WordPress's default comment filters, and the `add_filter` call itself. `assets/js/markdown-comments.js` is presentation in the browser and is not modelled either.
- Where the code and its prose description differ, the model follows the code:
  - the en dash bullet (above);
  - a line equal to "0" is a blank line in both passes, because of `empty()`;
  - raw text that starts with `<h1>`…`<h6>`, `<ul>`, `<ol>`, `<li>`, `</ul>` or `</ol>` is copied through by pass 2 as a block line instead of joining a paragraph.
