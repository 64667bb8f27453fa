/**
 * lib/charts/chart-tooltip.ts: the HTML of a chart tooltip, read back by a scanner that knows
 * nothing of the template: text up to '<', a tag up to '>'.
 */
module ChartTooltip {
  import opened Wrappers

  // ---------- Escaping ----------

  function EscapeChar(c: char): string {
    if c == '&' then "&amp;"
    else if c == '<' then "&lt;"
    else if c == '>' then "&gt;"
    else if c == '\"' then "&quot;"
    else if c == '\'' then "&#39;"
    else [c]
  }

  function EscapeHtml(value: string): string {
    if value == "" then "" else EscapeChar(value[0]) + EscapeHtml(value[1..])
  }

  /** What a decoder makes of the front of a text: the characters read, and how many it consumed. */
  type Reader = string -> (string, nat)

  /**
   * The reader copies any character but '&' and knows the five references, as section 13.1.4 of
   * the HTML standard spells them; other references are up to it.
   */
  ghost predicate IsHtmlReader(read: Reader) {
    && (forall c: char, rest: string {:trigger [c] + rest} :: c != '&' ==> read([c] + rest) == ([c], 1))
    && (forall rest: string {:trigger "&amp;" + rest} :: read("&amp;" + rest) == ("&", 5))
    && (forall rest: string {:trigger "&lt;" + rest} :: read("&lt;" + rest) == ("<", 4))
    && (forall rest: string {:trigger "&gt;" + rest} :: read("&gt;" + rest) == (">", 4))
    && (forall rest: string {:trigger "&quot;" + rest} :: read("&quot;" + rest) == ("\"", 6))
    && (forall rest: string {:trigger "&#39;" + rest} :: read("&#39;" + rest) == ("'", 5))
  }

  /** A reader that knows nothing else. */
  function FiveReferences(s: string): (string, nat) {
    if "&amp;" <= s then ("&", 5)
    else if "&lt;" <= s then ("<", 4)
    else if "&gt;" <= s then (">", 4)
    else if "&quot;" <= s then ("\"", 6)
    else if "&#39;" <= s then ("'", 5)
    else if s == "" then ("", 0)
    else ([s[0]], 1)
  }

  lemma FiveReferencesReadHtml()
    ensures IsHtmlReader(FiveReferences)
  {
    forall c: char, rest: string | c != '&' ensures FiveReferences([c] + rest) == ([c], 1) {
      assert ([c] + rest)[0] == c;
    }
    forall rest: string ensures FiveReferences("&amp;" + rest) == ("&", 5) {
    }
    forall rest: string ensures FiveReferences("&lt;" + rest) == ("<", 4) {
      assert ("&lt;" + rest)[1] == 'l' && "&amp;"[1] == 'a';
    }
    forall rest: string ensures FiveReferences("&gt;" + rest) == (">", 4) {
      assert ("&gt;" + rest)[1] == 'g' && "&amp;"[1] == 'a' && "&lt;"[1] == 'l';
    }
    forall rest: string ensures FiveReferences("&quot;" + rest) == ("\"", 6) {
      assert ("&quot;" + rest)[1] == 'q' && "&amp;"[1] == 'a' && "&lt;"[1] == 'l' && "&gt;"[1] == 'g';
    }
    forall rest: string ensures FiveReferences("&#39;" + rest) == ("'", 5) {
      assert ("&#39;" + rest)[1] == '#' && "&amp;"[1] == 'a' && "&lt;"[1] == 'l' && "&gt;"[1] == 'g' && "&quot;"[1] == 'q';
    }
  }

  function Decode(s: string, read: Reader): string {
    if s == "" then ""
    else
      var (text, n) := read(s);
      if 0 < n <= |s| then text + Decode(s[n..], read) else text
  }

  lemma ReadsEscaped(c: char, rest: string, read: Reader)
    requires IsHtmlReader(read)
    ensures read(EscapeChar(c) + rest) == ([c], |EscapeChar(c)|)
  {
  }

  lemma DecodeStep(front: string, c: char, rest: string, read: Reader)
    requires front != "" && read(front + rest) == ([c], |front|)
    ensures Decode(front + rest, read) == [c] + Decode(rest, read)
  {
    assert (front + rest)[|front|..] == rest;
  }

  /** Decoding undoes escaping, whatever follows and whatever other references the decoder knows. */
  lemma {:induction false} DecodeEscape(value: string, rest: string, read: Reader)
    requires IsHtmlReader(read)
    ensures Decode(EscapeHtml(value) + rest, read) == value + Decode(rest, read)
  {
    if value == "" {
      assert EscapeHtml(value) + rest == rest;
    } else {
      DecodeEscape(value[1..], rest, read);
      EscapeStep(value[0], value[1..], EscapeHtml(value[1..]) + rest, Decode(rest, read), read);
      assert EscapeHtml(value) + rest == EscapeChar(value[0]) + (EscapeHtml(value[1..]) + rest);
      assert [value[0]] + value[1..] == value;
    }
  }

  lemma EscapeStep(c: char, value: string, tail: string, decoded: string, read: Reader)
    requires IsHtmlReader(read) && Decode(tail, read) == value + decoded
    ensures Decode(EscapeChar(c) + tail, read) == [c] + value + decoded
  {
    ReadsEscaped(c, tail, read);
    DecodeStep(EscapeChar(c), c, tail, read);
    assert [c] + (value + decoded) == [c] + value + decoded;
  }

  lemma {:induction false} EscapedIsPlain(value: string)
    ensures '<' !in EscapeHtml(value) && '>' !in EscapeHtml(value)
  {
    if value != "" {
      EscapedIsPlain(value[1..]);
    }
  }

  // ---------- Scanning ----------

  datatype Document = End(text: string) | Then(text: string, tag: string, rest: Document)

  /** Length of the longest prefix without c. */
  function Until(s: string, c: char): (n: nat)
    ensures n <= |s| && c !in s[..n] && (n < |s| ==> s[n] == c)
  {
    if s == "" || s[0] == c then 0 else 1 + Until(s[1..], c)
  }

  function Scan(s: string): Document {
    var n := Until(s, '<');
    if n == |s| then End(s)
    else
      var after := s[n + 1..];
      var m := Until(after, '>');
      if m == |after| then Then(s[..n], after, End("")) else Then(s[..n], after[..m], Scan(after[m + 1..]))
  }

  function TagsOf(d: Document): seq<string> {
    match d
    case End(_) => []
    case Then(_, tag, rest) => [tag] + TagsOf(rest)
  }

  function TextOf(d: Document): string {
    match d
    case End(text) => text
    case Then(text, _, rest) => text + TextOf(rest)
  }

  lemma {:induction false} UntilIs(t: string, c: char, rest: string)
    requires c !in t
    ensures Until(t + [c] + rest, c) == |t|
  {
    if t != "" {
      assert (t + [c] + rest)[1..] == t[1..] + [c] + rest;
      UntilIs(t[1..], c, rest);
    }
  }

  lemma ScanTag(text: string, tag: string, rest: string)
    requires '<' !in text && '>' !in tag
    ensures Scan(text + ['<'] + (tag + ['>'] + rest)) == Then(text, tag, Scan(rest))
  {
    var s := text + ['<'] + (tag + ['>'] + rest);
    UntilIs(text, '<', tag + ['>'] + rest);
    assert s[|text| + 1..] == tag + ['>'] + rest && s[..|text|] == text;
    UntilIs(tag, '>', rest);
    assert (tag + ['>'] + rest)[|tag| + 1..] == rest && (tag + ['>'] + rest)[..|tag|] == tag;
  }

  lemma ScanText(text: string)
    requires '<' !in text
    ensures Scan(text) == End(text)
  {
  }

  // ---------- The template ----------

  datatype TooltipRow = TooltipRow(caption: string, value: string, comparison: Option<string>)

  datatype TooltipContent = TooltipContent(heading: string, rows: seq<TooltipRow>)

  datatype Tag = Frame | Heading | Row | Comparison | Div | Span | SpanEnd | Strong | StrongEnd

  function FrameStyle(): string { "font-size:12px;" + "min-width:160px;" }
  function HeadingStyle(): string { "font-weight:600;" + "margin-bottom:4px;" }
  function RowStyle(): string { "display:flex;" + ("justify-content:" + ("space-between;" + "gap:16px;")) }
  function ComparisonStyle(): string { "opacity:0.7;" + "font-size:11px;" }

  function StyledDiv(style: string): string { "div style=\"" + (style + "\"") }

  function TagText(tag: Tag): string {
    match tag
    case Frame => StyledDiv(FrameStyle())
    case Heading => StyledDiv(HeadingStyle())
    case Row => StyledDiv(RowStyle())
    case Comparison => StyledDiv(ComparisonStyle())
    case Div => "/div"
    case Span => "span"
    case SpanEnd => "/span"
    case Strong => "strong"
    case StrongEnd => "/strong"
  }

  /** A template is layout, markup and interpolated values. */
  datatype Piece = Layout(indent: nat) | Markup(tag: Tag) | Value(text: string)

  /** A line break and the indentation after it. */
  function NewLine(indent: nat): string { if indent == 0 then "\n" else NewLine(indent - 1) + " " }

  function RowPieces(row: TooltipRow): seq<Piece> {
    [Layout(8), Markup(Row), Layout(10), Markup(Span), Value(row.caption), Markup(SpanEnd),
     Layout(10), Markup(Strong), Value(row.value), Markup(StrongEnd), Layout(8), Markup(Div), Layout(8)]
    + (if HasComparison(row) then [Markup(Comparison), Value(row.comparison.value), Markup(Div)] else [])
    + [Layout(6)]
  }

  /** An empty comparison counts as none. */
  predicate HasComparison(row: TooltipRow) { row.comparison.Some? && row.comparison.value != "" }

  function AllRowPieces(rows: seq<TooltipRow>): seq<Piece> {
    if rows == [] then [] else RowPieces(rows[0]) + AllRowPieces(rows[1..])
  }

  function TopPieces(heading: string): seq<Piece> {
    [Layout(4), Markup(Frame), Layout(6), Markup(Heading), Value(heading), Markup(Div), Layout(6)]
  }

  function BottomPieces(): seq<Piece> { [Layout(4), Markup(Div), Layout(2)] }

  function TooltipPieces(content: TooltipContent): seq<Piece> {
    TopPieces(content.heading) + AllRowPieces(content.rows) + BottomPieces()
  }

  /** The text inside the angle brackets of each tag. */
  type TagTexts = Tag -> string

  function Print(p: Piece, tagText: TagTexts): string {
    match p
    case Layout(indent) => NewLine(indent)
    case Markup(tag) => ['<'] + (tagText(tag) + ['>'])
    case Value(text) => EscapeHtml(text)
  }

  function Render(pieces: seq<Piece>, tagText: TagTexts): string {
    if pieces == [] then "" else Print(pieces[0], tagText) + Render(pieces[1..], tagText)
  }

  function BuildTooltipHtml(content: TooltipContent): string { Render(TooltipPieces(content), TagText) }

  // ---------- No tag text closes a tag ----------

  lemma PlainTogether(a: string, b: string)
    requires '>' !in a && '>' !in b
    ensures '>' !in a + b
  {
  }

  lemma StyledDivIsPlain(style: string)
    requires '>' !in style
    ensures '>' !in StyledDiv(style)
  {
    PlainTogether(style, "\"");
    PlainTogether("div style=\"", style + "\"");
  }

  lemma RowStyleIsPlain()
    ensures '>' !in RowStyle()
  {
    PlainTogether("space-between;", "gap:16px;");
    PlainTogether("justify-content:", "space-between;" + "gap:16px;");
    PlainTogether("display:flex;", "justify-content:" + ("space-between;" + "gap:16px;"));
  }

  lemma StylesArePlain()
    ensures '>' !in FrameStyle() && '>' !in HeadingStyle() && '>' !in ComparisonStyle()
  {
    PlainTogether("font-size:12px;", "min-width:160px;");
    PlainTogether("font-weight:600;", "margin-bottom:4px;");
    PlainTogether("opacity:0.7;", "font-size:11px;");
  }

  lemma StyledTagIsPlain(tag: Tag)
    requires tag.Frame? || tag.Heading? || tag.Row? || tag.Comparison?
    ensures '>' !in TagText(tag)
  {
    match tag
    case Frame =>
      StylesArePlain();
      StyledDivIsPlain(FrameStyle());
    case Heading =>
      StylesArePlain();
      StyledDivIsPlain(HeadingStyle());
    case Row =>
      RowStyleIsPlain();
      StyledDivIsPlain(RowStyle());
    case Comparison =>
      StylesArePlain();
      StyledDivIsPlain(ComparisonStyle());
  }

  lemma TagIsPlain(tag: Tag)
    ensures '>' !in TagText(tag)
  {
    if tag.Frame? || tag.Heading? || tag.Row? || tag.Comparison? {
      StyledTagIsPlain(tag);
    }
  }

  // ---------- Reading it back ----------

  function Plain(p: Piece): string {
    match p
    case Layout(indent) => NewLine(indent)
    case Markup(_) => ""
    case Value(text) => text
  }

  function PlainText(pieces: seq<Piece>): string {
    if pieces == [] then "" else Plain(pieces[0]) + PlainText(pieces[1..])
  }

  function Tags(pieces: seq<Piece>, tagText: TagTexts): seq<string> {
    if pieces == [] then []
    else (if pieces[0].Markup? then [tagText(pieces[0].tag)] else []) + Tags(pieces[1..], tagText)
  }

  /** The texts of the pieces, escaped. */
  function EscapedText(pieces: seq<Piece>): string {
    if pieces == [] then "" else EscapeHtml(Plain(pieces[0])) + EscapedText(pieces[1..])
  }

  lemma {:induction false} EscapeAppendBlank(s: string)
    ensures EscapeHtml(s + " ") == EscapeHtml(s) + " "
  {
    if s != "" {
      assert (s + " ")[1..] == s[1..] + " ";
      EscapeAppendBlank(s[1..]);
    } else {
      assert EscapeHtml(" "[1..]) == "";
      assert s + " " == " ";
    }
  }

  lemma {:induction false} NewLineIsItsEscape(indent: nat)
    ensures EscapeHtml(NewLine(indent)) == NewLine(indent)
  {
    if indent == 0 {
      assert EscapeHtml("\n"[1..]) == "";
    } else {
      NewLineIsItsEscape(indent - 1);
      EscapeAppendBlank(NewLine(indent - 1));
    }
  }

  lemma PrintEscapes(p: Piece, tagText: TagTexts)
    requires !p.Markup?
    ensures Print(p, tagText) == EscapeHtml(Plain(p)) && '<' !in Print(p, tagText)
  {
    EscapedIsPlain(Plain(p));
    if p.Layout? {
      NewLineIsItsEscape(p.indent);
    }
  }

  /** What the scanner is to find in s. */
  datatype Finding = Finding(tags: seq<string>, text: string)

  function Found(s: string): Finding { Finding(TagsOf(Scan(s)), TextOf(Scan(s))) }

  lemma ScanMarkup(text: string, tag: string, rest: string, tags: seq<string>, found: string)
    requires '<' !in text && '>' !in tag && Found("" + rest) == Finding(tags, "" + found)
    ensures Found(text + (['<'] + (tag + ['>']) + rest)) == Finding([tag] + tags, text + found)
  {
    assert "" + rest == rest && "" + found == found;
    TagGrouping(text, tag, rest);
    ScanTag(text, tag, rest);
    FoundThen(text, tag, Scan(rest));
  }

  lemma TagGrouping(text: string, tag: string, rest: string)
    ensures text + (['<'] + (tag + ['>']) + rest) == text + ['<'] + (tag + ['>'] + rest)
  {
  }

  lemma FoundThen(text: string, tag: string, d: Document)
    ensures TagsOf(Then(text, tag, d)) == [tag] + TagsOf(d) && TextOf(Then(text, tag, d)) == text + TextOf(d)
  {
  }

  lemma ScanMoreText(text: string, printed: string, rest: string, tags: seq<string>, found: string)
    requires Found((text + printed) + rest) == Finding(tags, (text + printed) + found)
    ensures Found(text + (printed + rest)) == Finding(tags, text + (printed + found))
  {
    assert text + (printed + rest) == (text + printed) + rest && text + (printed + found) == (text + printed) + found;
  }

  lemma ScanPlain(text: string)
    requires '<' !in text
    ensures Found(text + "") == Finding([], text + "")
  {
    assert text + "" == text;
    ScanText(text);
  }

  lemma EscapedFirst(pieces: seq<Piece>, tagText: TagTexts)
    requires pieces != []
    ensures pieces[0].Markup? ==> EscapedText(pieces) == EscapedText(pieces[1..])
    ensures !pieces[0].Markup? ==> EscapedText(pieces) == Print(pieces[0], tagText) + EscapedText(pieces[1..])
  {
    if pieces[0].Markup? {
      assert EscapeHtml("") == "" && "" + EscapedText(pieces[1..]) == EscapedText(pieces[1..]);
    } else {
      PrintEscapes(pieces[0], tagText);
    }
  }

  /** However the values read, the scanner finds the pieces' tags and the escaped texts. */
  lemma {:induction false} ScanFindsPieces(text: string, pieces: seq<Piece>, tagText: TagTexts)
    requires '<' !in text && forall tag :: '>' !in tagText(tag)
    ensures Found(text + Render(pieces, tagText)) == Finding(Tags(pieces, tagText), text + EscapedText(pieces))
    decreases pieces
  {
    if pieces == [] {
      ScanPlain(text);
    } else {
      var p, rest := pieces[0], pieces[1..];
      var printed, rendered, tags, found := Print(p, tagText), Render(rest, tagText), Tags(rest, tagText), EscapedText(rest);
      EscapedFirst(pieces, tagText);
      if p.Markup? {
        ScanFindsPieces("", rest, tagText);
        ScanMarkup(text, tagText(p.tag), rendered, tags, found);
      } else {
        PrintEscapes(p, tagText);
        ScanFindsPieces(text + printed, rest, tagText);
        ScanMoreText(text, printed, rendered, tags, found);
        assert [] + tags == tags;
      }
    }
  }

  lemma {:induction false} DecodedText(pieces: seq<Piece>, read: Reader)
    requires IsHtmlReader(read)
    ensures Decode(EscapedText(pieces), read) == PlainText(pieces)
  {
    if pieces != [] {
      DecodedText(pieces[1..], read);
      DecodeEscape(Plain(pieces[0]), EscapedText(pieces[1..]), read);
    }
  }

  /**
   * Main result: for every content, scanning the tooltip finds the template's tags, and decoding
   * the text between them gives back heading, labels, values and comparisons in place, whatever
   * characters they hold.
   */
  lemma TooltipShowsItsContent(content: TooltipContent, read: Reader)
    requires IsHtmlReader(read)
    ensures TagsOf(Scan(BuildTooltipHtml(content))) == Tags(TooltipPieces(content), TagText)
    ensures Decode(TextOf(Scan(BuildTooltipHtml(content))), read) == PlainText(TooltipPieces(content))
  {
    forall tag ensures '>' !in TagText(tag) {
      TagIsPlain(tag);
    }
    PiecesRoundTrip(TooltipPieces(content), TagText, read);
  }

  lemma PiecesRoundTrip(pieces: seq<Piece>, tagText: TagTexts, read: Reader)
    requires IsHtmlReader(read) && forall tag :: '>' !in tagText(tag)
    ensures TagsOf(Scan(Render(pieces, tagText))) == Tags(pieces, tagText)
    ensures Decode(TextOf(Scan(Render(pieces, tagText))), read) == PlainText(pieces)
  {
    ScanFindsPieces("", pieces, tagText);
    assert "" + Render(pieces, tagText) == Render(pieces, tagText) && "" + EscapedText(pieces) == EscapedText(pieces);
    DecodedText(pieces, read);
  }

  // ---------- What the reader sees ----------

  ghost predicate IsLayout(s: string) { forall i :: 0 <= i < |s| ==> s[i] == ' ' || s[i] == '\n' }

  /** The text is the values in order, with nothing but line breaks and blanks around them. */
  ghost predicate Spells(text: string, values: seq<string>)
    decreases |values|
  {
    if values == [] then IsLayout(text)
    else exists b: string, rest: string :: text == b + values[0] + rest && IsLayout(b) && Spells(rest, values[1..])
  }

  /** Of each row the caption and the value, and the comparison unless it is absent or empty. */
  ghost function Shown(rows: seq<TooltipRow>): seq<string> {
    if rows == [] then []
    else
      var row := rows[0];
      [row.caption, row.value] + (if row.comparison == None || row.comparison == Some("") then [] else [row.comparison.value]) + Shown(rows[1..])
  }

  ghost function ValuesIn(pieces: seq<Piece>): seq<string> {
    if pieces == [] then [] else (if pieces[0].Value? then [pieces[0].text] else []) + ValuesIn(pieces[1..])
  }

  lemma {:induction false} ValuesAppend(a: seq<Piece>, b: seq<Piece>)
    ensures ValuesIn(a + b) == ValuesIn(a) + ValuesIn(b)
  {
    if a == [] {
      assert a + b == b;
    } else {
      assert (a + b)[1..] == a[1..] + b;
      ValuesAppend(a[1..], b);
    }
  }

  lemma LayoutFirst(layout: string, text: string, values: seq<string>)
    requires IsLayout(layout) && Spells(text, values)
    ensures Spells(layout + text, values)
  {
    if values != [] {
      var b: string, rest: string :| text == b + values[0] + rest && IsLayout(b) && Spells(rest, values[1..]);
      assert layout + text == (layout + b) + values[0] + rest && IsLayout(layout + b);
    }
  }

  lemma {:induction false} NewLineIsLayout(indent: nat)
    ensures IsLayout(NewLine(indent))
  {
    if indent > 0 {
      NewLineIsLayout(indent - 1);
    }
  }

  lemma {:induction false} PiecesSpell(pieces: seq<Piece>)
    ensures Spells(PlainText(pieces), ValuesIn(pieces))
  {
    if pieces != [] {
      var rest, values := PlainText(pieces[1..]), ValuesIn(pieces[1..]);
      PiecesSpell(pieces[1..]);
      match pieces[0]
      case Layout(indent) =>
        NewLineIsLayout(indent);
        LayoutFirst(NewLine(indent), rest, values);
        assert ValuesIn(pieces) == values;
      case Markup(_) =>
        assert PlainText(pieces) == rest && ValuesIn(pieces) == values;
      case Value(text) =>
        ValueFirst(text, rest, values);
        assert PlainText(pieces) == text + rest && ValuesIn(pieces) == [text] + values;
    }
  }

  lemma ValueFirst(text: string, rest: string, values: seq<string>)
    requires Spells(rest, values)
    ensures Spells(text + rest, [text] + values)
  {
    var b := "";
    var all := [text] + values;
    assert all[1..] == values && all[0] == text;
    assert text + rest == b + all[0] + rest && IsLayout(b) && Spells(rest, all[1..]);
  }

  lemma NoValues(pieces: seq<Piece>)
    requires forall i :: 0 <= i < |pieces| ==> !pieces[i].Value?
    ensures ValuesIn(pieces) == []
  {
    if pieces != [] {
      NoValues(pieces[1..]);
    }
  }

  /** Pieces without a value, a value, and the rest. */
  lemma {:induction false} ValueAfter(before: seq<Piece>, text: string, rest: seq<Piece>)
    requires forall i :: 0 <= i < |before| ==> !before[i].Value?
    ensures ValuesIn(before + [Value(text)] + rest) == [text] + ValuesIn(rest)
  {
    var all := before + [Value(text)] + rest;
    if before == [] {
      assert all[1..] == rest;
    } else {
      assert all[1..] == before[1..] + [Value(text)] + rest;
      ValueAfter(before[1..], text, rest);
    }
  }

  lemma RowShows(row: TooltipRow)
    ensures ValuesIn(RowPieces(row)) == [row.caption, row.value] + if row.comparison == None || row.comparison == Some("") then [] else [row.comparison.value]
  {
    var start := [Layout(8), Markup(Row), Layout(10), Markup(Span)];
    var middle := [Markup(SpanEnd), Layout(10), Markup(Strong)];
    var tail := [Markup(StrongEnd), Layout(8), Markup(Div), Layout(8)];
    var comparison := if HasComparison(row) then [Markup(Comparison), Value(row.comparison.value), Markup(Div)] else [];
    var end := tail + comparison + [Layout(6)];
    assert RowPieces(row) == start + [Value(row.caption)] + (middle + [Value(row.value)] + end);
    ValueAfter(start, row.caption, middle + [Value(row.value)] + end);
    ValueAfter(middle, row.value, end);
    if HasComparison(row) {
      assert end == (tail + [Markup(Comparison)]) + [Value(row.comparison.value)] + [Markup(Div), Layout(6)];
      ValueAfter(tail + [Markup(Comparison)], row.comparison.value, [Markup(Div), Layout(6)]);
      NoValues([Markup(Div), Layout(6)]);
    } else {
      NoValues(end);
    }
  }

  lemma {:induction false} RowsShow(rows: seq<TooltipRow>)
    ensures ValuesIn(AllRowPieces(rows)) == Shown(rows)
  {
    if rows != [] {
      RowShows(rows[0]);
      RowsShow(rows[1..]);
      ValuesAppend(RowPieces(rows[0]), AllRowPieces(rows[1..]));
    }
  }

  lemma TopShows(heading: string)
    ensures ValuesIn(TopPieces(heading)) == [heading]
  {
    var start, end := [Layout(4), Markup(Frame), Layout(6), Markup(Heading)], [Markup(Div), Layout(6)];
    assert TopPieces(heading) == start + [Value(heading)] + end;
    ValueAfter(start, heading, end);
    NoValues(end);
  }

  lemma TooltipValues(content: TooltipContent)
    ensures ValuesIn(TooltipPieces(content)) == [content.heading] + Shown(content.rows)
  {
    ValuesAppend(TopPieces(content.heading) + AllRowPieces(content.rows), BottomPieces());
    ValuesAppend(TopPieces(content.heading), AllRowPieces(content.rows));
    TopShows(content.heading);
    RowsShow(content.rows);
    NoValues(BottomPieces());
  }

  /** The tooltip reads, to any HTML reader, as its heading and then each row's caption, value and comparison. */
  lemma TooltipReads(content: TooltipContent, read: Reader)
    requires IsHtmlReader(read)
    ensures Spells(Decode(TextOf(Scan(BuildTooltipHtml(content))), read), [content.heading] + Shown(content.rows))
  {
    TooltipShowsItsContent(content, read);
    PiecesSpell(TooltipPieces(content));
    TooltipValues(content);
  }

  // ---------- The tags are nested ----------

  /** What a tag does to the elements still open, innermost last: None for a closing tag that is not the innermost's. */
  ghost function AfterTag(tag: string, open: seq<string>): Option<seq<string>> {
    if tag != "" && tag[0] == '/' then
      if open != [] && open[|open| - 1] == tag[1..] then Some(open[..|open| - 1]) else None
    else Some(open + [tag[..Until(tag, ' ')]])
  }

  ghost function AfterTags(tags: seq<string>, open: seq<string>): Option<seq<string>>
    decreases |tags|
  {
    if tags == [] then Some(open)
    else
      match AfterTag(tags[0], open)
      case None => None
      case Some(inner) => AfterTags(tags[1..], inner)
  }

  /** Every element opened by the tags is closed by them, innermost first. */
  ghost predicate Nested(tags: seq<string>) { forall open: seq<string> :: AfterTags(tags, open) == Some(open) }

  lemma {:induction false} AfterMoreTags(a: seq<string>, b: seq<string>, open: seq<string>)
    ensures AfterTags(a + b, open) == match AfterTags(a, open) case None => None case Some(inner) => AfterTags(b, inner)
    decreases |a|
  {
    if a == [] {
      assert a + b == b;
    } else {
      assert (a + b)[1..] == a[1..] + b;
      if AfterTag(a[0], open).Some? {
        AfterMoreTags(a[1..], b, AfterTag(a[0], open).value);
      }
    }
  }

  lemma NestedSiblings(a: seq<string>, b: seq<string>)
    requires Nested(a) && Nested(b)
    ensures Nested(a + b)
  {
    forall open: seq<string> ensures AfterTags(a + b, open) == Some(open) {
      AfterMoreTags(a, b, open);
    }
  }

  /** The tag opens, or closes, an element of that name. */
  ghost predicate Opens(tag: string, name: string) { tag != "" && tag[0] != '/' && tag[..Until(tag, ' ')] == name }
  ghost predicate Closes(tag: string, name: string) { tag != "" && tag[0] == '/' && tag[1..] == name }

  lemma NestedElement(tag: string, name: string, inner: seq<string>, close: string)
    requires Opens(tag, name) && Closes(close, name) && Nested(inner)
    ensures Nested([tag] + inner + [close])
  {
    forall open: seq<string> ensures AfterTags([tag] + inner + [close], open) == Some(open) {
      AfterMoreTags([tag] + inner, [close], open);
      AfterMoreTags([tag], inner, open);
      assert [tag][1..] == [] && [close][1..] == [];
      assert (open + [name])[..|open|] == open;
    }
  }

  lemma NestedField(tag: string, name: string, close: string)
    requires Opens(tag, name) && Closes(close, name)
    ensures Nested([tag, close])
  {
    NestedElement(tag, name, [], close);
    assert [tag] + [] + [close] == [tag, close];
  }

  lemma StyledDivOpens(style: string)
    ensures Opens(StyledDiv(style), "div")
  {
    var rest := "style=\"" + (style + "\"");
    assert StyledDiv(style) == "div" + [' '] + rest;
    UntilIs("div", ' ', rest);
  }

  /** The template's tags. */
  ghost predicate WellNamed(tagText: TagTexts) {
    && Opens(tagText(Frame), "div") && Opens(tagText(Heading), "div") && Opens(tagText(Row), "div") && Opens(tagText(Comparison), "div")
    && Closes(tagText(Div), "div") && Opens(tagText(Span), "span") && Closes(tagText(SpanEnd), "span")
    && Opens(tagText(Strong), "strong") && Closes(tagText(StrongEnd), "strong")
  }

  lemma StylesOpen()
    ensures Opens(TagText(Frame), "div") && Opens(TagText(Heading), "div") && Opens(TagText(Row), "div") && Opens(TagText(Comparison), "div")
  {
    StyledDivOpens(FrameStyle());
    StyledDivOpens(HeadingStyle());
    StyledDivOpens(RowStyle());
    StyledDivOpens(ComparisonStyle());
  }

  lemma TagsAreWellNamed()
    ensures WellNamed(TagText)
  {
    StylesOpen();
    SpanOpens();
    StrongOpens();
    EndsClose();
  }

  lemma SpanOpens()
    ensures Opens(TagText(Span), "span")
  {
    assert Until("span", ' ') == 4 by { assert ' ' !in "span"; }
  }

  lemma StrongOpens()
    ensures Opens(TagText(Strong), "strong")
  {
    assert Until("strong", ' ') == 6 by { assert ' ' !in "strong"; }
  }

  lemma EndsClose()
    ensures Closes(TagText(Div), "div") && Closes(TagText(SpanEnd), "span") && Closes(TagText(StrongEnd), "strong")
  {
  }

  lemma TagGroups(a: seq<string>, b: seq<string>, c: seq<string>)
    ensures a + (b + c) == (a + b) + c
  {
  }

  lemma {:induction false} TagsAppend(a: seq<Piece>, b: seq<Piece>, tagText: TagTexts)
    ensures Tags(a + b, tagText) == Tags(a, tagText) + Tags(b, tagText)
  {
    if a == [] {
      assert a + b == b;
    } else {
      assert (a + b)[1..] == a[1..] + b;
      TagsAppend(a[1..], b, tagText);
      var first := if a[0].Markup? then [tagText(a[0].tag)] else [];
      TagGroups(first, Tags(a[1..], tagText), Tags(b, tagText));
      assert Tags(a + b, tagText) == first + Tags(a[1..] + b, tagText);
    }
  }

  lemma TagsOfOne(p: Piece, tagText: TagTexts)
    ensures Tags([p], tagText) == if p.Markup? then [tagText(p.tag)] else []
  {
    assert [p][1..] == [];
  }

  lemma TagsOfTwo(p: Piece, q: Piece, tagText: TagTexts)
    ensures Tags([p, q], tagText) == Tags([p], tagText) + Tags([q], tagText)
  {
    TagsAppend([p], [q], tagText);
    assert [p] + [q] == [p, q];
  }

  /** A line that opens or closes an element. */
  lemma LineTags(indent: nat, tag: Tag, tagText: TagTexts)
    ensures Tags([Layout(indent), Markup(tag)], tagText) == [tagText(tag)]
  {
    TagsOfTwo(Layout(indent), Markup(tag), tagText);
    TagsOfOne(Layout(indent), tagText);
    TagsOfOne(Markup(tag), tagText);
  }

  /** A line with an element around a text. */
  lemma FieldTags(indent: nat, tag: Tag, text: string, end: Tag, tagText: TagTexts)
    ensures Tags([Layout(indent), Markup(tag), Value(text), Markup(end)], tagText) == [tagText(tag), tagText(end)]
  {
    TagsAppend([Layout(indent), Markup(tag)], [Value(text), Markup(end)], tagText);
    assert [Layout(indent), Markup(tag)] + [Value(text), Markup(end)] == [Layout(indent), Markup(tag), Value(text), Markup(end)];
    LineTags(indent, tag, tagText);
    TagsOfTwo(Value(text), Markup(end), tagText);
    TagsOfOne(Value(text), tagText);
    TagsOfOne(Markup(end), tagText);
  }

  /** The comparison of a row, and the layout after it. */
  function RowEnd(row: TooltipRow): seq<Piece> {
    (if HasComparison(row) then [Markup(Comparison), Value(row.comparison.value), Markup(Div)] else []) + [Layout(6)]
  }

  lemma RowEndIsNested(row: TooltipRow, tagText: TagTexts)
    requires WellNamed(tagText)
    ensures Nested(Tags(RowEnd(row), tagText))
  {
    TagsOfOne(Layout(6), tagText);
    if HasComparison(row) {
      var text := Value(row.comparison.value);
      assert RowEnd(row) == [Markup(Comparison), text] + [Markup(Div), Layout(6)];
      TagsAppend([Markup(Comparison), text], [Markup(Div), Layout(6)], tagText);
      TagsOfTwo(Markup(Comparison), text, tagText);
      TagsOfTwo(Markup(Div), Layout(6), tagText);
      TagsOfOne(Markup(Comparison), tagText);
      TagsOfOne(text, tagText);
      TagsOfOne(Markup(Div), tagText);
      NestedField(tagText(Comparison), "div", tagText(Div));
      assert [tagText(Comparison)] + [] + ([tagText(Div)] + []) == [tagText(Comparison), tagText(Div)];
    } else {
      assert RowEnd(row) == [Layout(6)];
    }
  }

  /** The row's own element: a caption and a value. */
  function RowElement(row: TooltipRow): seq<Piece> {
    [Layout(8), Markup(Row)]
    + ([Layout(10), Markup(Span), Value(row.caption), Markup(SpanEnd)] + [Layout(10), Markup(Strong), Value(row.value), Markup(StrongEnd)])
    + [Layout(8), Markup(Div)]
  }

  lemma RowElementIsNested(row: TooltipRow, tagText: TagTexts)
    requires WellNamed(tagText)
    ensures Nested(Tags(RowElement(row), tagText))
  {
    var caption, value := [Layout(10), Markup(Span), Value(row.caption), Markup(SpanEnd)], [Layout(10), Markup(Strong), Value(row.value), Markup(StrongEnd)];
    var start, end := [Layout(8), Markup(Row)], [Layout(8), Markup(Div)];
    TagsAppend(start + (caption + value), end, tagText);
    TagsAppend(start, caption + value, tagText);
    TagsAppend(caption, value, tagText);
    LineTags(8, Row, tagText);
    LineTags(8, Div, tagText);
    FieldTags(10, Span, row.caption, SpanEnd, tagText);
    FieldTags(10, Strong, row.value, StrongEnd, tagText);
    NestedField(tagText(Span), "span", tagText(SpanEnd));
    NestedField(tagText(Strong), "strong", tagText(StrongEnd));
    NestedSiblings(Tags(caption, tagText), Tags(value, tagText));
    NestedElement(tagText(Row), "div", Tags(caption + value, tagText), tagText(Div));
  }

  lemma {:induction false} RowsAreNested(rows: seq<TooltipRow>, tagText: TagTexts)
    requires WellNamed(tagText)
    ensures Nested(Tags(AllRowPieces(rows), tagText))
  {
    if rows != [] {
      var row := rows[0];
      RowsAreNested(rows[1..], tagText);
      assert RowPieces(row) == RowElement(row) + ([Layout(8)] + RowEnd(row));
      TagsAppend(RowElement(row), [Layout(8)] + RowEnd(row), tagText);
      TagsAppend([Layout(8)], RowEnd(row), tagText);
      TagsOfOne(Layout(8), tagText);
      RowElementIsNested(row, tagText);
      RowEndIsNested(row, tagText);
      assert [] + Tags(RowEnd(row), tagText) == Tags(RowEnd(row), tagText);
      NestedSiblings(Tags(RowElement(row), tagText), Tags(RowEnd(row), tagText));
      TagsAppend(RowPieces(row), AllRowPieces(rows[1..]), tagText);
      NestedSiblings(Tags(RowPieces(row), tagText), Tags(AllRowPieces(rows[1..]), tagText));
    }
  }

  lemma TopIs(heading: string)
    ensures TopPieces(heading) == [Layout(4), Markup(Frame)] + ([Layout(6), Markup(Heading), Value(heading), Markup(Div)] + [Layout(6)])
    ensures BottomPieces() == [Layout(4), Markup(Div)] + [Layout(2)]
  {
  }

  lemma TopTags(heading: string, tagText: TagTexts)
    ensures Tags(TopPieces(heading), tagText) == [tagText(Frame)] + [tagText(Heading), tagText(Div)]
  {
    var field := [Layout(6), Markup(Heading), Value(heading), Markup(Div)];
    TopIs(heading);
    TagsAppend([Layout(4), Markup(Frame)], field + [Layout(6)], tagText);
    TagsAppend(field, [Layout(6)], tagText);
    TagsOfOne(Layout(6), tagText);
    LineTags(4, Frame, tagText);
    FieldTags(6, Heading, heading, Div, tagText);
  }

  lemma BottomTags(tagText: TagTexts)
    ensures Tags(BottomPieces(), tagText) == [tagText(Div)]
  {
    TopIs("");
    TagsAppend([Layout(4), Markup(Div)], [Layout(2)], tagText);
    TagsOfOne(Layout(2), tagText);
    LineTags(4, Div, tagText);
  }

  lemma FrameTags(content: TooltipContent, tagText: TagTexts)
    ensures Tags(TooltipPieces(content), tagText)
         == [tagText(Frame)] + ([tagText(Heading), tagText(Div)] + Tags(AllRowPieces(content.rows), tagText)) + [tagText(Div)]
  {
    var rows := AllRowPieces(content.rows);
    TagsAppend(TopPieces(content.heading) + rows, BottomPieces(), tagText);
    TagsAppend(TopPieces(content.heading), rows, tagText);
    TopTags(content.heading, tagText);
    BottomTags(tagText);
  }

  lemma PiecesAreNested(content: TooltipContent, tagText: TagTexts)
    requires WellNamed(tagText)
    ensures Nested(Tags(TooltipPieces(content), tagText))
  {
    var rows := Tags(AllRowPieces(content.rows), tagText);
    FrameTags(content, tagText);
    RowsAreNested(content.rows, tagText);
    NestedField(tagText(Heading), "div", tagText(Div));
    NestedSiblings([tagText(Heading), tagText(Div)], rows);
    NestedElement(tagText(Frame), "div", [tagText(Heading), tagText(Div)] + rows, tagText(Div));
  }

  /** Main result: in the tooltip's HTML every element is closed, innermost first, whatever the texts hold. */
  lemma TooltipIsNested(content: TooltipContent)
    ensures Nested(TagsOf(Scan(BuildTooltipHtml(content))))
  {
    FiveReferencesReadHtml();
    TooltipShowsItsContent(content, FiveReferences);
    TagsAreWellNamed();
    PiecesAreNested(content, TagText);
  }

  // ---------- Markup depends on the shape only ----------

  ghost predicate SameMarkup(a: seq<Piece>, b: seq<Piece>) {
    |a| == |b| && forall i :: 0 <= i < |a| ==> a[i].Markup? == b[i].Markup? && (a[i].Markup? ==> a[i] == b[i])
  }

  lemma {:induction false} SameTags(a: seq<Piece>, b: seq<Piece>, tagText: TagTexts)
    requires SameMarkup(a, b)
    ensures Tags(a, tagText) == Tags(b, tagText)
  {
    if a != [] {
      SameTags(a[1..], b[1..], tagText);
    }
  }

  lemma SameMarkupAppend(a: seq<Piece>, b: seq<Piece>, c: seq<Piece>, d: seq<Piece>)
    requires SameMarkup(a, b) && SameMarkup(c, d)
    ensures SameMarkup(a + c, b + d)
  {
  }

  ghost predicate SameShape(a: seq<TooltipRow>, b: seq<TooltipRow>) {
    |a| == |b| && forall i :: 0 <= i < |a| ==> HasComparison(a[i]) == HasComparison(b[i])
  }

  lemma SameRow(a: TooltipRow, b: TooltipRow)
    requires HasComparison(a) == HasComparison(b)
    ensures SameMarkup(RowPieces(a), RowPieces(b))
  {
  }

  lemma {:induction false} SameRows(a: seq<TooltipRow>, b: seq<TooltipRow>)
    requires SameShape(a, b)
    ensures SameMarkup(AllRowPieces(a), AllRowPieces(b))
  {
    if a != [] {
      SameRows(a[1..], b[1..]);
      SameRow(a[0], b[0]);
      SameMarkupAppend(RowPieces(a[0]), RowPieces(b[0]), AllRowPieces(a[1..]), AllRowPieces(b[1..]));
    }
  }

  /**
   * Main result: the markup depends on the number of rows and on which comparisons are not empty,
   * never on a text.
   */
  lemma MarkupDependsOnShape(a: TooltipContent, b: TooltipContent)
    requires SameShape(a.rows, b.rows)
    ensures TagsOf(Scan(BuildTooltipHtml(a))) == TagsOf(Scan(BuildTooltipHtml(b)))
  {
    FiveReferencesReadHtml();
    TooltipShowsItsContent(a, FiveReferences);
    TooltipShowsItsContent(b, FiveReferences);
    SameTemplate(a, b);
    SameTags(TooltipPieces(a), TooltipPieces(b), TagText);
  }

  lemma SameTemplate(a: TooltipContent, b: TooltipContent)
    requires SameShape(a.rows, b.rows)
    ensures SameMarkup(TooltipPieces(a), TooltipPieces(b))
  {
    SameRows(a.rows, b.rows);
    SameTop(a.heading, b.heading);
    SameMarkupAppend(TopPieces(a.heading), TopPieces(b.heading), AllRowPieces(a.rows), AllRowPieces(b.rows));
    SameMarkupAppend(TopPieces(a.heading) + AllRowPieces(a.rows), TopPieces(b.heading) + AllRowPieces(b.rows),
                     BottomPieces(), BottomPieces());
  }

  lemma SameTop(a: string, b: string)
    ensures SameMarkup(TopPieces(a), TopPieces(b))
  {
  }
}
