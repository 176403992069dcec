/**
 * The helper logic of `pdf_generator.py`: colour parsing with Python's `int(x, 16)`,
 * the font table and bold-font names, the HTML escaping of text and links before
 * they become reportlab paragraphs, and the list of flowables `generate_pdf` builds.
 *
 * Document layout, image download and the division to 0..1 floats are not modelled.
 */
module PdfGenerator {
  import opened Wrappers
  import opened Strings
  import opened Stories

  // ---------------------------------------------------------------------------
  // int(s, 16)
  // ---------------------------------------------------------------------------

  /** Hex digits with single underscores between them, as `int` accepts them. */
  predicate Grouped(d: string) {
    d != [] && IsHexDigit(d[0]) && IsHexDigit(d[|d| - 1]) &&
    (forall k :: 0 <= k < |d| ==> IsHexDigit(d[k]) || d[k] == '_') &&
    (forall i, j :: 0 <= i < |d| && 0 <= j < |d| && j == i + 1 ==> d[i] != '_' || d[j] != '_')
  }

  function Pow16(n: nat): (p: nat)
    ensures p >= 1
  {
    if n == 0 then 1 else 16 * Pow16(n - 1)
  }

  /** The value of hex digits, underscores skipped. */
  function HexValue(d: string): (v: nat)
    requires forall k :: 0 <= k < |d| ==> IsHexDigit(d[k]) || d[k] == '_'
    ensures v < Pow16(|d|)
    decreases |d|
  {
    if d == [] then 0
    else
      var init := d[..|d| - 1];
      var last := d[|d| - 1];
      assert forall k :: 0 <= k < |init| ==> init[k] == d[k];
      if last == '_' then HexValue(init)
      else HexValue(init) * 16 + HexDigitValue(last)
  }

  /** The text after an optional sign. */
  function Unsigned(t: string): (u: string)
    ensures |u| <= |t|
    ensures t != [] && t[0] == '-' ==> |u| < |t|
  {
    if t != [] && (t[0] == '+' || t[0] == '-') then t[1..] else t
  }

  /** The digits after an optional `0x` prefix, which may be followed by one underscore. */
  function Digits(u: string): (d: string)
    ensures |d| <= |u|
  {
    if |u| >= 2 && u[0] == '0' && (u[1] == 'x' || u[1] == 'X') then
      var rest := u[2..];
      if rest != [] && rest[0] == '_' then rest[1..] else rest
    else u
  }

  /** `int(t, 16)` once the surrounding whitespace is gone. */
  function ParseStripped(t: string): (r: Attempt<int>)
    ensures t == [] ==> r == Raised
    ensures r.Returned? ==> t != [] && 0 < r.value + Pow16(|t| - 1) && r.value < Pow16(|t|)
  {
    var d := Digits(Unsigned(t));
    if !Grouped(d) then Raised
    else
      var v: int := HexValue(d);
      PowMonotone(|d|, |t|);
      if t[0] == '-' then
        PowMonotone(|d|, |t| - 1);
        Returned(-v)
      else Returned(v)
  }

  /**
   * `int(s, 16)`: surrounding whitespace, an optional sign, an optional `0x` prefix,
   * then hex digits with single underscores; anything else raises ValueError.
   * The whitespace is dropped one character at a time, from the front first.
   */
  function ParseHex(s: string): (r: Attempt<int>)
    ensures s == [] ==> r == Raised
    ensures r.Returned? ==> s != [] && 0 < r.value + Pow16(|s| - 1) && r.value < Pow16(|s|)
    decreases |s|
  {
    if s != [] && IsSpace(s[0]) then
      var r := ParseHex(s[1..]);
      PowBelow(|s| - 1, |s|);
      r
    else if s != [] && IsSpace(s[|s| - 1]) then
      var r := ParseHex(s[..|s| - 1]);
      PowBelow(|s| - 1, |s|);
      r
    else ParseStripped(s)
  }

  /** Dropping the whitespace one character at a time is Python's `strip`. */
  lemma {:induction false} ParseHexStrips(s: string)
    ensures ParseHex(s) == ParseStripped(Strip(s))
    decreases |s|
  {
    if s != [] && IsSpace(s[0]) {
      ParseHexStrips(s[1..]);
      assert LStrip(s) == LStrip(s[1..]);
    } else if s != [] && IsSpace(s[|s| - 1]) {
      ParseHexStrips(s[..|s| - 1]);
      assert LStrip(s) == s;
      assert LStrip(s[..|s| - 1]) == s[..|s| - 1];
      assert RStrip(s) == RStrip(s[..|s| - 1]);
    } else {
      StripNoSpaceEnds(s);
    }
  }

  lemma PowBelow(m: nat, n: nat)
    requires m <= n
    ensures Pow16(m) <= Pow16(n)
    ensures m > 0 ==> Pow16(m - 1) <= Pow16(n - 1)
  {
    PowMonotone(m, n);
    if m > 0 {
      PowMonotone(m - 1, n - 1);
    }
  }

  lemma {:induction false} PowMonotone(m: nat, n: nat)
    requires m <= n
    ensures Pow16(m) <= Pow16(n)
    decreases n
  {
    if m < n {
      PowMonotone(m, n - 1);
    }
  }

  /** Two hex digits parse to the byte they spell. */
  lemma ParsePair(s: string)
    requires |s| == 2 && IsHexDigit(s[0]) && IsHexDigit(s[1])
    ensures ParseHex(s) == Returned(16 * HexDigitValue(s[0]) + HexDigitValue(s[1]))
  {
    assert Unsigned(s) == s;
    assert Digits(s) == s;
    assert Grouped(s);
    assert s[..1][..0] == [];
    assert HexValue(s[..1]) == HexDigitValue(s[0]);
  }

  /** A minus sign and one hex digit parse to the negated digit. */
  lemma ParseNegativeDigit(s: string)
    requires |s| == 2 && s[0] == '-' && IsHexDigit(s[1])
    ensures ParseHex(s) == Returned(-(HexDigitValue(s[1]) as int))
  {
    var d := s[1..];
    assert Unsigned(s) == d;
    assert Digits(d) == d;
    assert Grouped(d);
    assert d[..0] == [];
    assert HexValue(d) == HexDigitValue(s[1]);
  }

  // ---------------------------------------------------------------------------
  // hex_to_rgb (pdf_generator.py:12-18), integer channels
  // ---------------------------------------------------------------------------

  datatype Rgb = Rgb(red: int, green: int, blue: int)

  /** Python's `t[i:j]`, which is shorter, or empty, when `t` is short. */
  function Slice(t: string, i: nat, j: nat): (r: string)
    requires i <= j
    ensures |r| <= j - i
    ensures |t| >= j ==> r == t[i..j]
  {
    var lo := if i <= |t| then i else |t|;
    var hi := if j <= |t| then j else |t|;
    t[lo..hi]
  }

  /** hex_to_rgb as written, before the division by 255. */
  function HexToRgb(color: string): (r: Attempt<Rgb>)
    ensures r.Returned? ==> -15 <= r.value.red <= 255 && -15 <= r.value.green <= 255 && -15 <= r.value.blue <= 255
  {
    var t := LStripChar(color, '#');
    match (ParseHex(Slice(t, 0, 2)), ParseHex(Slice(t, 2, 4)), ParseHex(Slice(t, 4, 6)))
    case (Returned(red), Returned(green), Returned(blue)) => Returned(Rgb(red, green, blue))
    case _ => Raised
  }

  /** Every leading `#` is stripped, however many there are. */
  lemma HexToRgbHashes(color: string)
    ensures HexToRgb("#" + color) == HexToRgb(color)
  {
    assert ("#" + color)[1..] == color;
  }

  /** Fewer than five characters after the `#`s leave the blue slice empty, and parsing raises. */
  lemma HexToRgbShort(color: string)
    requires |LStripChar(color, '#')| <= 4
    ensures HexToRgb(color) == Raised
  {
  }

  /** Characters after the sixth are never looked at. */
  lemma HexToRgbIgnoresTail(t: string, extra: string)
    requires |t| >= 6 && t[0] != '#'
    ensures HexToRgb(t + extra) == HexToRgb(t)
  {
    assert (t + extra)[0] == t[0];
    assert (t + extra)[0..2] == t[0..2] && (t + extra)[2..4] == t[2..4] && (t + extra)[4..6] == t[4..6];
  }

  /** A sign is accepted by `int`, so a channel can come out negative. */
  lemma HexToRgbSigned(color: string)
    requires color == "#-f0000"
    ensures HexToRgb(color) == Returned(Rgb(-15, 0, 0))
  {
    var t := color[1..];
    assert color == "#" + t;
    HexToRgbHashes(t);
    assert LStripChar(t, '#') == t;
    ParseNegativeDigit(t[0..2]);
    ParsePair(t[2..4]);
    ParsePair(t[4..6]);
  }

  /** Six hex digits after the `#`s: the channels a colour picker means. */
  predicate SixHexDigits(t: string) {
    |t| >= 6 && forall k :: 0 <= k < 6 ==> IsHexDigit(t[k])
  }

  function Byte(t: string, i: nat): (b: nat)
    requires i + 1 < |t| && IsHexDigit(t[i]) && IsHexDigit(t[i + 1])
    ensures b <= 255
  {
    16 * HexDigitValue(t[i]) + HexDigitValue(t[i + 1])
  }

  /** The parse hex_to_rgb is meant to be: exactly two hex digits per channel. */
  function StrictHexToRgb(color: string): (r: Attempt<Rgb>)
    ensures r.Returned? <==> SixHexDigits(LStripChar(color, '#'))
    ensures r.Returned? ==> 0 <= r.value.red <= 255 && 0 <= r.value.green <= 255 && 0 <= r.value.blue <= 255
  {
    var t := LStripChar(color, '#');
    if SixHexDigits(t) then Returned(Rgb(Byte(t, 0), Byte(t, 2), Byte(t, 4)))
    else Raised
  }

  /** On well-formed colours hex_to_rgb as written gives the intended channels. */
  lemma StrictAgrees(color: string)
    requires StrictHexToRgb(color).Returned?
    ensures HexToRgb(color) == StrictHexToRgb(color)
  {
    var t := LStripChar(color, '#');
    assert SixHexDigits(t);
    PairByte(t, 0);
    PairByte(t, 2);
    PairByte(t, 4);
  }

  lemma PairByte(t: string, i: nat)
    requires i + 1 < |t| && IsHexDigit(t[i]) && IsHexDigit(t[i + 1])
    ensures ParseHex(t[i..i + 2]) == Returned(Byte(t, i))
  {
    ParsePair(t[i..i + 2]);
  }

  /** The signed colour is refused by the intended parse. */
  lemma StrictRefusesSigned(color: string)
    requires color == "#-f0000"
    ensures StrictHexToRgb(color) == Raised
  {
    assert LStripChar(color, '#') == color[1..];
    assert color[1..][0] == '-';
  }

  // ---------------------------------------------------------------------------
  // get_font_family (pdf_generator.py:20-28) and the bold name (pdf_generator.py:72)
  // ---------------------------------------------------------------------------

  const Helvetica: string := "Helvetica"
  const TimesRoman: string := "Times-Roman"
  const HelveticaBold: string := "Helvetica-Bold"
  const TimesBold: string := "Times-Bold"

  function FontFamily(style: string): (family: string)
    ensures family == Helvetica || family == TimesRoman
    ensures family == TimesRoman <==> style == "classic" || style == "elegant"
  {
    if style == "modern" then Helvetica
    else if style == "classic" then TimesRoman
    else if style == "clean" then Helvetica
    else if style == "elegant" then TimesRoman
    else Helvetica
  }

  /** `font_family + '-Bold'` for Helvetica, `font_family.replace('Roman', 'Bold')` otherwise. */
  function BoldFont(family: string): string {
    if family == Helvetica then family + "-Bold" else Replace(family, "Roman", "Bold")
  }

  lemma TimesBoldName(family: string)
    requires family == TimesRoman
    ensures Replace(family, "Roman", "Bold") == TimesBold
  {
    var times := "Times-";
    assert family == times + "Roman" + [];
    ReplaceFirst(times, "Roman", "Bold", []);
  }

  /** Every style gets the bold face of its own family. */
  lemma BoldFontOfStyle(style: string)
    ensures BoldFont(FontFamily(style)) == if style == "classic" || style == "elegant" then TimesBold else HelveticaBold
  {
    if FontFamily(style) == TimesRoman {
      TimesBoldName(TimesRoman);
    }
  }

  // ---------------------------------------------------------------------------
  // Escaping (pdf_generator.py:171, 202, 217, 222)
  // ---------------------------------------------------------------------------

  const Amp: string := "&amp;"
  const Lt: string := "&lt;"
  const Gt: string := "&gt;"

  /** `.replace('&', '&amp;').replace('<', '&lt;').replace('>', '&gt;')`. */
  function EscapeText(s: string): (r: string)
    ensures '<' !in r && '>' !in r
  {
    var amp := Replace(s, "&", Amp);
    var lt := Replace(amp, "<", Lt);
    ReplaceCharRemoves(amp, '<', Lt);
    ReplaceKeepsOut(lt, ">", Gt, '<');
    ReplaceCharRemoves(lt, '>', Gt);
    Replace(lt, ">", Gt)
  }

  /** `link.replace('&', '&amp;')`. */
  function EscapeLink(s: string): string {
    Replace(s, "&", Amp)
  }

  /** The escape of one character. */
  function EscapeChar(c: char): string {
    if c == '&' then Amp else if c == '<' then Lt else if c == '>' then Gt else [c]
  }

  /** The escape of one character by the link escaping. */
  function EscapeAmp(c: char): string {
    if c == '&' then Amp else [c]
  }

  /** The text with `f` applied to each character, in order. */
  function Expand(s: string, f: char -> string): string
    decreases |s|
  {
    if s == [] then [] else f(s[0]) + Expand(s[1..], f)
  }

  /** The reading of entities by an HTML parser: `&lt;`, `&gt;` and `&amp;`, left to right. */
  function Unescape(s: string): string
    decreases |s|
  {
    if s == [] then []
    else if StartsWith(s, Amp) then "&" + Unescape(s[|Amp|..])
    else if StartsWith(s, Lt) then "<" + Unescape(s[|Lt|..])
    else if StartsWith(s, Gt) then ">" + Unescape(s[|Gt|..])
    else [s[0]] + Unescape(s[1..])
  }

  lemma EscapeOneChar(c: char)
    ensures EscapeText([c]) == EscapeChar(c)
  {
    if c == '&' {
      EscapeAmpSign([c]);
    } else if c == '<' {
      EscapeLess([c]);
    } else if c == '>' {
      EscapeGreater([c]);
    } else {
      ReplaceCharAbsent([c], '&', Amp);
      ReplaceCharAbsent([c], '<', Lt);
      ReplaceCharAbsent([c], '>', Gt);
    }
  }

  lemma EscapeAmpSign(s: string)
    requires s == "&"
    ensures EscapeText(s) == Amp
  {
    ReplaceFirst([], "&", Amp, []);
    assert Replace(s, "&", Amp) == Amp;
    ReplaceCharAbsent(Amp, '<', Lt);
    ReplaceCharAbsent(Amp, '>', Gt);
  }

  lemma EscapeLess(s: string)
    requires s == "<"
    ensures EscapeText(s) == Lt
  {
    ReplaceCharAbsent(s, '&', Amp);
    ReplaceFirst([], "<", Lt, []);
    assert Replace(s, "<", Lt) == Lt;
    ReplaceCharAbsent(Lt, '>', Gt);
  }

  lemma EscapeGreater(s: string)
    requires s == ">"
    ensures EscapeText(s) == Gt
  {
    ReplaceCharAbsent(s, '&', Amp);
    ReplaceCharAbsent(s, '<', Lt);
    ReplaceFirst([], ">", Gt, []);
    assert Replace(s, ">", Gt) == Gt;
  }

  /** The chain of replacements escapes character by character, `&` first so no entity is escaped twice. */
  lemma {:induction false} EscapeTextPerChar(s: string)
    ensures EscapeText(s) == Expand(s, EscapeChar)
    decreases |s|
  {
    if s != [] {
      var rest := s[1..];
      assert s == [s[0]] + rest;
      ReplaceCharAppend([s[0]], rest, '&', Amp);
      var a1 := Replace([s[0]], "&", Amp);
      var a2 := Replace(rest, "&", Amp);
      ReplaceCharAppend(a1, a2, '<', Lt);
      ReplaceCharAppend(Replace(a1, "<", Lt), Replace(a2, "<", Lt), '>', Gt);
      EscapeOneChar(s[0]);
      EscapeTextPerChar(rest);
    }
  }

  lemma {:induction false} EscapeLinkPerChar(s: string)
    ensures EscapeLink(s) == Expand(s, EscapeAmp)
    decreases |s|
  {
    if s != [] {
      assert s == [s[0]] + s[1..];
      ReplaceCharAppend([s[0]], s[1..], '&', Amp);
      EscapeLinkPerChar(s[1..]);
    }
  }

  /** A character other than `&` starts no entity. */
  lemma PlainStart(c: char, rest: string)
    requires c != '&'
    ensures Unescape([c] + rest) == [c] + Unescape(rest)
  {
    var s := [c] + rest;
    assert s[0] == c && s[1..] == rest;
    assert !StartsWith(s, Amp) && !StartsWith(s, Lt) && !StartsWith(s, Gt);
  }

  lemma EntityStart(e: string, rest: string)
    requires e == Amp || e == Lt || e == Gt
    ensures Unescape(e + rest) == (if e == Amp then "&" else if e == Lt then "<" else ">") + Unescape(rest)
  {
    assert StartsWith(e + rest, e);
    assert (e + rest)[|e|..] == rest;
    if e != Amp {
      assert (e + rest)[1] != Amp[1];
      assert !StartsWith(e + rest, Amp);
    }
    if e == Gt {
      assert !StartsWith(e + rest, Lt);
    }
  }

  /** Reading the escaped text back gives the text. */
  lemma {:induction false} UnescapeEscapeText(s: string)
    ensures Unescape(EscapeText(s)) == s
    decreases |s|
  {
    EscapeTextPerChar(s);
    UnescapeExpand(s);
  }

  lemma {:induction false} UnescapeExpand(s: string)
    ensures Unescape(Expand(s, EscapeChar)) == s
    decreases |s|
  {
    if s != [] {
      var c := s[0];
      UnescapeExpand(s[1..]);
      if c == '&' || c == '<' || c == '>' {
        EntityStart(EscapeChar(c), Expand(s[1..], EscapeChar));
      } else {
        PlainStart(c, Expand(s[1..], EscapeChar));
      }
      assert s == [c] + s[1..];
    }
  }

  /** Reading the escaped link back gives the link, whatever entities it already held. */
  lemma {:induction false} UnescapeEscapeLink(s: string)
    ensures Unescape(EscapeLink(s)) == s
  {
    EscapeLinkPerChar(s);
    UnescapeExpandAmp(s);
  }

  lemma {:induction false} UnescapeExpandAmp(s: string)
    ensures Unescape(Expand(s, EscapeAmp)) == s
    decreases |s|
  {
    if s != [] {
      var c := s[0];
      UnescapeExpandAmp(s[1..]);
      if c == '&' {
        EntityStart(Amp, Expand(s[1..], EscapeAmp));
      } else {
        PlainStart(c, Expand(s[1..], EscapeAmp));
      }
      assert s == [c] + s[1..];
    }
  }

  // ---------------------------------------------------------------------------
  // The flowables of generate_pdf (pdf_generator.py:149-246)
  // ---------------------------------------------------------------------------

  /** The paragraph styles of the newsletter; their fonts, sizes and colours are not modelled. */
  datatype Style = Heading | DateLine | Highlight | SummaryBox | Intro | ArticleTitle | SourceLine | Body | LinkLine | Footer

  /** A flowable as reportlab receives it; rules keep only their width in percent. */
  datatype Flowable = Para(text: string, style: Style) | Space(height: nat) | Rule(widthPercent: nat) | Picture(url: string)

  const NewsletterHeading: string := "Your Daily Newsletter"
  const HighlightsHeading: string := "<b>Today's Highlights</b>"
  const EditionFeatures: string := "Today's edition features "
  const CuratedArticles: string := " curated articles just for you."
  const UnknownOrigin: string := "Unknown"
  const Today: string := "Today"
  const Bar: string := " | "
  const LinkOpen: string := "<a href=\""
  const LinkClose: string := "\" color=\"blue\"><u>Read full article</u></a>"
  const FooterText: string := "Generated by Your Personal Newsletter App"

  /** The paragraphs whose text comes from article data or the overall summary. */
  predicate DataStyle(st: Style) {
    st == ArticleTitle || st == Body || st == SummaryBox
  }

  /**
   * The anchor around a link. Its `href` decodes back to the link when the link holds
   * no `"` or `<`; only `&` is escaped, so either of those ends the attribute or the markup.
   */
  function LinkMarkup(link: string): (r: string)
    ensures |LinkOpen| + |LinkClose| <= |r|
    ensures r[..|LinkOpen|] == LinkOpen && r[|r| - |LinkClose|..] == LinkClose
    ensures Unescape(r[|LinkOpen|..|r| - |LinkClose|]) == link
  {
    var href := EscapeLink(link);
    var r := LinkOpen + href + LinkClose;
    assert r[|LinkOpen|..|r| - |LinkClose|] == href;
    UnescapeEscapeLink(link);
    r
  }

  /** The line under an article title: its source and date, printed as they are. */
  function SourceText(a: Story): string {
    a.source.GetOr(UnknownOrigin) + Bar + a.published.GetOr(Today)
  }

  /** The spacer and thin rule that separate an article from the one before it. */
  function Separator(i: nat): (r: seq<Flowable>)
    ensures NoTitle(r) && MarkupFree(r)
  {
    if i > 0 then [Space(10), Rule(80)] else []
  }

  /** The escaped title and the source line. */
  function TitleFlowables(a: Story): (r: seq<Flowable>)
    ensures MarkupFree(r)
  {
    [Para(EscapeText(a.title.GetOr(Untitled)), ArticleTitle), Para(SourceText(a), SourceLine)]
  }

  /** The picture of an article, when it has an image URL and the download gives an image. */
  function ImageFlowables(a: Story, downloads: string -> bool): (r: seq<Flowable>)
    ensures NoTitle(r) && MarkupFree(r)
  {
    if Truthy(a.imageUrl) && downloads(a.imageUrl.value) then [Space(5), Picture(a.imageUrl.value), Space(5)] else []
  }

  /** The escaped summary. */
  function SummaryFlowables(a: Story): (r: seq<Flowable>)
    ensures NoTitle(r) && MarkupFree(r)
  {
    [Para(EscapeText(ReadSummary(a)), Body)]
  }

  /** The link paragraph, when the article has a link. */
  function LinkFlowables(a: Story): (r: seq<Flowable>)
    ensures NoTitle(r) && MarkupFree(r)
  {
    if Truthy(a.link) then [Para(LinkMarkup(a.link.value), LinkLine)] else []
  }

  /** The flowables of the article at position `i` (from 0). */
  function ArticleFlowables(i: nat, a: Story, downloads: string -> bool): (r: seq<Flowable>)
    ensures Titles(r) == [EscapeText(a.title.GetOr(Untitled))]
    ensures MarkupFree(r)
  {
    var sep := Separator(i);
    var head := TitleFlowables(a);
    var image := ImageFlowables(a, downloads);
    var summary := SummaryFlowables(a);
    var link := LinkFlowables(a);
    TitlesAppend(sep + head + image + summary, link);
    TitlesAppend(sep + head + image, summary);
    TitlesAppend(sep + head, image);
    TitlesAppend(sep, head);
    TitlesNone(sep);
    TitlesNone(image);
    TitlesNone(summary);
    TitlesNone(link);
    TitlesOfHead(a);
    MarkupFreeAppend(sep, head);
    MarkupFreeAppend(sep + head, image);
    MarkupFreeAppend(sep + head + image, summary);
    MarkupFreeAppend(sep + head + image + summary, link);
    sep + head + image + summary + link
  }

  lemma TitlesOfHead(a: Story)
    ensures Titles(TitleFlowables(a)) == [EscapeText(a.title.GetOr(Untitled))]
  {
    var head := TitleFlowables(a);
    var rest := head[1..];
    assert rest == [Para(SourceText(a), SourceLine)];
    TitlesNone(rest);
    assert head == [head[0]] + rest;
  }

  /** The flowables of the articles in `done`, in order. */
  function ArticlesFlowables(done: seq<Story>, downloads: string -> bool): seq<Flowable>
    decreases |done|
  {
    if done == [] then []
    else ArticlesFlowables(done[..|done| - 1], downloads) + ArticleFlowables(|done| - 1, done[|done| - 1], downloads)
  }

  /** Title, date, rule, the highlights when there is an overall summary, and the intro when there are articles. */
  function HeaderFlowables(count: nat, overall: string, date: string): (r: seq<Flowable>)
    ensures NoTitle(r) && MarkupFree(r)
  {
    var masthead := [Para(NewsletterHeading, Heading), Para(date, DateLine), Rule(100)];
    var highlights: seq<Flowable> := if overall != [] then [Para(HighlightsHeading, Highlight), Para(EscapeText(overall), SummaryBox), Space(10)] else [];
    var intro: seq<Flowable> := if count > 0 then [Para(EditionFeatures + NatToString(count) + CuratedArticles, Intro)] else [];
    MarkupFreeAppend(masthead, highlights);
    MarkupFreeAppend(masthead + highlights, intro);
    masthead + highlights + intro
  }

  /** The spacer, rule and footer that close the document. */
  function ClosingFlowables(): (r: seq<Flowable>)
    ensures NoTitle(r) && MarkupFree(r)
  {
    [Space(30), Rule(100), Para(FooterText, Footer)]
  }

  function PdfFlowables(articles: seq<Story>, overall: string, date: string, downloads: string -> bool): seq<Flowable> {
    HeaderFlowables(|articles|, overall, date) + ArticlesFlowables(articles, downloads) + ClosingFlowables()
  }

  /** The texts of the article-title paragraphs, in order. */
  function Titles(es: seq<Flowable>): seq<string>
    decreases |es|
  {
    if es == [] then []
    else (if es[0].Para? && es[0].style == ArticleTitle then [es[0].text] else []) + Titles(es[1..])
  }

  lemma {:induction false} TitlesAppend(a: seq<Flowable>, b: seq<Flowable>)
    ensures Titles(a + b) == Titles(a) + Titles(b)
    decreases |a|
  {
    if a == [] {
      assert a + b == b;
    } else {
      assert (a + b)[0] == a[0] && (a + b)[1..] == a[1..] + b;
      TitlesAppend(a[1..], b);
    }
  }

  /** Flowables none of which is an article title. */
  predicate NoTitle(es: seq<Flowable>) {
    forall k :: 0 <= k < |es| ==> !(es[k].Para? && es[k].style == ArticleTitle)
  }

  lemma {:induction false} TitlesNone(es: seq<Flowable>)
    requires NoTitle(es)
    ensures Titles(es) == []
    decreases |es|
  {
    if es != [] {
      TitlesNone(es[1..]);
    }
  }

  /** The escaped titles of the articles, in order. */
  function EscapedTitles(articles: seq<Story>): (r: seq<string>)
    ensures |r| == |articles|
    decreases |articles|
  {
    if articles == [] then []
    else EscapedTitles(articles[..|articles| - 1]) + [EscapeText(articles[|articles| - 1].title.GetOr(Untitled))]
  }

  lemma {:induction false} ArticlesTitles(done: seq<Story>, downloads: string -> bool)
    ensures Titles(ArticlesFlowables(done, downloads)) == EscapedTitles(done)
    decreases |done|
  {
    if done != [] {
      var init := done[..|done| - 1];
      ArticlesTitles(init, downloads);
      TitlesAppend(ArticlesFlowables(init, downloads), ArticleFlowables(|done| - 1, done[|done| - 1], downloads));
    }
  }

  /** The document prints one title per article, in article order, each escaped. */
  lemma PdfTitles(articles: seq<Story>, overall: string, date: string, downloads: string -> bool)
    ensures Titles(PdfFlowables(articles, overall, date, downloads)) == EscapedTitles(articles)
  {
    var header := HeaderFlowables(|articles|, overall, date);
    var body := ArticlesFlowables(articles, downloads);
    TitlesAppend(header + body, ClosingFlowables());
    TitlesAppend(header, body);
    TitlesNone(header);
    TitlesNone(ClosingFlowables());
    ArticlesTitles(articles, downloads);
  }

  /** No paragraph made from article data or the summary carries markup of its own. */
  predicate MarkupFree(es: seq<Flowable>) {
    forall k :: 0 <= k < |es| && es[k].Para? && DataStyle(es[k].style) ==> '<' !in es[k].text && '>' !in es[k].text
  }

  lemma MarkupFreeAppend(a: seq<Flowable>, b: seq<Flowable>)
    requires MarkupFree(a) && MarkupFree(b)
    ensures MarkupFree(a + b)
  {
    forall k | 0 <= k < |a + b| && (a + b)[k].Para? && DataStyle((a + b)[k].style)
      ensures '<' !in (a + b)[k].text && '>' !in (a + b)[k].text
    {
      if k >= |a| {
        assert (a + b)[k] == b[k - |a|];
      }
    }
  }

  lemma {:induction false} ArticlesMarkupFree(done: seq<Story>, downloads: string -> bool)
    ensures MarkupFree(ArticlesFlowables(done, downloads))
    decreases |done|
  {
    if done != [] {
      ArticlesMarkupFree(done[..|done| - 1], downloads);
      MarkupFreeAppend(ArticlesFlowables(done[..|done| - 1], downloads), ArticleFlowables(|done| - 1, done[|done| - 1], downloads));
    }
  }

  /** The whole document: data text is always escaped before it becomes a paragraph. */
  lemma PdfMarkupFree(articles: seq<Story>, overall: string, date: string, downloads: string -> bool)
    ensures MarkupFree(PdfFlowables(articles, overall, date, downloads))
  {
    var header := HeaderFlowables(|articles|, overall, date);
    var body := ArticlesFlowables(articles, downloads);
    ArticlesMarkupFree(articles, downloads);
    MarkupFreeAppend(header, body);
    MarkupFreeAppend(header + body, ClosingFlowables());
  }

  /** The flowables of one article, appended as the loop body of generate_pdf does. */
  method ArticleElements(i: nat, a: Story, downloads: string -> bool) returns (block: seq<Flowable>)
    ensures block == ArticleFlowables(i, a, downloads)
  {
    var sep: seq<Flowable> := [];
    if i > 0 {
      sep := [Space(10), Rule(80)];
    }
    var head := [Para(EscapeText(a.title.GetOr(Untitled)), ArticleTitle), Para(SourceText(a), SourceLine)];
    var image: seq<Flowable> := [];
    if Truthy(a.imageUrl) && downloads(a.imageUrl.value) {
      image := [Space(5), Picture(a.imageUrl.value), Space(5)];
    }
    var body := [Para(EscapeText(ReadSummary(a)), Body)];
    var link: seq<Flowable> := [];
    if Truthy(a.link) {
      link := [Para(LinkMarkup(a.link.value), LinkLine)];
    }
    block := sep + head + image + body + link;
  }

  /** The flowables before the articles, appended as generate_pdf does. */
  method HeaderElements(count: nat, overall: string, date: string) returns (elements: seq<Flowable>)
    ensures elements == HeaderFlowables(count, overall, date)
  {
    elements := [Para(NewsletterHeading, Heading), Para(date, DateLine), Rule(100)];
    if overall != [] {
      elements := elements + [Para(HighlightsHeading, Highlight), Para(EscapeText(overall), SummaryBox), Space(10)];
    }
    if count > 0 {
      elements := elements + [Para(EditionFeatures + NatToString(count) + CuratedArticles, Intro)];
    }
  }

  /** generate_pdf up to `doc.build`: the flowables appended one by one. */
  method GeneratePdf(articles: seq<Story>, overall: string, date: string, downloads: string -> bool)
    returns (elements: seq<Flowable>)
    ensures elements == PdfFlowables(articles, overall, date, downloads)
  {
    var n := |articles|;
    elements := HeaderElements(n, overall, date);
    var body: seq<Flowable> := [];
    for i := 0 to n
      invariant body == ArticlesFlowables(articles[..i], downloads)
    {
      var block := ArticleElements(i, articles[i], downloads);
      assert articles[..i + 1][..i] == articles[..i];
      body := body + block;
    }
    assert articles[..n] == articles;
    elements := elements + body + ClosingFlowables();
  }
}
