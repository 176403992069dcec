/**
 * The spoken newsletter of `audio_generator.py`: text is cleaned for speech by a
 * fixed table of replacements and whitespace normalisation, and the script is a
 * sequence of lines (welcome, date, overview, one block per story, farewell)
 * joined with single spaces.
 *
 * Speech synthesis and the audio file are not modelled; the date is a parameter.
 */
module AudioGenerator {
  import opened Wrappers
  import opened Strings
  import opened Stories

  // ---------------------------------------------------------------------------
  // clean_text_for_speech (audio_generator.py:64-95)
  // ---------------------------------------------------------------------------

  /** The number of entries in the replacement table. */
  const TableSize: nat := 18

  /** The text replaced by entry `i` of the table, in the table's order. */
  function Old(i: nat): (pat: string)
    requires i < TableSize
    ensures pat != []
  {
    if i == 0 then "&"
    else if i == 1 then "%"
    else if i == 2 then "$"
    else if i == 3 then "#"
    else if i == 4 then "@"
    else if i == 5 then "+"
    else if i == 6 then "="
    else if i == 7 then "<"
    else if i == 8 then ">"
    else if i == 9 then "|"
    else if i == 10 then "/"
    else if i == 11 then "..."
    else if i == 12 then "\U{2014}"
    else if i == 13 then "\U{2013}"
    else if i == 14 then "\""
    else if i == 15 then "'"
    else if i == 16 then "\n"
    else "\t"
  }

  /** The text that replaces it. */
  function New(i: nat): string
    requires i < TableSize
  {
    if i == 0 then "and"
    else if i == 1 then "percent"
    else if i == 2 then "dollars"
    else if i == 3 then "number"
    else if i == 4 then "at"
    else if i == 5 then "plus"
    else if i == 6 then "equals"
    else if i == 7 then "less than"
    else if i == 8 then "greater than"
    else if i == 9 then ","
    else if i == 10 then " or "
    else if i == 11 then "."
    else if i == 12 then ", "
    else if i == 13 then ", "
    else if i == 14 then ""
    else if i == 15 then ""
    else " "
  }

  /** The first `n` replacements, applied one after the other to the whole text. */
  function Replaced(text: string, n: nat): string
    requires n <= TableSize
  {
    if n == 0 then text
    else Replace(Replaced(text, n - 1), Old(n - 1), New(n - 1))
  }

  /** The characters the table removes for good. */
  predicate Spelled(c: char) {
    c == '&' || c == '%' || c == '$' || c == '#' || c == '@' || c == '+' || c == '=' ||
    c == '<' || c == '>' || c == '|' || c == '/' || c == '"' || c == '\''
  }

  /** clean_text_for_speech, as a value: every replacement, then `\s+` to one space, then strip. */
  function CleanText(text: string): (r: string)
    ensures NoDoubleSpace(r)
    ensures r == [] || (!IsSpace(r[0]) && !IsSpace(r[|r| - 1]))
    ensures forall c :: c in r ==> !Spelled(c)
  {
    var replaced := Replaced(text, TableSize);
    forall c | Spelled(c) ensures c !in replaced {
      SpelledRemoved(text, c);
    }
    Squeeze(replaced)
  }

  /** The replacement texts use only letters, spaces, commas and full stops. */
  predicate Plain(c: char) {
    IsAsciiLetter(c) || c == ' ' || c == ',' || c == '.'
  }

  lemma NewPlainLow(i: nat)
    requires i < 9
    ensures forall c :: c in New(i) ==> Plain(c)
  {
  }

  lemma NewPlainHigh(i: nat)
    requires 9 <= i < TableSize
    ensures forall c :: c in New(i) ==> Plain(c)
  {
  }

  lemma NewPlain(i: nat)
    requires i < TableSize
    ensures forall c :: c in New(i) ==> Plain(c)
  {
    if i < 9 {
      NewPlainLow(i);
    } else {
      NewPlainHigh(i);
    }
  }

  /** A character no replacement text contains stays out once it is out. */
  lemma {:induction false} StaysOut(text: string, from: nat, n: nat, d: char)
    requires from <= n <= TableSize
    requires d !in Replaced(text, from)
    requires !Plain(d)
    ensures d !in Replaced(text, n)
    decreases n - from
  {
    if from < n {
      StaysOutStep(text, from, d);
      StaysOut(text, from + 1, n, d);
    }
  }

  /** One replacement of the table brings back no character outside the plain ones. */
  lemma StaysOutStep(text: string, i: nat, d: char)
    requires i < TableSize && d !in Replaced(text, i) && !Plain(d)
    ensures d !in Replaced(text, i + 1)
  {
    var before := Replaced(text, i);
    NewPlain(i);
    ReplaceKeepsOut(before, Old(i), New(i), d);
  }

  /** The entry of the table that spells out `c`. */
  function EntryFor(c: char): (i: nat)
    requires Spelled(c)
    ensures i < TableSize && Old(i) == [c]
  {
    if c == '&' then 0
    else if c == '%' then 1
    else if c == '$' then 2
    else if c == '#' then 3
    else if c == '@' then 4
    else if c == '+' then 5
    else if c == '=' then 6
    else if c == '<' then 7
    else if c == '>' then 8
    else if c == '|' then 9
    else if c == '/' then 10
    else if c == '"' then 14
    else 15
  }

  /** Each spelled-out character is gone after its own entry and never comes back. */
  lemma SpelledRemoved(text: string, c: char)
    requires Spelled(c)
    ensures c !in Replaced(text, TableSize)
  {
    var i := EntryFor(c);
    NewPlain(i);
    ReplaceCharRemoves(Replaced(text, i), c, New(i));
    StaysOut(text, i + 1, TableSize, c);
  }

  /** Running text: letters, digits and single inner spaces. */
  ghost predicate Speakable(t: string) {
    (forall c :: c in t ==> IsAsciiLetter(c) || IsAsciiDigit(c) || c == ' ') &&
    NoDoubleSpace(t) &&
    (t == [] || (t[0] != ' ' && t[|t| - 1] != ' '))
  }

  /** Every pattern of the table starts with a character running text does not have. */
  lemma OldStartsOddly(i: nat)
    requires i < TableSize
    ensures var c := Old(i)[0]; !IsAsciiLetter(c) && !IsAsciiDigit(c) && c != ' '
  {
  }

  /** No entry of the table finds anything in running text. */
  lemma {:induction false} ReplacedSpeakable(t: string, n: nat)
    requires n <= TableSize && Speakable(t)
    ensures Replaced(t, n) == t
    decreases n
  {
    if n > 0 {
      ReplacedSpeakable(t, n - 1);
      OldStartsOddly(n - 1);
      ReplaceAbsent(t, Old(n - 1), New(n - 1));
    }
  }

  /** Running text is read out exactly as written. */
  lemma CleanSpeakable(t: string)
    requires Speakable(t)
    ensures CleanText(t) == t
  {
    ReplacedSpeakable(t, TableSize);
    SqueezeNormal(t);
  }

  /** The loop of clean_text_for_speech over the table, then the normalisation. */
  method CleanTextForSpeech(text: string) returns (r: string)
    ensures r == CleanText(text)
  {
    r := text;
    for i := 0 to TableSize
      invariant r == Replaced(text, i)
    {
      r := Replace(r, Old(i), New(i));
    }
    r := Strip(Collapse(r));
  }

  // ---------------------------------------------------------------------------
  // create_audio_script (audio_generator.py:20-62)
  // ---------------------------------------------------------------------------

  const Welcome: string := "Welcome to your daily newsletter."
  const TodayIs: string := "Today is "
  const WeHave: string := "We have "
  const StoriesToday: string := " stories for you today."
  const Overview: string := "Here's a quick overview of today's top stories."
  const DiveIn: string := "Now, let's dive into the details."
  const StoryNumber: string := "Story number "
  const From: string := "From "
  const UnknownSource: string := "unknown source"
  const LinkNote: string := "You can find the full article link in your PDF newsletter."
  const NextStory: string := "Moving on to the next story."
  const Concludes: string := "That concludes today's newsletter."
  const Farewell: string := "Thank you for listening. Have a great day!"

  /** The lines that open the block of story `i`. */
  function StoryHead(i: nat, a: Story): seq<string> {
    [StoryNumber + NatToString(i) + ".",
     CleanText(a.title.GetOr(Untitled)),
     From + a.source.GetOr(UnknownSource) + ".",
     CleanText(ReadSummary(a))]
  }

  /** The lines of story `i` (counted from 1) of `n`. */
  function StoryLines(i: nat, n: nat, a: Story): (lines: seq<string>)
    ensures |lines| == 5 + (if Truthy(a.link) then 1 else 0) + (if i < n then 1 else 0)
    ensures lines[..4] == StoryHead(i, a)
    ensures Truthy(a.link) ==> lines[4] == LinkNote
    ensures i < n ==> lines[|lines| - 2] == NextStory
    ensures lines[|lines| - 1] == []
  {
    var link: seq<string> := if Truthy(a.link) then [LinkNote] else [];
    var next: seq<string> := if i < n then [NextStory] else [];
    var tail := link + next + [[]];
    assert i < n ==> tail[|tail| - 2] == NextStory;
    StoryHead(i, a) + tail
  }

  /** The blocks of the stories in `done`, numbered from 1, out of `n`. */
  function Blocks(done: seq<Story>, n: nat): seq<string>
    decreases |done|
  {
    if done == [] then []
    else Blocks(done[..|done| - 1], n) + StoryLines(|done|, n, done[|done| - 1])
  }

  /** The three lines of greeting. */
  function Greeting(count: nat, date: string): seq<string> {
    [Welcome, TodayIs + date + ".", WeHave + NatToString(count) + StoriesToday]
  }

  /** The lines before the stories: the overview only when there is an overall summary. */
  function Opening(count: nat, overall: string, date: string): (lines: seq<string>)
    ensures |lines| == if overall != [] then 9 else 6
    ensures lines[..3] == Greeting(count, date)
    ensures overall != [] ==> lines[3..6] == [[], Overview, CleanText(overall)]
    ensures lines[|lines| - 3..] == [[], DiveIn, []]
  {
    var overview: seq<string> := if overall != [] then [[], Overview, CleanText(overall)] else [];
    var middle := overview + [[], DiveIn, []];
    assert middle[|middle| - 3..] == [[], DiveIn, []];
    Greeting(count, date) + middle
  }

  function ScriptLines(articles: seq<Story>, overall: string, date: string): seq<string> {
    Opening(|articles|, overall, date) + Blocks(articles, |articles|) + [Concludes, Farewell]
  }

  /** One more story adds its block at the end. */
  lemma BlocksStep(articles: seq<Story>, i: nat, n: nat)
    requires i < |articles|
    ensures Blocks(articles[..i + 1], n) == Blocks(articles[..i], n) + StoryLines(i + 1, n, articles[i])
  {
    assert articles[..i + 1][..i] == articles[..i];
  }

  /** Every story of `done` has its number line in the blocks, at the block's start. */
  lemma {:induction false} BlocksNumbered(done: seq<Story>, n: nat, k: nat)
    requires k < |done|
    ensures StoryNumber + NatToString(k + 1) + "." in Blocks(done, n)
    decreases |done|
  {
    var init := done[..|done| - 1];
    var last := StoryLines(|done|, n, done[|done| - 1]);
    assert Blocks(done, n) == Blocks(init, n) + last;
    if k < |done| - 1 {
      BlocksNumbered(init, n, k);
    } else {
      assert last[0] in last;
    }
  }

  /** Each story contributes five to seven lines. */
  lemma {:induction false} BlocksLength(done: seq<Story>, n: nat)
    ensures 5 * |done| <= |Blocks(done, n)| <= 7 * |done|
    decreases |done|
  {
    if done != [] {
      BlocksLength(done[..|done| - 1], n);
    }
  }

  /** The script reads every story by number, and ends with the farewell. */
  lemma ScriptCoversStories(articles: seq<Story>, overall: string, date: string, k: nat)
    requires k < |articles|
    ensures StoryNumber + NatToString(k + 1) + "." in ScriptLines(articles, overall, date)
    ensures ScriptLines(articles, overall, date)[|ScriptLines(articles, overall, date)| - 2..] == [Concludes, Farewell]
  {
    BlocksNumbered(articles, |articles|, k);
  }

  /** The lines of one story, appended one by one as the loop body of create_audio_script does. */
  method StoryBlock(i: nat, n: nat, a: Story) returns (block: seq<string>)
    ensures block == StoryLines(i, n, a)
  {
    var number := StoryNumber + NatToString(i) + ".";
    var title := CleanTextForSpeech(a.title.GetOr(Untitled));
    var source := From + a.source.GetOr(UnknownSource) + ".";
    var summary := CleanTextForSpeech(ReadSummary(a));
    var head := [number, title, source, summary];
    assert head == StoryHead(i, a);
    var link: seq<string> := [];
    if Truthy(a.link) {
      link := [LinkNote];
    }
    var next: seq<string> := [];
    if i < n {
      next := [NextStory];
    }
    block := head + (link + next + [[]]);
  }

  /** The opening lines, with the overall summary cleaned only when there is one. */
  method OpeningLines(count: nat, overall: string, date: string) returns (lines: seq<string>)
    ensures lines == Opening(count, overall, date)
  {
    lines := Greeting(count, date);
    if overall != [] {
      var spoken := CleanTextForSpeech(overall);
      lines := lines + [[], Overview, spoken];
    }
    lines := lines + [[], DiveIn, []];
  }

  /** create_audio_script: the lines appended one by one, then joined with single spaces. */
  method CreateAudioScript(articles: seq<Story>, overall: string, date: string) returns (script: string)
    ensures script == Join(" ", ScriptLines(articles, overall, date))
  {
    var n := |articles|;
    var lines := OpeningLines(n, overall, date);
    var stories: seq<string> := [];
    for i := 0 to n
      invariant stories == Blocks(articles[..i], n)
    {
      var block := StoryBlock(i + 1, n, articles[i]);
      BlocksStep(articles, i, n);
      stories := stories + block;
    }
    assert articles[..n] == articles;
    lines := lines + stories + [Concludes, Farewell];
    script := Join(" ", lines);
  }
}
