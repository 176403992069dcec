/**
 * The web application's own logic in `app.py`: the form validators and the input
 * sanitiser, public links to the generated files, the delivery of one newsletter to
 * one user over e-mail and WhatsApp, the fan-out of a newsletter to every active
 * user, and the topic parsing and checks of the news-preview endpoint.
 *
 * Flask, the database and the outside services are not modelled: the request
 * host, the SMTP configuration, the outcome of each call to the mailer and to the
 * WhatsApp service, and the file system are parameters.
 */
module App {
  import opened Wrappers
  import opened Strings
  import WhatsappService
  import NewsFetcher

  // ---------------------------------------------------------------------------
  // validate_email (app.py:32-35)
  // ---------------------------------------------------------------------------

  /** `[a-zA-Z0-9._%+-]` */
  predicate LocalChar(c: char) {
    IsAsciiLetter(c) || IsAsciiDigit(c) || c == '.' || c == '_' || c == '%' || c == '+' || c == '-'
  }

  /** `[a-zA-Z0-9.-]` */
  predicate DomainChar(c: char) {
    IsAsciiLetter(c) || IsAsciiDigit(c) || c == '.' || c == '-'
  }

  /**
   * `b[..at]` is a local part, `b[at]` the `@`, `b[at + 1..dot]` a domain,
   * `b[dot]` the `.` and `b[dot + 1..]` at least two letters.
   */
  predicate EmailSplit(b: string, at: int, dot: int) {
    && 0 < at && at + 1 < dot && dot + 3 <= |b|
    && b[at] == '@' && b[dot] == '.'
    && (forall k :: 0 <= k < at ==> LocalChar(b[k]))
    && (forall k :: at < k < dot ==> DomainChar(b[k]))
    && (forall k :: dot < k < |b| ==> IsAsciiLetter(b[k]))
  }

  /** `b` matches `[a-zA-Z0-9._%+-]+@[a-zA-Z0-9.-]+\.[a-zA-Z]{2,}` as a whole. */
  ghost predicate EmailBody(b: string) {
    exists at, dot :: EmailSplit(b, at, dot)
  }

  /** What `re.match` accepts: Python's `$` also matches just before one final newline. */
  ghost predicate EmailMatches(e: string) {
    EmailBody(e) || (e != [] && e[|e| - 1] == '\n' && EmailBody(e[..|e| - 1]))
  }

  /**
   * No part of the pattern admits `@`, and the last part admits no `.`: so the split
   * is at the first `@` and the last `.`, whenever there is one.
   */
  lemma EmailSplitUnique(b: string, at: int, dot: int)
    requires EmailSplit(b, at, dot)
    ensures FirstIndexOf(b, '@') == at && LastIndexOf(b, '.') == dot
  {
    assert forall k :: 0 <= k < at ==> b[k] != '@';
    assert forall k :: dot < k < |b| ==> b[k] != '.';
  }

  /** One check of the split at the first `@` and the last `.`. */
  function CheckBody(b: string): (ok: bool)
    ensures ok <==> EmailBody(b)
  {
    var at := FirstIndexOf(b, '@');
    var dot := LastIndexOf(b, '.');
    assert EmailBody(b) ==> EmailSplit(b, at, dot) by {
      if EmailBody(b) {
        var at', dot' :| EmailSplit(b, at', dot');
        EmailSplitUnique(b, at', dot');
      }
    }
    EmailSplit(b, at, dot)
  }

  /** validate_email: the address matches the pattern, perhaps before one final newline. */
  function ValidateEmail(email: string): (ok: bool)
    ensures ok <==> EmailMatches(email)
  {
    CheckBody(email) || (email != [] && email[|email| - 1] == '\n' && CheckBody(email[..|email| - 1]))
  }

  /** An address followed by one newline is accepted; followed by two, it is not. */
  lemma EmailTrailingNewline(b: string)
    requires EmailBody(b)
    ensures ValidateEmail(b + "\n")
    ensures !ValidateEmail(b + "\n\n")
  {
    assert (b + "\n")[..|b|] == b;
    var e := b + "\n\n";
    assert e[..|e| - 1] == b + "\n";
    assert e[|e| - 1] == '\n' && (b + "\n")[|b|] == '\n';
  }

  // ---------------------------------------------------------------------------
  // validate_whatsapp (app.py:37-40)
  // ---------------------------------------------------------------------------

  /** validate_whatsapp: between 10 and 15 characters remain once all but digits and `+` are removed. */
  function ValidateWhatsapp(number: string): (ok: bool)
    ensures ok <==> 10 <= Count(number, WhatsappService.DialChar) <= 15
    ensures ok ==> exists c :: c in number && WhatsappService.DialChar(c)
  {
    var cleaned := Keep(number, WhatsappService.DialChar);
    KeepCount(number, WhatsappService.DialChar);
    if 10 <= |cleaned| <= 15 then
      assert cleaned[0] in cleaned;
      true
    else false
  }

  lemma KeepShorter(s: string, f: char -> bool, g: char -> bool)
    ensures |Keep(Keep(s, f), g)| <= |Keep(s, f)|
  {
  }

  /**
   * A number the form accepts is one the WhatsApp service accepts: its chat id is
   * its digits, at most 15 of them, and `@c.us`.
   */
  lemma WhatsappAccepted(number: string)
    requires ValidateWhatsapp(number)
    ensures WhatsappService.NormalizeNumber(Some(number)) ==
      Some(Keep(number, IsAsciiDigit) + WhatsappService.ChatSuffix)
    ensures |Keep(number, IsAsciiDigit)| <= 15
  {
    WhatsappService.NormalizeMeaning(number);
    WhatsappService.KeepDigits(number);
    KeepShorter(number, WhatsappService.DialChar, WhatsappService.NotPlus);
  }

  /**
   * The plus signs count towards the length: ten of them and no digit at all pass
   * the check, and the service then addresses the chat `@c.us`.
   */
  lemma WhatsappPlusOnly(number: string)
    requires number == "++++++++++"
    ensures ValidateWhatsapp(number)
    ensures WhatsappService.NormalizeNumber(Some(number)) == Some(WhatsappService.ChatSuffix)
  {
    assert forall k :: 0 <= k < |number| ==> number[k] == '+';
    assert Keep(number, WhatsappService.DialChar) == number by {
      KeepAllPlus(number);
    }
    WhatsappService.PlusOnlyNumber(number);
  }

  lemma {:induction false} KeepAllPlus(s: string)
    requires forall k :: 0 <= k < |s| ==> s[k] == '+'
    ensures Keep(s, WhatsappService.DialChar) == s
    decreases |s|
  {
    if s != [] {
      KeepAllPlus(s[1..]);
      assert [s[0]] + s[1..] == s;
    }
  }

  /** The check the number evidently stands for: 10 to 15 digits, plus signs not counted. */
  function ValidateWhatsappDigits(number: string): (ok: bool)
    ensures ok <==> 10 <= Count(number, IsAsciiDigit) <= 15
  {
    var digits := Keep(number, IsAsciiDigit);
    KeepCount(number, IsAsciiDigit);
    10 <= |digits| <= 15
  }

  /** Under the digit count, an accepted number gives a chat id of 10 to 15 digits. */
  lemma WhatsappDigitsAccepted(number: string)
    requires ValidateWhatsappDigits(number)
    ensures WhatsappService.NormalizeNumber(Some(number)).Some?
    ensures var id := WhatsappService.NormalizeNumber(Some(number)).value;
      10 + |WhatsappService.ChatSuffix| <= |id| <= 15 + |WhatsappService.ChatSuffix|
  {
    WhatsappService.NormalizeMeaning(number);
    WhatsappService.KeepDigits(number);
    KeepShorter(number, WhatsappService.DialChar, WhatsappService.NotPlus);
  }

  // ---------------------------------------------------------------------------
  // sanitize_input (app.py:42-46)
  // ---------------------------------------------------------------------------

  const LtEntity: string := "&lt;"
  const GtEntity: string := "&gt;"
  const QuotEntity: string := "&quot;"

  predicate Unsafe(c: char) {
    c == '<' || c == '>' || c == '"'
  }

  /** sanitize_input: a missing or empty text is `''`; otherwise `<`, `>` and `"` become entities. */
  function Sanitize(text: Option<string>): (r: string)
    ensures !Truthy(text) ==> r == []
    ensures forall c :: c in r ==> !Unsafe(c)
  {
    if !Truthy(text) then []
    else
      var t := text.value;
      var a := Replace(t, "<", LtEntity);
      var b := Replace(a, ">", GtEntity);
      var c := Replace(b, "\"", QuotEntity);
      ReplaceCharRemoves(t, '<', LtEntity);
      ReplaceKeepsOut(a, ">", GtEntity, '<');
      ReplaceKeepsOut(b, "\"", QuotEntity, '<');
      ReplaceCharRemoves(a, '>', GtEntity);
      ReplaceKeepsOut(b, "\"", QuotEntity, '>');
      ReplaceCharRemoves(b, '"', QuotEntity);
      c
  }

  /** A text without the three characters passes unchanged. */
  lemma SanitizeKeepsSafe(t: string)
    requires forall c :: c in t ==> !Unsafe(c)
    ensures Sanitize(Some(t)) == t
  {
    if t != [] {
      ReplaceCharAbsent(t, '<', LtEntity);
      ReplaceCharAbsent(t, '>', GtEntity);
      ReplaceCharAbsent(t, '"', QuotEntity);
    }
  }

  /** Sanitising twice is sanitising once. */
  lemma SanitizeIdempotent(text: Option<string>)
    ensures Sanitize(Some(Sanitize(text))) == Sanitize(text)
  {
    SanitizeKeepsSafe(Sanitize(text));
  }

  // ---------------------------------------------------------------------------
  // build_public_url (app.py:48-52)
  // ---------------------------------------------------------------------------

  /** build_public_url: the host URL without trailing slashes, one slash, the path without leading ones. */
  function BuildPublicUrl(hostUrl: string, path: string): (url: string)
    ensures var base := RStripChar(hostUrl, '/');
      && |url| == |base| + 1 + |LStripChar(path, '/')|
      && url[..|base|] == base && url[|base|] == '/' && url[|base| + 1..] == LStripChar(path, '/')
      && (|base| > 0 ==> url[|base| - 1] != '/')
      && (|url| > |base| + 1 ==> url[|base| + 1] != '/')
  {
    RStripChar(hostUrl, '/') + "/" + LStripChar(path, '/')
  }

  /** Extra slashes at the end of the host or the start of the path change nothing. */
  lemma PublicUrlSlashes(hostUrl: string, path: string)
    ensures BuildPublicUrl(hostUrl + "/", path) == BuildPublicUrl(hostUrl, path)
    ensures BuildPublicUrl(hostUrl, "/" + path) == BuildPublicUrl(hostUrl, path)
  {
    assert (hostUrl + "/")[..|hostUrl|] == hostUrl;
    assert ("/" + path)[1..] == path;
  }

  /** Without slashes to drop, the URL is the host, one slash and the path. */
  lemma PublicUrlPlain(hostUrl: string, path: string)
    requires hostUrl == [] || hostUrl[|hostUrl| - 1] != '/'
    requires path == [] || path[0] != '/'
    ensures BuildPublicUrl(hostUrl, path) == hostUrl + "/" + path
  {
  }

  // ---------------------------------------------------------------------------
  // send_newsletter_to_user (app.py:78-140)
  // ---------------------------------------------------------------------------

  /** The columns of a stored newsletter that delivery reads; `None` is a NULL column. */
  datatype Newsletter = Newsletter(title: string, overallSummary: Option<string>,
                                   pdfPath: Option<string>, audioPath: Option<string>)

  datatype User = User(email: string, whatsappNumber: string)

  /**
   * The outside world of one delivery. Each call answers `None` when it succeeds and
   * the text of its exception when it raises.
   */
  datatype Channels = Channels(
    smtpConfigured: bool,
    sendEmail: (User, Newsletter) -> Option<string>,
    postText: (string, string) -> Option<string>,
    postMedia: (string, seq<string>, string) -> Option<string>,
    present: string -> bool,
    absolute: string -> string)

  const DefaultSummary: string := "Here is your personalized newsletter."
  const Signature: string := "Sent via Newsletter Bot."
  const PdfLabel: string := "PDF: "
  const AudioLabel: string := "Audio: "
  const PartBreak: string := "\n\n"

  const EmailDone: string := "email"
  const TextDone: string := "whatsapp"
  const MediaDone: string := "whatsapp-media"
  const NoSmtp: string := "SMTP not configured"
  const EmailTo: string := "Email to "
  const TextTo: string := "WhatsApp to "
  const MediaTo: string := "WhatsApp media to "
  const FailedWith: string := " failed: "

  /** A public link to a stored file, or `''` when the path is missing or empty. */
  function Link(hostUrl: string, path: Option<string>): (link: string)
    ensures link != [] <==> Truthy(path)
  {
    if Truthy(path) then BuildPublicUrl(hostUrl, path.value) else []
  }

  /** The parts of the WhatsApp text, in order. */
  function MessageParts(n: Newsletter, hostUrl: string): (parts: seq<string>)
    ensures |parts| == 3 + (if Truthy(n.pdfPath) then 1 else 0) + (if Truthy(n.audioPath) then 1 else 0)
    ensures parts[0] == n.title
    ensures parts[1] == if Truthy(n.overallSummary) then n.overallSummary.value else DefaultSummary
    ensures Truthy(n.pdfPath) ==> parts[2] == PdfLabel + Link(hostUrl, n.pdfPath)
    ensures Truthy(n.audioPath) ==> parts[|parts| - 2] == AudioLabel + Link(hostUrl, n.audioPath)
    ensures parts[|parts| - 1] == Signature
  {
    var summary := if Truthy(n.overallSummary) then n.overallSummary.value else DefaultSummary;
    var pdfLink := Link(hostUrl, n.pdfPath);
    var audioLink := Link(hostUrl, n.audioPath);
    [n.title, summary]
      + (if pdfLink != [] then [PdfLabel + pdfLink] else [])
      + (if audioLink != [] then [AudioLabel + audioLink] else [])
      + [Signature]
  }

  function WhatsappMessage(n: Newsletter, hostUrl: string): string {
    Join(PartBreak, MessageParts(n, hostUrl))
  }

  /** The message opens with the title and a blank line, and ends with the signature. */
  lemma WhatsappMessageShape(n: Newsletter, hostUrl: string)
    ensures StartsWith(WhatsappMessage(n, hostUrl), n.title + PartBreak)
    ensures EndsWith(WhatsappMessage(n, hostUrl), PartBreak + Signature)
  {
    var parts := MessageParts(n, hostUrl);
    var rest := Join(PartBreak, parts[1..]);
    assert WhatsappMessage(n, hostUrl) == n.title + PartBreak + rest;
    assert StartsWith(WhatsappMessage(n, hostUrl), n.title + PartBreak) by {
      assert n.title + PartBreak + rest == (n.title + PartBreak) + rest;
    }
    JoinEndsWith(parts, Signature);
  }

  lemma {:induction false} JoinEndsWith(parts: seq<string>, last: string)
    requires |parts| >= 2 && parts[|parts| - 1] == last
    ensures EndsWith(Join(PartBreak, parts), PartBreak + last)
    decreases |parts|
  {
    var j := Join(PartBreak, parts);
    if |parts| == 2 {
      JoinTwo(PartBreak, parts[0], parts[1]);
      assert j == parts[0] + (PartBreak + last);
    } else {
      JoinEndsWith(parts[1..], last);
      var tail := Join(PartBreak, parts[1..]);
      assert j == (parts[0] + PartBreak) + tail;
      assert j[|j| - |PartBreak + last|..] == tail[|tail| - |PartBreak + last|..];
    }
  }

  /** The files sent as documents: the PDF and then the audio, each only if it exists. */
  function MediaFiles(n: Newsletter, ch: Channels): (files: seq<string>)
    ensures |files| <= 2
    ensures |files| == (if Truthy(n.pdfPath) && ch.present(n.pdfPath.value) then 1 else 0)
                     + (if Truthy(n.audioPath) && ch.present(n.audioPath.value) then 1 else 0)
    ensures Truthy(n.pdfPath) && ch.present(n.pdfPath.value) ==> files[0] == ch.absolute(n.pdfPath.value)
    ensures Truthy(n.audioPath) && ch.present(n.audioPath.value) ==>
      files[|files| - 1] == ch.absolute(n.audioPath.value)
  {
    (if Truthy(n.pdfPath) && ch.present(n.pdfPath.value) then [ch.absolute(n.pdfPath.value)] else [])
      + (if Truthy(n.audioPath) && ch.present(n.audioPath.value) then [ch.absolute(n.audioPath.value)] else [])
  }

  datatype Outcome = Outcome(successes: seq<string>, errors: seq<string>)

  /** The e-mail channel's report. */
  function EmailReport(n: Newsletter, u: User, ch: Channels): (o: Outcome)
    ensures |o.successes| + |o.errors| == 1
    ensures o.successes == [] || o.successes == [EmailDone]
  {
    if !ch.smtpConfigured then Outcome([], [NoSmtp])
    else match ch.sendEmail(u, n)
      case None => Outcome([EmailDone], [])
      case Some(exc) => Outcome([], [EmailTo + u.email + FailedWith + exc])
  }

  /** The text channel's report, on the message of `WhatsappMessage`. */
  function TextReport(message: string, u: User, ch: Channels): (o: Outcome)
    ensures |o.successes| + |o.errors| == 1
    ensures o.successes == [] || o.successes == [TextDone]
  {
    match ch.postText(u.whatsappNumber, message)
    case None => Outcome([TextDone], [])
    case Some(err) => Outcome([], [TextTo + u.whatsappNumber + FailedWith + err])
  }

  /** The document channel's report: nothing when no file exists. */
  function MediaReport(files: seq<string>, n: Newsletter, u: User, ch: Channels): (o: Outcome)
    ensures |o.successes| + |o.errors| == if files == [] then 0 else 1
    ensures o.successes == [] || o.successes == [MediaDone]
  {
    if files == [] then Outcome([], [])
    else match ch.postMedia(u.whatsappNumber, files, n.title)
      case None => Outcome([MediaDone], [])
      case Some(err) => Outcome([], [MediaTo + u.whatsappNumber + FailedWith + err])
  }

  function Then(a: Outcome, b: Outcome): Outcome {
    Outcome(a.successes + b.successes, a.errors + b.errors)
  }

  /** What one delivery reports, channel by channel: e-mail, text, then documents. */
  function Delivery(n: Newsletter, u: User, ch: Channels, hostUrl: string): Outcome {
    Then(Then(EmailReport(n, u, ch), TextReport(WhatsappMessage(n, hostUrl), u, ch)),
         MediaReport(MediaFiles(n, ch), n, u, ch))
  }

  /** `a` is `b` with some elements left out. */
  predicate SubList<T(==)>(a: seq<T>, b: seq<T>)
    decreases |b|
  {
    a == [] || (b != [] && ((a[0] == b[0] && SubList(a[1..], b[1..])) || SubList(a, b[1..])))
  }

  /** Keeping or dropping the head of `[x] + rest` in front of a sub-list of `rest`. */
  lemma SubListPick<T>(a: seq<T>, x: T, r: seq<T>, rest: seq<T>)
    requires a == [] || a == [x]
    requires SubList(r, rest)
    ensures SubList(a + r, [x] + rest)
  {
    assert ([x] + rest)[1..] == rest;
    if a == [x] {
      assert (a + r)[0] == x && (a + r)[1..] == r;
    } else {
      assert a + r == r;
    }
  }

  /**
   * Every channel reports once, as a success or as an error: e-mail and text
   * always, the documents when one of the files exists.
   */
  lemma DeliveryCount(n: Newsletter, u: User, ch: Channels, hostUrl: string)
    ensures var o := Delivery(n, u, ch, hostUrl);
      |o.successes| + |o.errors| == 2 + (if MediaFiles(n, ch) != [] then 1 else 0)
  {
  }

  /** The successes name the channels in the order e-mail, text, documents. */
  lemma DeliveryOrder(n: Newsletter, u: User, ch: Channels, hostUrl: string)
    ensures SubList(Delivery(n, u, ch, hostUrl).successes, [EmailDone, TextDone, MediaDone])
  {
    var e := EmailReport(n, u, ch).successes;
    var t := TextReport(WhatsappMessage(n, hostUrl), u, ch).successes;
    var m := MediaReport(MediaFiles(n, ch), n, u, ch).successes;
    SubListOfThree(e, t, m, EmailDone, TextDone, MediaDone);
  }

  /** At most one of each of `x`, `y`, `z`, in that order, is a sub-list of `[x, y, z]`. */
  lemma SubListOfThree<T>(e: seq<T>, t: seq<T>, m: seq<T>, x: T, y: T, z: T)
    requires e == [] || e == [x]
    requires t == [] || t == [y]
    requires m == [] || m == [z]
    ensures SubList(e + t + m, [x, y, z])
  {
    assert SubList(m, [z]) by {
      SubListPick(m, z, [], []);
      assert m + [] == m && [z] + [] == [z];
    }
    SubListPick(t, y, m, [z]);
    SubListPick(e, x, t + m, [y] + [z]);
    assert e + t + m == e + (t + m);
    assert [x] + ([y] + [z]) == [x, y, z];
  }

  /** E-mail succeeds exactly when SMTP is configured and the mailer does not raise; unconfigured SMTP is reported first. */
  lemma DeliveryEmail(n: Newsletter, u: User, ch: Channels, hostUrl: string)
    ensures var o := Delivery(n, u, ch, hostUrl);
      && (EmailDone in o.successes <==> ch.smtpConfigured && ch.sendEmail(u, n).None?)
      && (!ch.smtpConfigured ==> o.errors != [] && o.errors[0] == NoSmtp)
  {
    var t := TextReport(WhatsappMessage(n, hostUrl), u, ch).successes;
    var m := MediaReport(MediaFiles(n, ch), n, u, ch).successes;
    assert EmailDone != TextDone && EmailDone != MediaDone;
    assert EmailDone !in t + m;
  }

  /**
   * send_newsletter_to_user: the three channels in turn, each appending to the
   * successes or to the errors.
   */
  method SendNewsletterToUser(n: Newsletter, u: User, ch: Channels, hostUrl: string)
    returns (successes: seq<string>, errors: seq<string>)
    ensures Outcome(successes, errors) == Delivery(n, u, ch, hostUrl)
  {
    var email := SendEmailStep(n, u, ch);
    var message := ComposeMessage(n, hostUrl);
    var text := SendTextStep(message, u, ch);
    var mediaFiles := CollectMedia(n, ch);
    var media := SendMediaStep(mediaFiles, n, u, ch);
    successes := email.successes + text.successes + media.successes;
    errors := email.errors + text.errors + media.errors;
  }

  /** The e-mail attempt of send_newsletter_to_user. */
  method SendEmailStep(n: Newsletter, u: User, ch: Channels) returns (o: Outcome)
    ensures o == EmailReport(n, u, ch)
  {
    if ch.smtpConfigured {
      var failure := ch.sendEmail(u, n);
      if failure.None? {
        o := Outcome([EmailDone], []);
      } else {
        o := Outcome([], [EmailTo + u.email + FailedWith + failure.value]);
      }
    } else {
      o := Outcome([], [NoSmtp]);
    }
  }

  /** The text attempt of send_newsletter_to_user. */
  method SendTextStep(message: string, u: User, ch: Channels) returns (o: Outcome)
    ensures o == TextReport(message, u, ch)
  {
    var failure := ch.postText(u.whatsappNumber, message);
    if failure.None? {
      o := Outcome([TextDone], []);
    } else {
      o := Outcome([], [TextTo + u.whatsappNumber + FailedWith + failure.value]);
    }
  }

  /** The document attempt of send_newsletter_to_user, skipped when no file exists. */
  method SendMediaStep(files: seq<string>, n: Newsletter, u: User, ch: Channels) returns (o: Outcome)
    ensures o == MediaReport(files, n, u, ch)
  {
    o := Outcome([], []);
    if files != [] {
      var failure := ch.postMedia(u.whatsappNumber, files, n.title);
      if failure.None? {
        o := Outcome([MediaDone], []);
      } else {
        o := Outcome([], [MediaTo + u.whatsappNumber + FailedWith + failure.value]);
      }
    }
  }

  /** The message composition of send_newsletter_to_user, part by part. */
  method ComposeMessage(n: Newsletter, hostUrl: string) returns (message: string)
    ensures message == WhatsappMessage(n, hostUrl)
  {
    var pdfLink := Link(hostUrl, n.pdfPath);
    var audioLink := Link(hostUrl, n.audioPath);
    var summary := if Truthy(n.overallSummary) then n.overallSummary.value else DefaultSummary;
    var parts := [n.title, summary];
    if pdfLink != [] {
      parts := parts + [PdfLabel + pdfLink];
    }
    if audioLink != [] {
      parts := parts + [AudioLabel + audioLink];
    }
    parts := parts + [Signature];
    assert parts == MessageParts(n, hostUrl);
    message := Join(PartBreak, parts);
  }

  /** The absolute paths of the files that exist, the PDF first. */
  method CollectMedia(n: Newsletter, ch: Channels) returns (files: seq<string>)
    ensures files == MediaFiles(n, ch)
  {
    files := [];
    if Truthy(n.pdfPath) && ch.present(n.pdfPath.value) {
      files := files + [ch.absolute(n.pdfPath.value)];
    }
    if Truthy(n.audioPath) && ch.present(n.audioPath.value) {
      files := files + [ch.absolute(n.audioPath.value)];
    }
  }

  // ---------------------------------------------------------------------------
  // The fan-out of generate_newsletter (app.py:293-299)
  // ---------------------------------------------------------------------------

  /** Every user's successes and errors, appended in user order. */
  function Deliveries(n: Newsletter, users: seq<User>, ch: Channels, hostUrl: string): Outcome
    decreases |users|
  {
    if users == [] then Outcome([], [])
    else
      var before := Deliveries(n, users[..|users| - 1], ch, hostUrl);
      var last := Delivery(n, users[|users| - 1], ch, hostUrl);
      Outcome(before.successes + last.successes, before.errors + last.errors)
  }

  /** Each user adds two or three reports, so the fan-out reports between 2 and 3 per user. */
  lemma {:induction false} DeliveriesCount(n: Newsletter, users: seq<User>, ch: Channels, hostUrl: string)
    ensures var o := Deliveries(n, users, ch, hostUrl);
      2 * |users| <= |o.successes| + |o.errors| <= 3 * |users|
    ensures MediaFiles(n, ch) == [] ==>
      |Deliveries(n, users, ch, hostUrl).successes| + |Deliveries(n, users, ch, hostUrl).errors| == 2 * |users|
    decreases |users|
  {
    if users != [] {
      DeliveriesCount(n, users[..|users| - 1], ch, hostUrl);
      DeliveryCount(n, users[|users| - 1], ch, hostUrl);
    }
  }

  /** Every success of the fan-out names one of the three channels. */
  lemma {:induction false} DeliveriesNames(n: Newsletter, users: seq<User>, ch: Channels, hostUrl: string)
    ensures forall x :: x in Deliveries(n, users, ch, hostUrl).successes ==>
      x == EmailDone || x == TextDone || x == MediaDone
    decreases |users|
  {
    if users != [] {
      DeliveriesNames(n, users[..|users| - 1], ch, hostUrl);
    }
  }

  /** The loop of generate_newsletter over the active users. */
  method FanOut(n: Newsletter, users: seq<User>, ch: Channels, hostUrl: string)
    returns (successes: seq<string>, errors: seq<string>)
    ensures Outcome(successes, errors) == Deliveries(n, users, ch, hostUrl)
  {
    successes := [];
    errors := [];
    for i := 0 to |users|
      invariant Outcome(successes, errors) == Deliveries(n, users[..i], ch, hostUrl)
    {
      var s, e := SendNewsletterToUser(n, users[i], ch, hostUrl);
      assert users[..i + 1][..i] == users[..i];
      successes := successes + s;
      errors := errors + e;
    }
    assert users[..|users|] == users;
  }

  // ---------------------------------------------------------------------------
  // preview_news (app.py:468-490)
  // ---------------------------------------------------------------------------

  /** A topic as the parser keeps it: non-empty, with no whitespace at either end. */
  predicate CleanTopic(t: string) {
    t != [] && !IsSpace(t[0]) && !IsSpace(t[|t| - 1])
  }

  /** The non-empty stripped pieces, in order. */
  function StrippedPieces(pieces: seq<string>): (r: seq<string>)
    ensures |r| <= |pieces|
    ensures forall k :: 0 <= k < |r| ==> CleanTopic(r[k])
    decreases |pieces|
  {
    if pieces == [] then []
    else
      var t := Strip(pieces[0]);
      var rest := StrippedPieces(pieces[1..]);
      if t == [] then rest
      else
        assert CleanTopic(t);
        CleanCons(t, rest);
        [t] + rest
  }

  /** A clean topic in front of clean topics gives clean topics. */
  lemma CleanCons(t: string, rest: seq<string>)
    requires CleanTopic(t)
    requires forall k :: 0 <= k < |rest| ==> CleanTopic(rest[k])
    ensures forall k :: 0 <= k < |[t] + rest| ==> CleanTopic(([t] + rest)[k])
  {
    forall k | 0 <= k < |[t] + rest|
      ensures CleanTopic(([t] + rest)[k])
    {
      if k > 0 {
        assert ([t] + rest)[k] == rest[k - 1];
      }
    }
  }

  /** `[t.strip() for t in topics.split(',') if t.strip()]` */
  function ParseTopics(topics: string): (r: seq<string>)
    ensures forall k :: 0 <= k < |r| ==> CleanTopic(r[k])
  {
    StrippedPieces(SplitOn(topics, ','))
  }

  lemma {:induction false} StrippedPiecesClean(pieces: seq<string>)
    requires forall k :: 0 <= k < |pieces| ==> CleanTopic(pieces[k])
    ensures StrippedPieces(pieces) == pieces
    decreases |pieces|
  {
    if pieces != [] {
      var first := pieces[0];
      assert CleanTopic(first);
      StripNoSpaceEnds(first);
      assert StrippedPieces(pieces) == [first] + StrippedPieces(pieces[1..]);
      StrippedPiecesClean(pieces[1..]);
      assert [first] + pieces[1..] == pieces;
    }
  }

  /** Joining clean topics with commas and parsing them again gives them back. */
  lemma ParseTopicsJoin(topics: seq<string>)
    requires topics != []
    requires forall k :: 0 <= k < |topics| ==>
      CleanTopic(topics[k]) && ',' !in topics[k]
    ensures ParseTopics(Join([','], topics)) == topics
  {
    SplitJoin(topics, ',');
    StrippedPiecesClean(topics);
  }

  /** The JSON body as the endpoint sees it. */
  datatype Payload =
    | NoData              // not parseable, or a falsy value (`{}`, `[]`, `0`, `""`, `null`)
    | NotObject           // a truthy value without `.get`: a list, a string, a number
    | Object(topics: Field)

  /** The `topics` member of the body. */
  datatype Field = Absent | Text(s: string) | NotText(truthy: bool)

  datatype Response =
    | Articles(items: seq<NewsFetcher.Ranked>)
    | Error(status: nat, message: string)
    | Crash               // an exception outside the handler's try: Flask answers 500

  const NotJson: string := "Content-Type must be application/json"
  const BadPayload: string := "Invalid JSON payload"
  const NoTopics: string := "No topics provided or invalid format"
  const NoValidTopics: string := "No valid topics found"

  datatype Preview = Refused(response: Response) | Topics(list: seq<string>)

  /** The checks of preview_news on the `topics` member: a non-empty string with at least one topic. */
  function TopicsCheck(field: Field): (p: Preview)
    ensures !(field.Text? && field.s != []) ==> p == Refused(Error(400, NoTopics))
    ensures field.Text? && field.s != [] && ParseTopics(field.s) == [] ==> p == Refused(Error(400, NoValidTopics))
    ensures p.Topics? <==> field.Text? && field.s != [] && ParseTopics(field.s) != []
    ensures p.Topics? ==> p.list == ParseTopics(field.s)
  {
    if !(field.Text? && field.s != []) then Refused(Error(400, NoTopics))
    else
      var list := ParseTopics(field.s);
      if list == [] then Refused(Error(400, NoValidTopics)) else Topics(list)
  }

  /** The checks of preview_news, in order, ending with the topic list to fetch. */
  function PreviewCheck(isJson: bool, payload: Payload): (p: Preview)
    ensures !isJson ==> p == Refused(Error(400, NotJson))
    ensures isJson && payload.NoData? ==> p == Refused(Error(400, BadPayload))
    ensures isJson && payload.NotObject? ==> p == Refused(Crash)
    ensures isJson && payload.Object? ==> p == TopicsCheck(payload.topics)
  {
    if !isJson then Refused(Error(400, NotJson))
    else match payload
      case NoData => Refused(Error(400, BadPayload))
      case NotObject => Refused(Crash)
      case Object(field) => TopicsCheck(field)
  }

  /** A topic string of only commas and spaces is refused as having no valid topic. */
  lemma PreviewBlankTopics(s: string)
    requires s != []
    requires forall k :: 0 <= k < |s| ==> s[k] == ',' || s[k] == ' '
    ensures TopicsCheck(Text(s)) == Refused(Error(400, NoValidTopics))
  {
    var pieces := SplitOn(s, ',');
    forall k | 0 <= k < |pieces| ensures forall c :: c in pieces[k] ==> c == ' ' {
      SplitOnFrom(s, ',', k);
    }
    BlankPieces(pieces);
  }

  lemma {:induction false} BlankPieces(pieces: seq<string>)
    requires forall k :: 0 <= k < |pieces| ==> forall c :: c in pieces[k] ==> c == ' '
    ensures StrippedPieces(pieces) == []
    decreases |pieces|
  {
    if pieces != [] {
      BlankPieces(pieces[1..]);
      StripAllSpace(pieces[0]);
    }
  }

  /**
   * preview_news: after the checks, the top three ranked articles for the topics.
   * `orderOf` gives the order in which the feeds of a topic list are visited.
   */
  method PreviewNews(isJson: bool, payload: Payload, orderOf: seq<string> -> seq<NewsFetcher.Url>,
                     fetch: NewsFetcher.Url -> Option<NewsFetcher.Feed>, env: NewsFetcher.ParseEnv)
    returns (response: Response)
    requires forall ts :: NewsFetcher.IsEnumeration(orderOf(ts), NewsFetcher.SelectedUrls(ts))
    ensures match PreviewCheck(isJson, payload)
      case Refused(r) => response == r
      case Topics(ts) =>
        response == Articles(NewsFetcher.Ranking(
          NewsFetcher.Gathered(orderOf(ts), NewsFetcher.Reader(fetch, env)), ts, 3))
  {
    var check := PreviewCheck(isJson, payload);
    if check.Refused? {
      return check.response;
    }
    var articles := NewsFetcher.FetchNews(check.list, 3, orderOf(check.list), fetch, env);
    response := Articles(articles);
  }

  /** A preview lists at most three articles. */
  lemma PreviewAtMostThree(all: seq<NewsFetcher.Article>, topics: seq<string>)
    ensures |NewsFetcher.Ranking(all, topics, 3)| <= 3
  {
    NewsFetcher.RankingLength(all, topics, 3);
  }
}
