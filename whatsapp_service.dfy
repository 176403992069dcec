/**
 * The WhatsApp sidecar of `whatsapp-service/index.js`: phone numbers become
 * `digits@c.us` chat ids, file extensions pick a MIME type, and the `/send` and
 * `/send-media` handlers validate a request in a fixed order before handing
 * messages to the WhatsApp client.
 *
 * The client is reduced to whether it exists and to the list of messages handed to
 * it; whether a hand-over succeeds, where a path resolves to and whether a file
 * exists or can be read are oracles.
 */
module WhatsappService {
  import opened Wrappers
  import opened Strings

  // ---------------------------------------------------------------------------
  // normalizeNumber (whatsapp-service/index.js:61-68)
  // ---------------------------------------------------------------------------

  /** The characters `/[^\d+]/g` keeps (JavaScript's `\d` is ASCII only). */
  predicate DialChar(c: char) {
    IsAsciiDigit(c) || c == '+'
  }

  predicate NotPlus(c: char) {
    c != '+'
  }

  const ChatSuffix: string := "@c.us"

  /** normalizeNumber: `None` stands for a falsy input or a null result. */
  function NormalizeNumber(number: Option<string>): (r: Option<string>)
    ensures !Truthy(number) ==> r.None?
    ensures r.Some? ==> EndsWith(r.value, ChatSuffix)
  {
    if number.None? || number.value == [] then None
    else
      var cleaned := Keep(number.value, DialChar);
      if cleaned == [] then None
      else
        var withPlus := if cleaned[0] == '+' then cleaned else "+" + cleaned;
        var id := Keep(withPlus, NotPlus) + ChatSuffix;
        assert id[|id| - |ChatSuffix|..] == ChatSuffix;
        Some(id)
  }

  /** Keeping dial characters and then dropping plus signs keeps the digits. */
  lemma {:induction false} KeepDigits(s: string)
    ensures Keep(Keep(s, DialChar), NotPlus) == Keep(s, IsAsciiDigit)
    decreases |s|
  {
    if s != [] {
      KeepDigits(s[1..]);
      var head := if DialChar(s[0]) then [s[0]] else [];
      KeepAppend(head, Keep(s[1..], DialChar), NotPlus);
      if DialChar(s[0]) {
        assert [s[0]][1..] == [];
      }
    }
  }

  /**
   * A number is rejected exactly when it has no digit and no plus sign; otherwise
   * its chat id is its ASCII digits, in order, followed by `@c.us`.
   */
  lemma NormalizeMeaning(number: string)
    ensures NormalizeNumber(Some(number)).None? <==> Keep(number, DialChar) == []
    ensures NormalizeNumber(Some(number)).Some? ==>
      NormalizeNumber(Some(number)).value == Keep(number, IsAsciiDigit) + ChatSuffix
  {
    var cleaned := Keep(number, DialChar);
    KeepDigits(number);
    if cleaned != [] && cleaned[0] != '+' {
      KeepAppend("+", cleaned, NotPlus);
      assert Keep("+", NotPlus) == [];
      assert [] + Keep(cleaned, NotPlus) == Keep(cleaned, NotPlus);
    }
  }

  /** A number made only of plus signs passes, with an id of no digits at all. */
  lemma PlusOnlyNumber(number: string)
    requires number != [] && forall k :: 0 <= k < |number| ==> number[k] == '+'
    ensures NormalizeNumber(Some(number)) == Some(ChatSuffix)
  {
    NormalizeMeaning(number);
    assert number[0] in number;
    KeepEmpty(number, IsAsciiDigit);
    assert DialChar(number[0]);
    KeepEmpty(number, DialChar);
  }

  // ---------------------------------------------------------------------------
  // mimeFromExt (whatsapp-service/index.js:70-77)
  // ---------------------------------------------------------------------------

  const PdfMime: string := "application/pdf"
  const Mp3Mime: string := "audio/mpeg"
  const WavMime: string := "audio/wav"
  const M4aMime: string := "audio/m4a"
  const DefaultMime: string := "application/octet-stream"

  const PdfExt: string := ".pdf"
  const Mp3Ext: string := ".mp3"
  const WavExt: string := ".wav"
  const M4aExt: string := ".m4a"

  /**
   * mimeFromExt, comparing the lower-cased extension (none of the four extensions
   * has a letter that a non-ASCII character lower-cases to, so ASCII lowering decides
   * the same comparisons).
   */
  function MimeFromExt(ext: string): (mime: string)
    ensures Lower(ext) == PdfExt ==> mime == PdfMime
    ensures Lower(ext) == Mp3Ext ==> mime == Mp3Mime
    ensures Lower(ext) == WavExt ==> mime == WavMime
    ensures Lower(ext) == M4aExt ==> mime == M4aMime
    ensures Lower(ext) != PdfExt && Lower(ext) != Mp3Ext && Lower(ext) != WavExt && Lower(ext) != M4aExt ==>
      mime == DefaultMime
  {
    var lower := Lower(ext);
    if lower == PdfExt then PdfMime
    else if lower == Mp3Ext then Mp3Mime
    else if lower == WavExt then WavMime
    else if lower == M4aExt then M4aMime
    else DefaultMime
  }

  lemma LowerIdempotent(s: string)
    ensures Lower(Lower(s)) == Lower(s)
  {
    forall k | 0 <= k < |s| ensures Lower(Lower(s))[k] == Lower(s)[k] {
      assert !IsAsciiUpper(Lower(s)[k]);
    }
  }

  /** The comparison ignores ASCII case. */
  lemma MimeCaseInsensitive(ext: string)
    ensures MimeFromExt(Lower(ext)) == MimeFromExt(ext)
  {
    LowerIdempotent(ext);
  }

  // ---------------------------------------------------------------------------
  // Node's path.basename and path.extname on a resolved POSIX path
  // ---------------------------------------------------------------------------

  /** The text after the last `/`. */
  function Basename(p: string): (b: string)
    ensures forall k :: 0 <= k < |b| ==> b[k] != '/'
  {
    p[LastIndexOf(p, '/') + 1..]
  }

  /** The base name's text from its last dot on, unless that dot starts the name. */
  function Extname(p: string): (e: string)
    ensures e == [] || e[0] == '.'
  {
    var b := Basename(p);
    var i := LastIndexOf(b, '.');
    if i <= 0 then [] else b[i..]
  }

  // ---------------------------------------------------------------------------
  // The service and its two handlers (whatsapp-service/index.js:79-142)
  // ---------------------------------------------------------------------------

  /** A message handed to `client.sendMessage`. */
  datatype Outgoing =
    | Text(chat: string, body: string)
    | Media(chat: string, mime: string, filename: string, path: string)

  datatype Body = Sent | Failure(error: string)

  datatype Reply = Reply(status: nat, body: Body)

  /** The `files` field of a `/send-media` body: absent (defaulting to `[]`), a list, or anything else. */
  datatype Files = Absent | List(paths: seq<string>) | NotList

  /** The file system as the handler sees it. */
  datatype FileSystem = FileSystem(resolve: string -> string, present: string -> bool, readable: string -> bool)

  const MissingFields: string := "Both \"to\" and \"message\" are required."
  const MissingMedia: string := "\"to\" and non-empty \"files\" array are required."
  const NoClient: string := "WhatsApp client not initialized."
  const BadNumber: string := "Invalid phone number format."
  const SendFailed: string := "Failed to send message."
  const MediaFailed: string := "Failed to send media."
  const NotFound: string := "File not found: "

  /** The document message for a resolved path: its MIME type from the extension, its name the base name. */
  function MediaFor(chat: string, abs: string): (m: Outgoing)
    ensures m.Media? && m.chat == chat && m.path == abs
    ensures m.mime == MimeFromExt(Extname(abs))
    ensures forall k :: 0 <= k < |m.filename| ==> m.filename[k] != '/'
  {
    Media(chat, MimeFromExt(Extname(abs)), Basename(abs), abs)
  }

  /** `MediaFor` for one chat, as the message builder of the file loop. */
  function DocumentsFor(chat: string): string -> Outgoing {
    abs => MediaFor(chat, abs)
  }

  /**
   * What the file loop of `/send-media` hands over, and the reply it ends with if it
   * ends early. It is generic in the message built for a resolved path (`make`), so
   * that its lemmas do not look inside the messages.
   */
  datatype Run<T> = Run(sent: seq<T>, stop: Option<Reply>)

  function MediaRun<T>(paths: seq<string>, fs: FileSystem, make: string -> T, delivers: T -> bool): (r: Run<T>)
    ensures |r.sent| <= |paths|
    ensures r.stop.Some? ==> r.stop.value.status == 400 || r.stop.value.status == 500
    decreases |paths|
  {
    if paths == [] then Run([], None)
    else
      var abs := fs.resolve(paths[0]);
      if !fs.present(abs) then Run([], Some(Reply(400, Failure(NotFound + abs))))
      else if !fs.readable(abs) then Run([], Some(Reply(500, Failure(MediaFailed))))
      else if !delivers(make(abs)) then Run([make(abs)], Some(Reply(500, Failure(MediaFailed))))
      else
        var rest := MediaRun(paths[1..], fs, make, delivers);
        Run([make(abs)] + rest.sent, rest.stop)
  }

  /** Files go out in order, one message each, and every file sent was present and readable. */
  lemma {:induction false} MediaRunSent<T>(paths: seq<string>, fs: FileSystem, make: string -> T, delivers: T -> bool, k: nat)
    requires k < |MediaRun(paths, fs, make, delivers).sent|
    ensures MediaRun(paths, fs, make, delivers).sent[k] == make(fs.resolve(paths[k]))
    ensures fs.present(fs.resolve(paths[k])) && fs.readable(fs.resolve(paths[k]))
    decreases |paths|
  {
    if k > 0 {
      MediaRunSent(paths[1..], fs, make, delivers, k - 1);
      assert paths[1..][k - 1] == paths[k];
    }
  }

  /** The run ends without a reply exactly when every file was sent and delivered. */
  lemma {:induction false} MediaRunComplete<T>(paths: seq<string>, fs: FileSystem, make: string -> T, delivers: T -> bool)
    ensures var r := MediaRun(paths, fs, make, delivers);
      r.stop.None? <==> |r.sent| == |paths| && forall k :: 0 <= k < |r.sent| ==> delivers(r.sent[k])
    decreases |paths|
  {
    if paths != [] {
      var abs := fs.resolve(paths[0]);
      MediaRunComplete(paths[1..], fs, make, delivers);
      var r := MediaRun(paths, fs, make, delivers);
      var rest := MediaRun(paths[1..], fs, make, delivers);
      if fs.present(abs) && fs.readable(abs) && delivers(make(abs)) {
        assert r.sent == [make(abs)] + rest.sent;
        if |r.sent| == |paths| && forall k :: 0 <= k < |r.sent| ==> delivers(r.sent[k]) {
          forall k | 0 <= k < |rest.sent| ensures delivers(rest.sent[k]) {
            assert rest.sent[k] == r.sent[k + 1];
          }
        }
      } else if fs.present(abs) && fs.readable(abs) {
        assert !delivers(r.sent[0]);
      }
    }
  }

  /** A 400 from the loop names the first file that is missing; the ones before it were sent. */
  lemma {:induction false} MediaRunMissing<T>(paths: seq<string>, fs: FileSystem, make: string -> T, delivers: T -> bool)
    ensures var r := MediaRun(paths, fs, make, delivers);
      r.stop.Some? && r.stop.value.status == 400 ==>
        && |r.sent| < |paths|
        && !fs.present(fs.resolve(paths[|r.sent|]))
        && r.stop.value.body == Failure(NotFound + fs.resolve(paths[|r.sent|]))
    decreases |paths|
  {
    if paths != [] {
      MediaRunMissing(paths[1..], fs, make, delivers);
      var rest := MediaRun(paths[1..], fs, make, delivers);
      if |rest.sent| < |paths| - 1 {
        assert paths[1..][|rest.sent|] == paths[|rest.sent| + 1];
      }
    }
  }

  /** The run from file `i` on, by what happens to file `i`. */
  lemma MediaRunAt<T>(paths: seq<string>, i: nat, fs: FileSystem, make: string -> T, delivers: T -> bool)
    requires i < |paths|
    ensures var abs := fs.resolve(paths[i]);
      MediaRun(paths[i..], fs, make, delivers) ==
        if !fs.present(abs) then Run([], Some(Reply(400, Failure(NotFound + abs))))
        else if !fs.readable(abs) then Run([], Some(Reply(500, Failure(MediaFailed))))
        else if !delivers(make(abs)) then Run([make(abs)], Some(Reply(500, Failure(MediaFailed))))
        else
          var rest := MediaRun(paths[i + 1..], fs, make, delivers);
          Run([make(abs)] + rest.sent, rest.stop)
  {
    assert paths[i..][0] == paths[i];
    assert paths[i..][1..] == paths[i + 1..];
  }

  /** How a handler's checks end: with an error reply, or with the chat to send to. */
  datatype Gate = Rejected(reply: Reply) | Accepted(chat: string)

  /**
   * The checks of POST /send, in order: missing fields (400), then the client
   * (503), then the number (400).
   */
  function SendGate(to: Option<string>, message: Option<string>, ready: bool): (g: Gate)
    ensures !Truthy(to) || !Truthy(message) ==> g == Rejected(Reply(400, Failure(MissingFields)))
    ensures Truthy(to) && Truthy(message) && !ready ==> g == Rejected(Reply(503, Failure(NoClient)))
    ensures Truthy(to) && Truthy(message) && ready && NormalizeNumber(to).None? ==>
      g == Rejected(Reply(400, Failure(BadNumber)))
    ensures g.Accepted? <==> Truthy(to) && Truthy(message) && ready && NormalizeNumber(to).Some?
    ensures g.Accepted? ==> NormalizeNumber(to) == Some(g.chat)
  {
    if !Truthy(to) || !Truthy(message) then Rejected(Reply(400, Failure(MissingFields)))
    else if !ready then Rejected(Reply(503, Failure(NoClient)))
    else match NormalizeNumber(to)
      case None => Rejected(Reply(400, Failure(BadNumber)))
      case Some(chat) => Accepted(chat)
  }

  /**
   * The checks of POST /send-media, in order: a missing number or an empty or
   * non-list `files` (400), then the client (503), then the number (400).
   */
  function MediaGate(to: Option<string>, files: Files, ready: bool): (g: Gate)
    ensures !Truthy(to) || !files.List? || files.paths == [] ==> g == Rejected(Reply(400, Failure(MissingMedia)))
    ensures Truthy(to) && files.List? && files.paths != [] && !ready ==> g == Rejected(Reply(503, Failure(NoClient)))
    ensures Truthy(to) && files.List? && files.paths != [] && ready && NormalizeNumber(to).None? ==>
      g == Rejected(Reply(400, Failure(BadNumber)))
    ensures g.Accepted? <==> Truthy(to) && files.List? && files.paths != [] && ready && NormalizeNumber(to).Some?
    ensures g.Accepted? ==> NormalizeNumber(to) == Some(g.chat)
  {
    if !Truthy(to) || !files.List? || files.paths == [] then Rejected(Reply(400, Failure(MissingMedia)))
    else if !ready then Rejected(Reply(503, Failure(NoClient)))
    else match NormalizeNumber(to)
      case None => Rejected(Reply(400, Failure(BadNumber)))
      case Some(chat) => Accepted(chat)
  }

  /**
   * What an accepted `/send-media` request hands over and answers: the caption, when
   * non-empty, comes first and a failed caption ends the request with 500; then the
   * file loop, whose early stop, if any, is the reply.
   */
  function Documents(chat: string, caption: Option<string>, paths: seq<string>, fs: FileSystem,
                     make: string -> Outgoing, delivers: Outgoing -> bool): (res: (seq<Outgoing>, Reply))
    ensures Truthy(caption) ==> |res.0| >= 1 && res.0[0] == Text(chat, caption.value)
    ensures Truthy(caption) && !delivers(Text(chat, caption.value)) ==>
      res == ([Text(chat, caption.value)], Reply(500, Failure(MediaFailed)))
    ensures !Truthy(caption) ==> res.0 == MediaRun(paths, fs, make, delivers).sent
    ensures res.1.status == 200 || res.1.status == 400 || res.1.status == 500
    ensures res.1.status == 200 <==>
      (!Truthy(caption) || delivers(Text(chat, caption.value))) &&
      MediaRun(paths, fs, make, delivers).stop.None?
  {
    var first := if Truthy(caption) then [Text(chat, caption.value)] else [];
    if first != [] && !delivers(first[0]) then (first, Reply(500, Failure(MediaFailed)))
    else
      var run := MediaRun(paths, fs, make, delivers);
      (first + run.sent, run.stop.GetOr(Reply(200, Sent)))
  }

  /** A request that passes the checks was addressed to a number with at least one digit or plus sign. */
  lemma AcceptedNumber(to: Option<string>, message: Option<string>, files: Files, ready: bool)
    requires SendGate(to, message, ready).Accepted? || MediaGate(to, files, ready).Accepted?
    ensures to.Some? && Keep(to.value, DialChar) != []
  {
    NormalizeMeaning(to.value);
  }

  class Service {
    /** Whether `client` is set. */
    var ready: bool
    /** Every message handed to the client, in order. */
    var outbox: seq<Outgoing>

    constructor(ready: bool)
      ensures this.ready == ready && outbox == []
    {
      this.ready := ready;
      outbox := [];
    }

    /**
     * POST /send: after the checks of `SendGate`, the message is handed over, and a
     * failed hand-over answers 500; a rejected request sends nothing.
     */
    method Send(to: Option<string>, message: Option<string>, delivers: Outgoing -> bool) returns (reply: Reply)
      modifies this
      ensures ready == old(ready)
      ensures var g := SendGate(to, message, old(ready));
        && (g.Rejected? ==> reply == g.reply && outbox == old(outbox))
        && (g.Accepted? ==>
              var m := Text(g.chat, message.value);
              && outbox == old(outbox) + [m]
              && reply == (if delivers(m) then Reply(200, Sent) else Reply(500, Failure(SendFailed))))
    {
      var gate := SendGate(to, message, ready);
      if gate.Rejected? {
        return gate.reply;
      }
      var m := Text(gate.chat, message.value);
      outbox := outbox + [m];
      if delivers(m) {
        reply := Reply(200, Sent);
      } else {
        reply := Reply(500, Failure(SendFailed));
      }
    }

    /**
     * POST /send-media: after the checks of `MediaGate`, the caption and the files
     * go out as `SendDocuments` says; a rejected request sends nothing.
     */
    method SendMedia(to: Option<string>, files: Files, caption: Option<string>, fs: FileSystem,
                     delivers: Outgoing -> bool) returns (reply: Reply)
      modifies this
      ensures ready == old(ready)
      ensures var g := MediaGate(to, files, old(ready));
        && (g.Rejected? ==> reply == g.reply && outbox == old(outbox))
        && (g.Accepted? ==>
              var (sent, r) := Documents(g.chat, caption, files.paths, fs, DocumentsFor(g.chat), delivers);
              outbox == old(outbox) + sent && reply == r)
    {
      var gate := MediaGate(to, files, ready);
      if gate.Rejected? {
        return gate.reply;
      }
      reply := SendDocuments(gate.chat, caption, files.paths, fs, DocumentsFor(gate.chat), delivers);
    }

    /**
     * The sending part of POST /send-media: a non-empty caption first, then the
     * files in order until the first one that fails.
     */
    method SendDocuments(chat: string, caption: Option<string>, paths: seq<string>, fs: FileSystem,
                         make: string -> Outgoing, delivers: Outgoing -> bool) returns (reply: Reply)
      modifies this
      ensures ready == old(ready)
      ensures var (sent, r) := Documents(chat, caption, paths, fs, make, delivers);
        outbox == old(outbox) + sent && reply == r
    {
      if Truthy(caption) {
        var c := Text(chat, caption.value);
        outbox := outbox + [c];
        if !delivers(c) {
          return Reply(500, Failure(MediaFailed));
        }
      }
      var stop := SendFiles(paths, fs, make, delivers);
      reply := stop.GetOr(Reply(200, Sent));
    }

    /**
     * The file loop of `/send-media`: one message per file, built by `make` from the
     * resolved path, until the first failure.
     */
    method SendFiles(paths: seq<string>, fs: FileSystem, make: string -> Outgoing, delivers: Outgoing -> bool)
      returns (stop: Option<Reply>)
      modifies this
      ensures ready == old(ready)
      ensures var run := MediaRun(paths, fs, make, delivers);
        outbox == old(outbox) + run.sent && stop == run.stop
    {
      ghost var whole := MediaRun(paths, fs, make, delivers);
      ghost var done: seq<Outgoing> := [];
      assert paths[0..] == paths;
      for i := 0 to |paths|
        invariant ready == old(ready)
        invariant outbox == old(outbox) + done && |done| == i
        invariant whole.sent == done + MediaRun(paths[i..], fs, make, delivers).sent
        invariant whole.stop == MediaRun(paths[i..], fs, make, delivers).stop
      {
        var abs := fs.resolve(paths[i]);
        MediaRunAt(paths, i, fs, make, delivers);
        if !fs.present(abs) {
          assert whole.sent == done + [] == done;
          return Some(Reply(400, Failure(NotFound + abs)));
        }
        if !fs.readable(abs) {
          assert whole.sent == done + [] == done;
          return Some(Reply(500, Failure(MediaFailed)));
        }
        var m := make(abs);
        outbox := outbox + [m];
        if !delivers(m) {
          assert whole.sent == done + [m];
          return Some(Reply(500, Failure(MediaFailed)));
        }
        ghost var rest := MediaRun(paths[i + 1..], fs, make, delivers);
        assert done + ([m] + rest.sent) == (done + [m]) + rest.sent;
        done := done + [m];
      }
      assert paths[|paths|..] == [];
      assert whole.sent == done + [];
      stop := None;
    }
  }
}
