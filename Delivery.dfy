/**
 * The link handler (main.py:185-240) and the cache lookup of the audio
 * callback (main.py:242-251). A request that passes the subscription gate
 * and carries a link gets a status message, a locator from the provider
 * chain, a cache entry under its message id, and then the send fallback:
 * the locator is handed to the platform, and only if that raises is the
 * video downloaded to a scratch file and sent from there. The status message
 * is deleted after a send, or edited to describe the failure. Every platform
 * call's outcome is an input of the model.
 */
module Delivery {
  import opened Common
  import opened InstaLink
  import opened ProviderChain

  // ---------------------------------------------------------------------------
  // Keys of the link cache and the audio button's callback data

  predicate IsDigit(c: char) {
    '0' <= c <= '9'
  }

  function DigitChar(d: nat): char
    requires d < 10
  {
    "0123456789"[d]
  }

  /** `str(n)` for a non-negative integer. */
  function DecimalString(n: nat): (s: string)
    ensures s != [] && forall i :: 0 <= i < |s| ==> IsDigit(s[i])
    ensures n < 10 <==> |s| == 1
  {
    if n < 10 then [DigitChar(n)] else DecimalString(n / 10) + [DigitChar(n % 10)]
  }

  lemma DigitCharInjective(a: nat, b: nat)
    requires a < 10 && b < 10 && DigitChar(a) == DigitChar(b)
    ensures a == b
  {
  }

  /** Distinct message ids give distinct cache keys. */
  lemma {:induction false} DecimalStringInjective(m: nat, n: nat)
    requires DecimalString(m) == DecimalString(n)
    ensures m == n
  {
    if m >= 10 && n >= 10 {
      var sm, sn := DecimalString(m), DecimalString(n);
      assert sm[|sm| - 1] == DigitChar(m % 10) && sn[|sn| - 1] == DigitChar(n % 10);
      DigitCharInjective(m % 10, n % 10);
      assert sm[..|sm| - 1] == DecimalString(m / 10);
      assert sn[..|sn| - 1] == DecimalString(n / 10);
      DecimalStringInjective(m / 10, n / 10);
    } else if m < 10 && n < 10 {
      DigitCharInjective(m, n);
    }
  }

  /** `str(message.id)`, the key of the link cache (main.py:206). */
  function CacheKey(id: nat): string {
    DecimalString(id)
  }

  /** `f"audio_{message.id}"`, the callback data of the "Download Audio" button (main.py:208). */
  function AudioData(id: nat): string {
    "audio_" + DecimalString(id)
  }

  /** `f"downloads/{message.id}.mp4"`, the scratch file of the local fallback (main.py:221). */
  function ScratchPath(id: nat): string {
    "downloads/" + DecimalString(id) + ".mp4"
  }

  /** The part of callback data the filter's `(\d+)` must cover: after `audio_`, before one final line break. */
  function DigitsPart(data: string): string
    requires |data| > 6
  {
    if data[|data| - 1] == '\n' then data[6..|data| - 1] else data[6..]
  }

  /**
   * The callback filter `^audio_(\d+)$`. Python's `$` also matches before a
   * final line break, so one trailing newline is let through.
   */
  predicate IsAudioCallback(data: string)
    ensures IsAudioCallback(data) ==> |data| > 6 && data[5] == '_'
    ensures IsAudioCallback(data) ==> forall k :: 0 <= k < |data| && data[k] == '_' ==> k == 5
  {
    |data| > 6 && data[..6] == "audio_" && DigitsPart(data) != [] &&
    forall i :: 0 <= i < |DigitsPart(data)| ==> IsDigit(DigitsPart(data)[i])
  }

  /** The index of the first `_` at or after `i`, or the length. */
  function NextUnderscore(s: string, i: nat): (j: nat)
    requires i <= |s|
    ensures i <= j <= |s| && (j == |s| || s[j] == '_')
    ensures forall k :: i <= k < j ==> s[k] != '_'
    decreases |s| - i
  {
    if i == |s| || s[i] == '_' then i else NextUnderscore(s, i + 1)
  }

  /** `s.split("_")[1]`, for a string that holds at least one `_`. */
  function SecondField(s: string): (r: string)
    requires '_' in s
    ensures var i := NextUnderscore(s, 0);
      && i + 1 + |r| <= |s| && s[i + 1..i + 1 + |r|] == r
      && (forall k :: 0 <= k < |r| ==> r[k] != '_')
      && (i + 1 + |r| == |s| || s[i + 1 + |r|] == '_')
  {
    var i := NextUnderscore(s, 0);
    s[i + 1..NextUnderscore(s, i + 1)]
  }

  /** The key the audio callback looks up (main.py:246): everything after `audio_`. */
  function CallbackKey(data: string): (key: string)
    requires IsAudioCallback(data)
    ensures key == data[6..]
  {
    assert data[5] == '_';
    var rest := data[6..];
    assert forall k :: 0 <= k < |rest| ==> rest[k] != '_' by {
      forall k | 0 <= k < |rest| ensures rest[k] != '_' {
        if data[|data| - 1] == '\n' && k == |rest| - 1 {
          assert rest[k] == data[|data| - 1];
        } else {
          assert rest[k] == DigitsPart(data)[k] && IsDigit(DigitsPart(data)[k]);
        }
      }
    }
    assert NextUnderscore(data, 0) == 5 by {
      assert forall k :: 0 <= k < 5 ==> data[k] == "audio_"[k];
    }
    assert NextUnderscore(data, 6) == |data|;
    SecondField(data)
  }

  /** The audio button of a sent video leads back to the key its locator was stored under. */
  lemma AudioDataRoundTrip(id: nat)
    ensures IsAudioCallback(AudioData(id))
    ensures CallbackKey(AudioData(id)) == CacheKey(id)
  {
    var data, digits := AudioData(id), DecimalString(id);
    assert data[..6] == "audio_";
    assert data[6..] == digits;
    assert data[|data| - 1] == digits[|digits| - 1];
  }

  // ---------------------------------------------------------------------------
  // The send fallback

  /** The texts the status message shows. */
  datatype StatusText =
    | Processing                 // "Processing your link..."
    | NotFoundText               // "Sorry, I couldn't download this reel. Both APIs failed."
    | SendingVideo               // "Sending video..."
    | UploadingVideo             // "Uploading video..."
    | ErrorText(reason: string)  // "Error sending video: {reason}"

  /** The status message: not created, showing a text, or deleted. */
  datatype StatusState = NoStatus | Shown(text: StatusText) | Deleted

  /** The message raised when the local download does not answer 200 (main.py:236). */
  const LocalDownloadFailed: string := "Failed to download video locally"

  /**
   * The outcome of `session.get(video_url)`: it raised, or its status and
   * the outcomes of `resp.read()`, of `open(file_path, "wb")` (which creates
   * the file) and of `f.write(content)`.
   */
  datatype DownloadAnswer = DownloadRaised(message: string) | Response(status: int, read: Outcome, open: Outcome, write: Outcome)

  /** The platform's and the network's answers to the calls of one request, in the order they are made. */
  datatype Answers = Answers(
    processingReply: Outcome,  // message.reply_text("Processing your link...")
    first: DurgeshReply,       // the first provider's reply
    second: HazexReply,        // the second provider's reply
    sendingEdit: Outcome,      // status_msg.edit_text("Sending video...")
    remoteSend: Outcome,       // send_video(video=video_url)
    uploadingEdit: Outcome,    // status_msg.edit_text("Uploading video...")
    download: DownloadAnswer,  // session.get(video_url), resp.read(), open, f.write
    localSend: Outcome,        // send_video(video=file_path)
    delete: Outcome,           // status_msg.delete()
    failureEdit: Outcome)      // the final edit_text with the failure text

  /** The calls one request makes, in order. */
  datatype Step =
    | ReplyStatus(text: StatusText)
    | Request(url: string)
    | EditStatus(text: StatusText)
    | StoreLocator(key: string)
    | SendRemote(locator: Value, button: string)
    | Download(locator: Value)
    | WriteScratch(path: string)  // open(file_path, "wb"): from here on the file exists
    | SendLocal(path: string, button: string)
    | RemoveScratch(path: string)
    | DeleteStatus

  predicate IsSend(s: Step) {
    s.SendRemote? || s.SendLocal?
  }

  /**
   * One handled request: the calls made, whether a video was sent, what the
   * status message ends as, the locator written to the cache, and the
   * message of an exception that leaves the handler.
   */
  datatype Delivery = Delivery(
    steps: seq<Step>, sent: bool, status: StatusState, cached: Option<Value>, escaped: Option<string>)

  /** The inner `try` block (main.py:204-237), up to the exception that reaches `except`. */
  datatype Attempt = Attempt(steps: seq<Step>, sent: bool, status: StatusState, error: Option<string>)

  /** `await status_msg.delete()` after a send. */
  function AfterSend(shown: StatusText, delete: Outcome): Attempt {
    match delete
    case Ok => Attempt([DeleteStatus], true, Deleted, None)
    case Raised(m) => Attempt([DeleteStatus], true, Shown(shown), Some(m))
  }

  /** The local fallback, entered after the remote send raised (main.py:219-236). */
  function LocalFallback(id: nat, locator: Value, a: Answers): (l: Attempt)
    ensures l.steps != [] && l.steps[0] == EditStatus(UploadingVideo)
    ensures l.sent ==> a.localSend.Ok? && SendLocal(ScratchPath(id), AudioData(id)) in l.steps
    ensures l.error.None? ==> l.sent && l.status == Deleted
  {
    var path, button := ScratchPath(id), AudioData(id);
    var s := [EditStatus(UploadingVideo)];
    if a.uploadingEdit.Raised? then Attempt(s, false, Shown(SendingVideo), Some(a.uploadingEdit.message))
    else
      var s := s + [Download(locator)];
      match a.download
      case DownloadRaised(m) => Attempt(s, false, Shown(UploadingVideo), Some(m))
      case Response(code, read, open, write) =>
        if code != 200 then Attempt(s, false, Shown(UploadingVideo), Some(LocalDownloadFailed))
        else if read.Raised? then Attempt(s, false, Shown(UploadingVideo), Some(read.message))
        else if open.Raised? then Attempt(s, false, Shown(UploadingVideo), Some(open.message))
        else
          var s := s + [WriteScratch(path)];
          if write.Raised? then Attempt(s, false, Shown(UploadingVideo), Some(write.message))
          else
            var s := s + [SendLocal(path, button)];
            if a.localSend.Raised? then Attempt(s, false, Shown(UploadingVideo), Some(a.localSend.message))
            else
              var t := AfterSend(UploadingVideo, a.delete);
              Attempt(s + [RemoveScratch(path)] + t.steps, t.sent, t.status, t.error)
  }

  /** The inner `try` block for a found locator (main.py:204-237). */
  function TrySend(id: nat, locator: Value, a: Answers): (t: Attempt)
    ensures t.steps != [] && t.steps[0] == EditStatus(SendingVideo)
    ensures a.sendingEdit.Ok? ==>
      |t.steps| >= 3 && t.steps[1] == StoreLocator(CacheKey(id)) && t.steps[2] == SendRemote(locator, AudioData(id))
    ensures t.sent ==> a.sendingEdit.Ok?
    ensures t.error.None? ==> t.sent && t.status == Deleted
  {
    var s := [EditStatus(SendingVideo)];
    if a.sendingEdit.Raised? then Attempt(s, false, Shown(Processing), Some(a.sendingEdit.message))
    else
      var s := s + [StoreLocator(CacheKey(id)), SendRemote(locator, AudioData(id))];
      var t := if a.remoteSend.Ok? then AfterSend(SendingVideo, a.delete) else LocalFallback(id, locator, a);
      Attempt(s + t.steps, t.sent, t.status, t.error)
  }

  /** Edit the status message to `text` as the last call (main.py:201, 240). */
  function FinalEdit(steps: seq<Step>, sent: bool, before: StatusState, text: StatusText, cached: Option<Value>, edit: Outcome): Delivery {
    var s := steps + [EditStatus(text)];
    match edit
    case Ok => Delivery(s, sent, Shown(text), cached, None)
    case Raised(m) => Delivery(s, sent, before, cached, Some(m))
  }

  /** The calls before the send fallback: the status reply and the provider requests. */
  function Preamble(requests: seq<string>): (s: seq<Step>)
    ensures |s| == |requests| + 1
    ensures s[0] == ReplyStatus(Processing)
    ensures forall i :: 0 <= i < |requests| ==> s[i + 1] == Request(requests[i])
    ensures forall i :: 0 <= i < |s| ==> s[i].ReplyStatus? || s[i].Request?
  {
    [ReplyStatus(Processing)] + seq(|requests|, i requires 0 <= i < |requests| => Request(requests[i]))
  }

  /** The handler from the matched link on (main.py:194-240). */
  function Deliver(id: nat, link: string, a: Answers): (d: Delivery)
    ensures d.steps != [] && d.steps[0] == ReplyStatus(Processing)
    ensures d.sent ==> d.cached.Some?
    ensures d.cached.Some? ==> d.cached.value == FetchReelUrl(link, a.first, a.second).locator
    ensures d.escaped.Some? ==> a.processingReply.Raised? || a.failureEdit.Raised?
  {
    if a.processingReply.Raised? then
      Delivery([ReplyStatus(Processing)], false, NoStatus, None, Some(a.processingReply.message))
    else
      var f := FetchReelUrl(link, a.first, a.second);
      var s := Preamble(f.requests);
      if !Truthy(f.locator) then FinalEdit(s, false, Shown(Processing), NotFoundText, None, a.failureEdit)
      else
        var cached := if a.sendingEdit.Ok? then Some(f.locator) else None;
        var t := TrySend(id, f.locator, a);
        match t.error
        case None => Delivery(s + t.steps, t.sent, t.status, cached, None)
        case Some(e) => FinalEdit(s + t.steps, t.sent, t.status, ErrorText(e), cached, a.failureEdit)
  }

  /**
   * `insta_link_handler` for message `id` with text `text`; `passed` is what
   * `check_fsub` returned for it.
   */
  function HandleLink(passed: bool, id: nat, text: string, a: Answers): (d: Delivery)
    ensures d.steps == [] <==> !passed || !Recognise(text)
  {
    if !passed then Delivery([], false, NoStatus, None, None)
    else match MatchedLink(text)
      case None => Delivery([], false, NoStatus, None, None)
      case Some(link) => Deliver(id, link, a)
  }

  /** The locator the providers return for `link`. */
  function Located(link: string, a: Answers): Value {
    FetchReelUrl(link, a.first, a.second).locator
  }

  /** The handler's steps are the preamble followed by those of the `try` block, then perhaps a final edit. */
  lemma DeliverShape(id: nat, link: string, a: Answers)
    requires a.processingReply.Ok? && Truthy(Located(link, a))
    ensures var d := Deliver(id, link, a);
      var s := Preamble(FetchReelUrl(link, a.first, a.second).requests);
      var t := TrySend(id, Located(link, a), a);
      && d.steps == s + t.steps + (if t.error.Some? then [EditStatus(ErrorText(t.error.value))] else [])
      && d.sent == t.sent
      && (t.error.None? ==> d.status == t.status)
      && (t.error.Some? && a.failureEdit.Ok? ==> d.status == Shown(ErrorText(t.error.value)))
      && d.cached == (if a.sendingEdit.Ok? then Some(Located(link, a)) else None)
  {
  }

  // ---------------------------------------------------------------------------
  // What the handler promises

  /** A blocked request, or a text without a link, makes no call at all: no provider is asked. */
  lemma NoLinkNoCall(passed: bool, id: nat, text: string, a: Answers)
    requires !passed || !Recognise(text)
    ensures HandleLink(passed, id, text, a) == Delivery([], false, NoStatus, None, None)
  {
  }

  /** Without a locator the status message is edited to the failure text and nothing is sent or cached. */
  lemma NoLocatorNothingSent(id: nat, link: string, a: Answers)
    requires a.processingReply.Ok? && !Truthy(Located(link, a))
    ensures var d := Deliver(id, link, a);
      && !d.sent && d.cached == None
      && (forall i :: 0 <= i < |d.steps| ==> !IsSend(d.steps[i]) && !d.steps[i].StoreLocator?)
      && d.steps[|d.steps| - 1] == EditStatus(NotFoundText)
      && (a.failureEdit.Ok? ==> d.status == Shown(NotFoundText))
  {
    var s := Preamble(FetchReelUrl(link, a.first, a.second).requests);
    assert Deliver(id, link, a).steps == s + [EditStatus(NotFoundText)];
  }

  /** In the `try` block the locator is stored before any send, and the local download and send follow a remote send that raised. */
  lemma TrySendOrder(id: nat, locator: Value, a: Answers)
    ensures var t := TrySend(id, locator, a);
      forall j :: 0 <= j < |t.steps| && IsSend(t.steps[j]) ==> 2 <= j && t.steps[1] == StoreLocator(CacheKey(id))
    ensures var t := TrySend(id, locator, a);
      forall j :: 0 <= j < |t.steps| && (t.steps[j].Download? || t.steps[j].SendLocal?) ==>
        3 <= j && t.steps[2].SendRemote? && a.remoteSend.Raised?
  {
  }

  /** The `j`-th call of the `try` block is the handler's call at `j` plus the preamble's length. */
  lemma DeliverIndex(id: nat, link: string, a: Answers, j: nat)
    requires a.processingReply.Ok? && Truthy(Located(link, a))
    requires j < |TrySend(id, Located(link, a), a).steps|
    ensures var n := |Preamble(FetchReelUrl(link, a.first, a.second).requests)|;
      n + j < |Deliver(id, link, a).steps| &&
      Deliver(id, link, a).steps[n + j] == TrySend(id, Located(link, a), a).steps[j]
  {
    DeliverShape(id, link, a);
  }

  /** The locator is stored under the message's key before any send is attempted. */
  lemma StoreBeforeSend(id: nat, link: string, a: Answers)
    ensures var d := Deliver(id, link, a);
      forall j :: 0 <= j < |d.steps| && IsSend(d.steps[j]) ==> StoreLocator(CacheKey(id)) in d.steps[..j]
  {
    var d := Deliver(id, link, a);
    if a.processingReply.Ok? && Truthy(Located(link, a)) {
      var s := Preamble(FetchReelUrl(link, a.first, a.second).requests);
      var t := TrySend(id, Located(link, a), a);
      DeliverShape(id, link, a);
      TrySendOrder(id, Located(link, a), a);
      forall j | 0 <= j < |d.steps| && IsSend(d.steps[j])
        ensures StoreLocator(CacheKey(id)) in d.steps[..j]
      {
        if |s| <= j < |s| + |t.steps| {
          DeliverIndex(id, link, a, j - |s|);
          DeliverIndex(id, link, a, 1);
          assert d.steps[..j][|s| + 1] == StoreLocator(CacheKey(id));
        }
      }
    } else if a.processingReply.Ok? {
      NoLocatorNothingSent(id, link, a);
    }
  }

  /** The local download happens only after the remote send raised, and after it. */
  lemma RemoteFirst(id: nat, link: string, a: Answers)
    ensures var d := Deliver(id, link, a);
      forall j :: 0 <= j < |d.steps| && (d.steps[j].Download? || d.steps[j].SendLocal?) ==>
        a.remoteSend.Raised? && exists i :: 0 <= i < j && d.steps[i].SendRemote?
  {
    var d := Deliver(id, link, a);
    if a.processingReply.Ok? && Truthy(Located(link, a)) {
      var s := Preamble(FetchReelUrl(link, a.first, a.second).requests);
      var t := TrySend(id, Located(link, a), a);
      DeliverShape(id, link, a);
      TrySendOrder(id, Located(link, a), a);
      forall j | 0 <= j < |d.steps| && (d.steps[j].Download? || d.steps[j].SendLocal?)
        ensures a.remoteSend.Raised? && exists i :: 0 <= i < j && d.steps[i].SendRemote?
      {
        if |s| <= j < |s| + |t.steps| {
          DeliverIndex(id, link, a, j - |s|);
          DeliverIndex(id, link, a, 2);
        }
      }
    } else if a.processingReply.Ok? {
      NoLocatorNothingSent(id, link, a);
    }
  }

  /**
   * Whether the `try` block creates the scratch file: the remote send raised,
   * the download answered 200, its body was read and the file was opened.
   */
  predicate WritesScratch(a: Answers) {
    && a.sendingEdit.Ok? && a.remoteSend.Raised? && a.uploadingEdit.Ok?
    && a.download.Response? && a.download.status == 200 && a.download.read.Ok? && a.download.open.Ok?
  }

  /** Whether the created scratch file also received the body. */
  predicate Saved(a: Answers) {
    WritesScratch(a) && a.download.write.Ok?
  }

  /** The scratch file of the `try` block: written when the download succeeded, removed only after the local send. */
  lemma TrySendScratch(id: nat, locator: Value, a: Answers)
    ensures var t := TrySend(id, locator, a);
      && (WriteScratch(ScratchPath(id)) in t.steps <==> WritesScratch(a))
      && (RemoveScratch(ScratchPath(id)) in t.steps <==> Saved(a) && a.localSend.Ok?)
      && (a.remoteSend.Ok? ==> forall i :: 0 <= i < |t.steps| ==> !t.steps[i].Download?)
  {
    if a.sendingEdit.Ok? && a.remoteSend.Raised? {
      LocalScratch(id, locator, a);
    }
  }

  /** The scratch file in the local fallback alone. */
  lemma LocalScratch(id: nat, locator: Value, a: Answers)
    ensures var l := LocalFallback(id, locator, a);
      && (WriteScratch(ScratchPath(id)) in l.steps <==>
            a.uploadingEdit.Ok? && a.download.Response? && a.download.status == 200
            && a.download.read.Ok? && a.download.open.Ok?)
      && (RemoveScratch(ScratchPath(id)) in l.steps <==>
            a.uploadingEdit.Ok? && a.download.Response? && a.download.status == 200
            && a.download.read.Ok? && a.download.open.Ok? && a.download.write.Ok? && a.localSend.Ok?)
  {
  }

  /** The send, the cache write and the status of the `try` block. */
  lemma TrySendOutcome(id: nat, locator: Value, a: Answers)
    ensures var t := TrySend(id, locator, a);
      && (t.sent <==> a.sendingEdit.Ok? && (a.remoteSend.Ok? || (Saved(a) && a.localSend.Ok?)))
      && (StoreLocator(CacheKey(id)) in t.steps <==> a.sendingEdit.Ok?)
      && (t.status == Deleted <==> t.sent && a.delete.Ok?)
      && (t.error.None? <==> t.status == Deleted)
  {
  }

  /** Outside the preamble and the final edit, the handler makes exactly the calls of the `try` block. */
  lemma DeliverSteps(id: nat, link: string, a: Answers, st: Step)
    requires a.processingReply.Ok? && Truthy(Located(link, a))
    requires !st.ReplyStatus? && !st.Request? && !st.EditStatus?
    ensures st in Deliver(id, link, a).steps <==> st in TrySend(id, Located(link, a), a).steps
  {
    DeliverShape(id, link, a);
  }

  /** The status message ends deleted exactly when a video was sent and the deletion succeeded. */
  lemma DeletedIffSent(id: nat, link: string, a: Answers)
    ensures var d := Deliver(id, link, a);
      d.status == Deleted <==> d.sent && a.delete.Ok?
  {
    if a.processingReply.Ok? && Truthy(Located(link, a)) {
      DeliverShape(id, link, a);
      TrySendOutcome(id, Located(link, a), a);
    }
  }

  /**
   * When the failure edit goes through, the status message is never left
   * showing a progress text: it is deleted, or shows the not-found or the
   * error text, and no exception leaves the handler.
   */
  lemma NeverLeftInProgress(id: nat, link: string, a: Answers)
    requires a.processingReply.Ok? && a.failureEdit.Ok?
    ensures var d := Deliver(id, link, a);
      && d.escaped == None
      && (d.status == Deleted || d.status == Shown(NotFoundText) || (d.status.Shown? && d.status.text.ErrorText?))
  {
    if Truthy(Located(link, a)) {
      DeliverShape(id, link, a);
      TrySendOutcome(id, Located(link, a), a);
    }
  }

  /**
   * The scratch file is removed exactly when it was created, the body was
   * written and the local send succeeded: a write or a local send that
   * raises leaves it behind.
   */
  lemma ScratchCleanup(id: nat, link: string, a: Answers)
    ensures var d := Deliver(id, link, a);
      && (RemoveScratch(ScratchPath(id)) in d.steps <==>
          WriteScratch(ScratchPath(id)) in d.steps && a.download.Response? && a.download.write.Ok? && a.localSend.Ok?)
      && (WriteScratch(ScratchPath(id)) in d.steps <==>
          a.processingReply.Ok? && Truthy(Located(link, a)) && WritesScratch(a))
  {
    var d := Deliver(id, link, a);
    if a.processingReply.Ok? && Truthy(Located(link, a)) {
      DeliverSteps(id, link, a, WriteScratch(ScratchPath(id)));
      DeliverSteps(id, link, a, RemoveScratch(ScratchPath(id)));
      TrySendScratch(id, Located(link, a), a);
    } else if a.processingReply.Ok? {
      NoLocatorNothingSent(id, link, a);
      assert d.steps == Preamble(FetchReelUrl(link, a.first, a.second).requests) + [EditStatus(NotFoundText)];
    }
  }

  /**
   * A locator is cached under the message's key exactly when the "Sending
   * video" edit succeeded, and what is cached is the providers' truthy locator.
   */
  lemma CachedIsLocator(id: nat, link: string, a: Answers)
    ensures var d := Deliver(id, link, a);
      && (d.cached.Some? <==> StoreLocator(CacheKey(id)) in d.steps)
      && (d.cached.Some? <==> a.processingReply.Ok? && Truthy(Located(link, a)) && a.sendingEdit.Ok?)
      && (d.cached.Some? ==> d.cached.value == Located(link, a) && Truthy(d.cached.value))
  {
    var d := Deliver(id, link, a);
    if a.processingReply.Ok? && Truthy(Located(link, a)) {
      DeliverSteps(id, link, a, StoreLocator(CacheKey(id)));
      TrySendOutcome(id, Located(link, a), a);
      DeliverShape(id, link, a);
    } else if a.processingReply.Ok? {
      NoLocatorNothingSent(id, link, a);
    }
  }

  /** A remote send that succeeds is the only send: nothing is downloaded. */
  lemma RemoteSuccessNoDownload(id: nat, link: string, a: Answers)
    requires a.processingReply.Ok? && Truthy(Located(link, a)) && a.sendingEdit.Ok? && a.remoteSend.Ok?
    ensures var d := Deliver(id, link, a);
      d.sent && forall i :: 0 <= i < |d.steps| ==> !d.steps[i].Download?
  {
    var d := Deliver(id, link, a);
    TrySendScratch(id, Located(link, a), a);
    TrySendOutcome(id, Located(link, a), a);
    forall i | 0 <= i < |d.steps| ensures !d.steps[i].Download? {
      assert d.steps[i] in d.steps;
      if d.steps[i].Download? {
        DeliverSteps(id, link, a, d.steps[i]);
      }
    }
  }

  /** The local download answering other than 200 ends in the "Failed to download video locally" error, with nothing sent. */
  lemma LocalDownloadNot200(id: nat, link: string, a: Answers)
    requires a.processingReply.Ok? && Truthy(Located(link, a)) && a.failureEdit.Ok?
    requires a.sendingEdit.Ok? && a.remoteSend.Raised? && a.uploadingEdit.Ok?
    requires a.download.Response? && a.download.status != 200
    ensures var d := Deliver(id, link, a);
      !d.sent && d.status == Shown(ErrorText(LocalDownloadFailed))
  {
    DeliverShape(id, link, a);
  }

  // ---------------------------------------------------------------------------
  // The audio callback's lookup (main.py:242-251)

  /** What the audio callback does before extracting: stop at the gate, report an expired link, or extract from a locator. */
  datatype AudioReply = GateBlocked | Expired | Extract(locator: Value)

  /** `video_urls_cache.get(message_id)` and the truthiness test after the gate. */
  function AudioReplyFor(entries: map<string, Value>, passed: bool, data: string): (r: AudioReply)
    requires IsAudioCallback(data)
    ensures r == GateBlocked <==> !passed
    ensures r.Extract? <==> passed && CallbackKey(data) in entries && Truthy(entries[CallbackKey(data)])
    ensures r.Extract? ==> r.locator == entries[CallbackKey(data)]
  {
    if !passed then GateBlocked
    else
      var key := CallbackKey(data);
      if key in entries && Truthy(entries[key]) then Extract(entries[key]) else Expired
  }

  /** The locator stored for message `id` is the one its audio button extracts. */
  lemma AudioAfterStore(entries: map<string, Value>, id: nat, locator: Value)
    requires Truthy(locator)
    ensures IsAudioCallback(AudioData(id))
    ensures AudioReplyFor(entries[CacheKey(id) := locator], true, AudioData(id)) == Extract(locator)
  {
    AudioDataRoundTrip(id);
  }

  /** Storing a locator for another message does not change what this message's audio button finds. */
  lemma AudioOtherStore(entries: map<string, Value>, id: nat, other: nat, locator: Value)
    requires id != other
    ensures IsAudioCallback(AudioData(id))
    ensures AudioReplyFor(entries[CacheKey(other) := locator], true, AudioData(id)) ==
      AudioReplyFor(entries, true, AudioData(id))
  {
    AudioDataRoundTrip(id);
    if CacheKey(other) == CacheKey(id) {
      DecimalStringInjective(other, id);
    }
  }

  /** A key never stored reads as expired. */
  lemma AudioNeverStored(entries: map<string, Value>, id: nat)
    requires CacheKey(id) !in entries
    ensures IsAudioCallback(AudioData(id))
    ensures AudioReplyFor(entries, true, AudioData(id)) == Expired
  {
    AudioDataRoundTrip(id);
  }

  /** Every key is a message id written in decimal. */
  ghost predicate DecimalKeys(entries: map<string, Value>) {
    forall k :: k in entries ==> exists id: nat :: k == CacheKey(id)
  }

  /**
   * Callback data with the trailing line break the filter lets through looks
   * up a key that ends in that line break, which no message id produces: it
   * always reads as expired.
   */
  lemma AudioTrailingNewlineExpires(entries: map<string, Value>, data: string)
    requires DecimalKeys(entries) && IsAudioCallback(data) && data[|data| - 1] == '\n'
    ensures AudioReplyFor(entries, true, data) == Expired
  {
  }

  /** The cache's invariant: every key is a message id in decimal, and every locator is truthy. */
  ghost predicate CacheInvariant(entries: map<string, Value>) {
    DecimalKeys(entries) && forall k :: k in entries ==> Truthy(entries[k])
  }

  /** Storing a truthy locator under a message id keeps the cache's invariant. */
  lemma StoreKeepsInvariant(entries: map<string, Value>, id: nat, v: Value)
    requires CacheInvariant(entries) && Truthy(v)
    ensures CacheInvariant(entries[CacheKey(id) := v])
  {
    var e := entries[CacheKey(id) := v];
    forall k | k in e ensures exists n: nat :: k == CacheKey(n) {
      if k == CacheKey(id) {
        assert k == CacheKey(id);
      }
    }
  }

  /** What the handler caches is a truthy locator. */
  lemma HandleLinkCaches(passed: bool, id: nat, text: string, a: Answers)
    ensures var d := HandleLink(passed, id, text, a);
      d.cached.Some? ==> Truthy(d.cached.value)
  {
    if passed && MatchedLink(text).Some? {
      CachedIsLocator(id, MatchedLink(text).value, a);
    }
  }

  /** `video_urls_cache`: the locators found for handled messages, under their message ids. */
  class LinkCache {
    var entries: map<string, Value>

    ghost predicate Valid()
      reads this
    {
      CacheInvariant(entries)
    }

    /** The cache starts empty when the process starts. */
    constructor ()
      ensures Valid() && entries == map[]
    {
      entries := map[];
    }

    /** `insta_link_handler` with its write to the cache. */
    method InstaLinkHandler(passed: bool, id: nat, text: string, a: Answers) returns (d: Delivery)
      requires Valid()
      modifies this
      ensures Valid()
      ensures d == HandleLink(passed, id, text, a)
      ensures entries == if d.cached.Some? then old(entries)[CacheKey(id) := d.cached.value] else old(entries)
    {
      d := HandleLink(passed, id, text, a);
      HandleLinkCaches(passed, id, text, a);
      if d.cached.Some? {
        StoreKeepsInvariant(entries, id, d.cached.value);
        entries := entries[CacheKey(id) := d.cached.value];
      }
    }
  }
}
