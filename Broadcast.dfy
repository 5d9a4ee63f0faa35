/**
 * `gcast_command` (main.py:294-352): the owner's broadcast. A module-wide
 * flag refuses a second broadcast while one runs. The targets are the
 * served chats and users without repetition; each gets one copy of the
 * replied-to message or one text message, optionally pinned. A flood-wait
 * error earns one retry after the requested pause; every other error counts
 * the target as failed. A panel message reports the two tallies at the end.
 * The platform's answers are inputs of the model.
 */
module Broadcast {
  import opened Common
  import opened ServedAudience

  // ---------------------------------------------------------------------------
  // The command

  /** What is broadcast: a copy of the replied-to message, or the command's text argument. */
  datatype Payload = CopyOf(message: int) | Text(text: string)

  function EndsWith(s: string, suffix: string): bool {
    |suffix| <= |s| && s[|s| - |suffix|..] == suffix
  }

  /** `message.command[0].endswith("pin")`. */
  predicate IsPinCommand(command: string) {
    EndsWith(command, "pin")
  }

  /** A command pins exactly when its last three characters are "pin". */
  lemma PinIffSuffix(prefix: string, last: string)
    requires |last| == 3
    ensures IsPinCommand(prefix + last) <==> last == "pin"
  {
    assert (prefix + last)[|prefix + last| - 3..] == last;
  }

  /** A name shorter than "pin" never pins. */
  lemma ShortNeverPins(command: string)
    requires |command| < 3
    ensures !IsPinCommand(command)
  {
  }

  /** Of the four command names the handler is registered for, exactly the two ending in "pin" pin. */
  lemma PinCommands()
    ensures !IsPinCommand("gcast") && !IsPinCommand("broadcast")
    ensures IsPinCommand("gcastpin") && IsPinCommand("broadcastpin")
  {
    assert "gcast"[2..] != "pin";
    assert "broadcast"[6..] != "pin";
    assert "gcastpin"[5..] == "pin";
    assert "broadcastpin"[9..] == "pin";
  }

  /** The characters `str.split()` splits at (the ASCII ones, the four separators `\x1c`-`\x1f` included). */
  predicate IsSpace(c: char) {
    c == ' ' || c == '\t' || c == '\n' || c == '\r' || c == '\U{000B}' || c == '\U{000C}'
    || c == '\U{001C}' || c == '\U{001D}' || c == '\U{001E}' || c == '\U{001F}'
  }

  /** The index of the first character at or after `i` whose being a space is not `space`, or the length. */
  function Skip(s: string, i: nat, space: bool): (j: nat)
    requires i <= |s|
    ensures i <= j <= |s| && (j == |s| || IsSpace(s[j]) != space)
    ensures forall k :: i <= k < j ==> IsSpace(s[k]) == space
    decreases |s| - i
  {
    if i == |s| || IsSpace(s[i]) != space then i else Skip(s, i + 1, space)
  }

  /**
   * `text.split(None, 1)[1]`: what follows the first word and the spaces
   * after it, trailing spaces kept. `None` is the `IndexError` of a text
   * with a single word.
   */
  function SplitRest(text: string): (r: Option<string>)
    ensures r.Some? ==> r.value != [] && !IsSpace(r.value[0]) && |r.value| < |text| && text[|text| - |r.value|..] == r.value
  {
    var i := Skip(text, 0, true);
    var j := Skip(text, i, false);
    var k := Skip(text, j, true);
    if k == |text| then None else Some(text[k..])
  }

  /** Skipping over a run of spaces, or of non-spaces, that ends where the next run begins. */
  lemma SkipRun(s: string, i: nat, n: nat, space: bool)
    requires i + n <= |s|
    requires forall k :: i <= k < i + n ==> IsSpace(s[k]) == space
    requires i + n == |s| || IsSpace(s[i + n]) != space
    ensures Skip(s, i, space) == i + n
    decreases n
  {
    if n > 0 {
      SkipRun(s, i + 1, n - 1, space);
    }
  }

  /** Skipping over `part` when it is one run, followed by `post` which does not continue it. */
  lemma SkipPart(pre: string, part: string, post: string, space: bool)
    requires forall k :: 0 <= k < |part| ==> IsSpace(part[k]) == space
    requires post == [] || IsSpace(post[0]) != space
    ensures Skip(pre + part + post, |pre|, space) == |pre| + |part|
  {
    var s := pre + part + post;
    assert forall k :: |pre| <= k < |pre| + |part| ==> s[k] == part[k - |pre|];
    if post != [] {
      assert s[|pre| + |part|] == post[0];
    }
    SkipRun(s, |pre|, |part|, space);
  }

  /** Leading spaces, a word, a run of spaces, then a rest that starts with a non-space: the rest is what the split keeps. */
  lemma SplitRestOfWords(lead: string, word: string, gap: string, rest: string)
    requires forall i :: 0 <= i < |lead| ==> IsSpace(lead[i])
    requires word != [] && forall i :: 0 <= i < |word| ==> !IsSpace(word[i])
    requires gap != [] && forall i :: 0 <= i < |gap| ==> IsSpace(gap[i])
    requires rest != [] && !IsSpace(rest[0])
    ensures SplitRest(lead + word + gap + rest) == Some(rest)
  {
    var text := lead + word + gap + rest;
    assert text == [] + lead + (word + gap + rest);
    SkipPart([], lead, word + gap + rest, true);
    var i := Skip(text, 0, true);
    assert text == lead + word + (gap + rest);
    SkipPart(lead, word, gap + rest, false);
    var j := Skip(text, i, false);
    assert text == (lead + word) + gap + rest;
    SkipPart(lead + word, gap, rest, true);
    var k := Skip(text, j, true);
    assert k == |lead + word + gap| < |text|;
    assert text[k..] == rest;
  }

  /** A text of one word, with spaces around it or not, has no second field: the split raises. */
  lemma SplitRestOneWord(lead: string, word: string, trail: string)
    requires forall i :: 0 <= i < |lead| ==> IsSpace(lead[i])
    requires word != [] && forall i :: 0 <= i < |word| ==> !IsSpace(word[i])
    requires forall i :: 0 <= i < |trail| ==> IsSpace(trail[i])
    ensures SplitRest(lead + word + trail) == None
  {
    var text := lead + word + trail;
    assert text == [] + lead + (word + trail);
    SkipPart([], lead, word + trail, true);
    assert text == lead + word + trail;
    SkipPart(lead, word, trail, false);
    assert text == (lead + word) + trail + [];
    SkipPart(lead + word, trail, [], true);
  }

  /** A text of spaces only has no second field either. */
  lemma SplitRestBlank(text: string)
    requires forall i :: 0 <= i < |text| ==> IsSpace(text[i])
    ensures SplitRest(text) == None
  {
    SkipRun(text, 0, |text|, true);
  }

  /** The payload chosen at main.py:305-313: the replied-to message first, then the text argument, else none. */
  function PayloadOf(replyTo: Option<int>, argCount: nat, text: string): (r: Option<Option<Payload>>)
    ensures (r.Some? && r.value.Some? && r.value.value.CopyOf?) <==> replyTo.Some?
    ensures replyTo.Some? ==> r.value.value.message == replyTo.value
    ensures r == Some(None) <==> replyTo.None? && argCount <= 1
    ensures r.None? <==> replyTo.None? && argCount > 1 && SplitRest(text).None?
    ensures r.Some? && r.value.Some? && r.value.value.Text? ==>
      var t := r.value.value.text;
      t != [] && !IsSpace(t[0]) && |t| < |text| && text[|text| - |t|..] == t
  {
    if replyTo.Some? then Some(Some(CopyOf(replyTo.value)))
    else if argCount > 1 then
      match SplitRest(text)
      case Some(rest) => Some(Some(Text(rest)))
      case None => None
    else Some(None)
  }

  /** Without a replied-to message, `/gcast word  rest` broadcasts the text `rest`. */
  lemma TextPayload(argCount: nat, word: string, gap: string, rest: string)
    requires argCount > 1
    requires word != [] && forall i :: 0 <= i < |word| ==> !IsSpace(word[i])
    requires gap != [] && forall i :: 0 <= i < |gap| ==> IsSpace(gap[i])
    requires rest != [] && !IsSpace(rest[0])
    ensures PayloadOf(None, argCount, word + gap + rest) == Some(Some(Text(rest)))
  {
    SplitRestOfWords([], word, gap, rest);
    assert [] + word + gap + rest == word + gap + rest;
  }

  /**
   * Without a replied-to message, arguments counted but a text of one word:
   * the split raises (main.py:310), which leaves the broadcast flag set.
   */
  lemma OneWordPayloadRaises(argCount: nat, lead: string, word: string, trail: string)
    requires argCount > 1
    requires forall i :: 0 <= i < |lead| ==> IsSpace(lead[i])
    requires word != [] && forall i :: 0 <= i < |word| ==> !IsSpace(word[i])
    requires forall i :: 0 <= i < |trail| ==> IsSpace(trail[i])
    ensures PayloadOf(None, argCount, lead + word + trail) == None
  {
    SplitRestOneWord(lead, word, trail);
  }

  // ---------------------------------------------------------------------------
  // The targets

  /** The elements of `s` without repetition, in order of first occurrence. */
  function Distinct(s: seq<int>): (r: seq<int>)
    ensures NoDup(r)
    ensures forall x :: x in r <==> x in s
  {
    if s == [] then []
    else
      var r := Distinct(s[..|s| - 1]);
      assert forall x :: x in s <==> x in s[..|s| - 1] || x == s[|s| - 1];
      Added(r, s[|s| - 1])
  }

  /**
   * `list(set(chats + users))`. Python's set fixes some order; the model
   * takes the order of first occurrence, and the tallies proved below are
   * the same for every order (`TalliesAnyOrder`).
   */
  function Targets(chats: seq<int>, users: seq<int>): (ts: seq<int>)
    ensures NoDup(ts)
    ensures forall x :: x in ts <==> x in chats || x in users
  {
    Distinct(chats + users)
  }

  // ---------------------------------------------------------------------------
  // One target

  /** How the copy or send of the payload to one target ends. */
  datatype SendOutcome =
    | Sent
    | FloodWait(seconds: nat)
    | Unreachable  // UserIsBlocked, PeerIdInvalid, MessageNotModified
    | OtherError

  /** The platform's answers for one target: the first send, its pin, the retry after a flood wait, its pin. */
  datatype TargetAnswers = TargetAnswers(first: SendOutcome, firstPin: Outcome, retry: Outcome, retryPin: Outcome)

  /** The calls the loop makes: a copy or send of the payload, a pin of the message it left, or a pause. */
  datatype Call = Post(target: int, payload: Payload, retry: bool) | PinPost(target: int, retry: bool) | Sleep(seconds: nat)

  /** Whether one target counts as a success, and the calls made for it. */
  datatype TargetRun = TargetRun(delivered: bool, calls: seq<Call>)

  /** The body of the loop for target `x` (main.py:319-347). */
  function RunTarget(x: int, m: Payload, pin: bool, a: TargetAnswers): (r: TargetRun)
    ensures r.calls != [] && r.calls[0] == Post(x, m, false)
  {
    match a.first
    case Sent => TargetRun(true, [Post(x, m, false)] + (if pin then [PinPost(x, false)] else []))
    case FloodWait(s) =>
      var c := [Post(x, m, false), Sleep(s), Post(x, m, true)];
      if a.retry.Raised? then TargetRun(false, c)
      else if pin then TargetRun(a.retryPin.Ok?, c + [PinPost(x, true)])
      else TargetRun(true, c)
    case _ => TargetRun(false, [Post(x, m, false)])
  }

  /** The calls for a target all go to it, every post carries the payload, and only the first is a first attempt. */
  lemma RunTargetShape(x: int, m: Payload, pin: bool, a: TargetAnswers)
    ensures var c := RunTarget(x, m, pin, a).calls;
      && (forall i :: 0 <= i < |c| ==> c[i].Sleep? || c[i].target == x)
      && (forall i :: 0 <= i < |c| && c[i].Post? ==> c[i].payload == m)
      && (forall i :: 1 <= i < |c| ==> !(c[i].Post? && !c[i].retry))
  {
  }

  /**
   * A target counts as a success exactly when the first send went through
   * (a failing pin is swallowed there) or it hit a flood wait and the retry,
   * pin included, went through.
   */
  lemma DeliveredIff(x: int, m: Payload, pin: bool, a: TargetAnswers)
    ensures RunTarget(x, m, pin, a).delivered <==>
      a.first == Sent || (a.first.FloodWait? && a.retry.Ok? && (!pin || a.retryPin.Ok?))
  {
  }

  /** A flood wait pauses for the requested time before the one retry; only the retry's pin can follow. */
  lemma FloodWaitRetriesOnce(x: int, m: Payload, pin: bool, a: TargetAnswers)
    requires a.first.FloodWait?
    ensures var c := RunTarget(x, m, pin, a).calls;
      && 3 <= |c| <= 4 && c[..3] == [Post(x, m, false), Sleep(a.first.seconds), Post(x, m, true)]
      && (|c| == 4 <==> pin && a.retry.Ok?)
      && (|c| == 4 ==> c[3] == PinPost(x, true))
  {
  }

  /**
   * Without a flood wait there is no retry: the first post is followed only by
   * the pin of a delivered post, and only for a pinning command.
   */
  lemma NoFloodWaitNoRetry(x: int, m: Payload, pin: bool, a: TargetAnswers)
    requires !a.first.FloodWait?
    ensures RunTarget(x, m, pin, a).calls == [Post(x, m, false)] + (if a.first.Sent? && pin then [PinPost(x, false)] else [])
  {
  }

  /** A failing pin is swallowed on the first attempt but fails the target on the retry. */
  lemma PinFailureOnRetryOnly(x: int, m: Payload, a: TargetAnswers, b: TargetAnswers)
    requires a.first == Sent && a.firstPin.Raised?
    requires b.first.FloodWait? && b.retry.Ok? && b.retryPin.Raised?
    ensures RunTarget(x, m, true, a).delivered && !RunTarget(x, m, true, b).delivered
  {
  }

  // ---------------------------------------------------------------------------
  // The loop

  /** The number of targets that count as a success. */
  function Successes(ts: seq<int>, m: Payload, pin: bool, answers: int -> TargetAnswers): (n: nat)
    ensures n <= |ts|
  {
    if ts == [] then 0
    else
      var x := ts[|ts| - 1];
      Successes(ts[..|ts| - 1], m, pin, answers) + (if RunTarget(x, m, pin, answers(x)).delivered then 1 else 0)
  }

  /** The calls the loop makes for `ts`, target after target. */
  function CallsFor(ts: seq<int>, m: Payload, pin: bool, answers: int -> TargetAnswers): seq<Call> {
    if ts == [] then []
    else
      var x := ts[|ts| - 1];
      CallsFor(ts[..|ts| - 1], m, pin, answers) + RunTarget(x, m, pin, answers(x)).calls
  }

  /** Every call of the loop goes to one of the targets, and every post carries the payload. */
  lemma {:induction false} CallsForTargets(ts: seq<int>, m: Payload, pin: bool, answers: int -> TargetAnswers, i: nat)
    requires i < |CallsFor(ts, m, pin, answers)|
    ensures CallsFor(ts, m, pin, answers)[i].Sleep? || CallsFor(ts, m, pin, answers)[i].target in ts
    ensures CallsFor(ts, m, pin, answers)[i].Post? ==> CallsFor(ts, m, pin, answers)[i].payload == m
  {
    var init, x := ts[..|ts| - 1], ts[|ts| - 1];
    var p, q := CallsFor(init, m, pin, answers), RunTarget(x, m, pin, answers(x)).calls;
    assert CallsFor(ts, m, pin, answers) == p + q;
    if i < |p| {
      CallsForTargets(init, m, pin, answers, i);
      assert (p + q)[i] == p[i];
    } else {
      RunTargetShape(x, m, pin, answers(x));
      assert (p + q)[i] == q[i - |p|];
    }
  }

  /** One more target: its calls follow the earlier ones, and it adds one to the tally when it is delivered. */
  lemma LoopStep(targets: seq<int>, i: nat, m: Payload, pin: bool, answers: int -> TargetAnswers)
    requires i < |targets|
    ensures var r := RunTarget(targets[i], m, pin, answers(targets[i]));
      && CallsFor(targets[..i + 1], m, pin, answers) == CallsFor(targets[..i], m, pin, answers) + r.calls
      && Successes(targets[..i + 1], m, pin, answers) == Successes(targets[..i], m, pin, answers) + (if r.delivered then 1 else 0)
  {
    assert targets[..i + 1][..i] == targets[..i];
  }

  /** The body of the loop for one target: whether it counts as a success, and the calls made for it. */
  method DispatchOne(x: int, m: Payload, pin: bool, a: TargetAnswers) returns (delivered: bool, step: seq<Call>)
    ensures delivered == RunTarget(x, m, pin, a).delivered
    ensures step == RunTarget(x, m, pin, a).calls
  {
    step := [Post(x, m, false)];
    match a.first {
      case Sent =>
        if pin {
          step := step + [PinPost(x, false)];
        }
        delivered := true;
      case FloodWait(s) =>
        step := step + [Sleep(s), Post(x, m, true)];
        if a.retry.Raised? {
          delivered := false;
        } else {
          if pin {
            step := step + [PinPost(x, true)];
          }
          delivered := !(pin && a.retryPin.Raised?);
        }
      case Unreachable =>
        delivered := false;
      case OtherError =>
        delivered := false;
    }
  }

  /** The `for chat_id in targets` loop: the two tallies and the calls made. */
  method DispatchAll(targets: seq<int>, m: Payload, pin: bool, answers: int -> TargetAnswers)
    returns (success: nat, failed: nat, calls: seq<Call>)
    ensures success == Successes(targets, m, pin, answers)
    ensures success + failed == |targets|
    ensures calls == CallsFor(targets, m, pin, answers)
  {
    success, failed, calls := 0, 0, [];
    for i := 0 to |targets|
      invariant success == Successes(targets[..i], m, pin, answers)
      invariant success + failed == i
      invariant calls == CallsFor(targets[..i], m, pin, answers)
    {
      LoopStep(targets, i, m, pin, answers);
      var delivered, step := DispatchOne(targets[i], m, pin, answers(targets[i]));
      if delivered {
        success := success + 1;
      } else {
        failed := failed + 1;
      }
      calls := calls + step;
    }
    assert targets[..|targets|] == targets;
  }

  lemma {:induction false} SuccessesAppend(s: seq<int>, t: seq<int>, m: Payload, pin: bool, answers: int -> TargetAnswers)
    ensures Successes(s + t, m, pin, answers) == Successes(s, m, pin, answers) + Successes(t, m, pin, answers)
    decreases |t|
  {
    if t == [] {
      assert s + t == s;
    } else {
      assert (s + t)[..|s + t| - 1] == s + t[..|t| - 1];
      SuccessesAppend(s, t[..|t| - 1], m, pin, answers);
    }
  }

  /** Taking the element at `k` out of `t`, for both the multiset and the tally. */
  lemma SplitAt(t: seq<int>, k: nat, m: Payload, pin: bool, answers: int -> TargetAnswers)
    requires k < |t|
    ensures multiset(t) == multiset(t[..k] + t[k + 1..]) + multiset{t[k]}
    ensures Successes(t, m, pin, answers) == Successes(t[..k] + t[k + 1..], m, pin, answers) + Successes([t[k]], m, pin, answers)
  {
    assert t == t[..k] + ([t[k]] + t[k + 1..]);
    SuccessesAppend(t[..k], [t[k]] + t[k + 1..], m, pin, answers);
    SuccessesAppend([t[k]], t[k + 1..], m, pin, answers);
    SuccessesAppend(t[..k], t[k + 1..], m, pin, answers);
  }

  lemma MultisetCancel(p: multiset<int>, q: multiset<int>, x: int)
    requires p + multiset{x} == q + multiset{x}
    ensures p == q
  {
    assert forall y :: p[y] == (p + multiset{x})[y] - (if y == x then 1 else 0);
    assert forall y :: q[y] == (q + multiset{x})[y] - (if y == x then 1 else 0);
  }

  /** The success tally depends only on which targets there are, not on their order. */
  lemma {:induction false} SuccessesPermutation(s: seq<int>, t: seq<int>, m: Payload, pin: bool, answers: int -> TargetAnswers)
    requires multiset(s) == multiset(t)
    ensures Successes(s, m, pin, answers) == Successes(t, m, pin, answers)
    decreases |s|
  {
    if s != [] {
      var x := s[|s| - 1];
      var init := s[..|s| - 1];
      assert s == init + [x];
      assert x in multiset(t);
      var k :| 0 <= k < |t| && t[k] == x;
      var rest := t[..k] + t[k + 1..];
      SplitAt(t, k, m, pin, answers);
      MultisetCancel(multiset(init), multiset(rest), x);
      SuccessesPermutation(init, rest, m, pin, answers);
      SuccessesAppend(init, [x], m, pin, answers);
    }
  }

  /** In a duplicate-free sequence, each element occurs once. */
  lemma {:induction false} NoDupMultiplicity(s: seq<int>, x: int)
    requires NoDup(s)
    ensures multiset(s)[x] == if x in s then 1 else 0
  {
    if s != [] {
      var init := s[..|s| - 1];
      assert s == init + [s[|s| - 1]];
      assert NoDup(init);
      assert s[|s| - 1] !in init;
      NoDupMultiplicity(init, x);
    }
  }

  /** Two duplicate-free arrangements of the same targets give the same tallies: the order of the set does not matter. */
  lemma TalliesAnyOrder(s: seq<int>, t: seq<int>, m: Payload, pin: bool, answers: int -> TargetAnswers)
    requires NoDup(s) && NoDup(t) && forall x :: x in s <==> x in t
    ensures |s| == |t|
    ensures Successes(s, m, pin, answers) == Successes(t, m, pin, answers)
  {
    forall x ensures multiset(s)[x] == multiset(t)[x] {
      NoDupMultiplicity(s, x);
      NoDupMultiplicity(t, x);
    }
    assert multiset(s) == multiset(t);
    assert |multiset(s)| == |s| && |multiset(t)| == |t|;
    SuccessesPermutation(s, t, m, pin, answers);
  }

  /** The calls for one target hold one first attempt, to that target. */
  lemma FirstAttemptOf(y: int, m: Payload, pin: bool, a: TargetAnswers, x: int)
    ensures Count(RunTarget(y, m, pin, a).calls, Post(x, m, false)) == if x == y then 1 else 0
  {
    var c := RunTarget(y, m, pin, a).calls;
    RunTargetShape(y, m, pin, a);
    assert Post(x, m, false) !in c[1..] by {
      forall i | 0 <= i < |c[1..]| ensures c[1..][i] != Post(x, m, false) {
        assert c[1..][i] == c[i + 1];
      }
    }
  }

  /** For duplicate-free targets, each target gets exactly one first attempt, and nothing else gets one. */
  lemma {:induction false} AttemptedOnce(ts: seq<int>, m: Payload, pin: bool, answers: int -> TargetAnswers, x: int)
    requires NoDup(ts)
    ensures Count(CallsFor(ts, m, pin, answers), Post(x, m, false)) == if x in ts then 1 else 0
  {
    if ts != [] {
      var y := ts[|ts| - 1];
      var init := ts[..|ts| - 1];
      NoDupInit(ts);
      assert x in ts <==> x in init || x == y;
      AttemptedOnce(init, m, pin, answers, x);
      CountAppend(CallsFor(init, m, pin, answers), RunTarget(y, m, pin, answers(y)).calls, Post(x, m, false));
      FirstAttemptOf(y, m, pin, answers(y), x);
    }
  }

  /** A served id that is both a chat and a user is one target. */
  lemma SharedIdIsOneTarget(chats: seq<int>, users: seq<int>, x: int)
    requires x in chats && x in users
    ensures Count(Targets(chats, users), x) == 1
  {
    NoDupCountOne(Targets(chats, users), x);
  }

  /** The answers of the example below: user 2 has blocked the bot, everyone else receives. */
  function ExampleAnswers(x: int): TargetAnswers {
    TargetAnswers(if x == 2 then Unreachable else Sent, Ok, Ok, Ok)
  }

  lemma ExampleTally(m: Payload)
    ensures Successes([-100, 1, 2], m, false, ExampleAnswers) == 2
  {
    var ts := [-100, 1, 2];
    assert ts[..2] == [-100, 1] && ts[..2][..1] == [-100] && ts[..2][..1][..0] == [];
    assert Successes([-100], m, false, ExampleAnswers) == 1;
    assert Successes([-100, 1], m, false, ExampleAnswers) == 2;
  }

  /** Two users and one group, the second user unreachable: two successes and one failure, in any order. */
  lemma UnreachableUserExample(order: seq<int>, m: Payload)
    requires NoDup(order) && forall x :: x in order <==> x == 1 || x == 2 || x == -100
    ensures Successes(order, m, false, ExampleAnswers) == 2 && |order| - Successes(order, m, false, ExampleAnswers) == 1
  {
    ExampleTally(m);
    TalliesAnyOrder([-100, 1, 2], order, m, false, ExampleAnswers);
  }

  // ---------------------------------------------------------------------------
  // The handler

  /** How one invocation of the handler ends. */
  datatype GcastResult =
    | AlreadyRunning                        // refused: the flag was set
    | MissingPayload                        // neither a reply nor a text argument
    | PayloadRaised                         // the text argument could not be split off
    | PanelFailed                           // the panel message could not be sent
    | Completed(success: nat, failed: nat)  // the panel shows the tallies
    | ReportFailed(success: nat, failed: nat)  // the final panel edit raised

  datatype GcastRun = GcastRun(result: GcastResult, calls: seq<Call>)

  /** The run after the flag check, for these targets (main.py:299-352). */
  function Broadcasting(targets: seq<int>, pin: bool, payload: Option<Option<Payload>>,
                        answers: int -> TargetAnswers, panelReply: Outcome, panelEdit: Outcome): (r: GcastRun)
    ensures forall i :: 0 <= i < |r.calls| ==> r.calls[i].Sleep? || r.calls[i].target in targets
    ensures forall i :: 0 <= i < |r.calls| && r.calls[i].Post? ==> payload == Some(Some(r.calls[i].payload))
  {
    match payload
    case None => GcastRun(PayloadRaised, [])
    case Some(None) => GcastRun(MissingPayload, [])
    case Some(Some(m)) =>
      if panelReply.Raised? then GcastRun(PanelFailed, [])
      else
        var success := Successes(targets, m, pin, answers);
        var calls := CallsFor(targets, m, pin, answers);
        assert forall i :: 0 <= i < |calls| ==> calls[i].Sleep? || calls[i].target in targets by {
          forall i | 0 <= i < |calls| ensures calls[i].Sleep? || calls[i].target in targets {
            CallsForTargets(targets, m, pin, answers, i);
          }
        }
        assert forall i :: 0 <= i < |calls| && calls[i].Post? ==> calls[i].payload == m by {
          forall i | 0 <= i < |calls| ensures calls[i].Post? ==> calls[i].payload == m {
            CallsForTargets(targets, m, pin, answers, i);
          }
        }
        if panelEdit.Ok? then GcastRun(Completed(success, |targets| - success), calls)
        else GcastRun(ReportFailed(success, |targets| - success), calls)
  }

  /** Whether a run leaves the flag set: the exceptions that leave the handler skip the reset. */
  predicate LeavesFlagSet(r: GcastResult) {
    r.PayloadRaised? || r.PanelFailed? || r.ReportFailed?
  }

  /** A reported run accounts for every target once: the tallies add up to the number of targets. */
  lemma TalliesAddUp(targets: seq<int>, pin: bool, payload: Option<Option<Payload>>,
                     answers: int -> TargetAnswers, panelReply: Outcome, panelEdit: Outcome)
    ensures var r := Broadcasting(targets, pin, payload, answers, panelReply, panelEdit).result;
      (r.Completed? || r.ReportFailed?) ==>
        r.success + r.failed == |targets| && r.success == Successes(targets, payload.value.value, pin, answers)
    ensures var r := Broadcasting(targets, pin, payload, answers, panelReply, panelEdit).result;
      (r.Completed? || r.ReportFailed?) <==> payload.Some? && payload.value.Some? && panelReply.Ok?
  {
  }

  /**
   * The flag is cleared when the run reports or finds no payload, and stays
   * set when the split, the panel reply or the panel edit raises, which
   * refuses every later broadcast.
   */
  lemma FlagAfterRun(targets: seq<int>, pin: bool, payload: Option<Option<Payload>>,
                     answers: int -> TargetAnswers, panelReply: Outcome, panelEdit: Outcome)
    ensures var r := Broadcasting(targets, pin, payload, answers, panelReply, panelEdit).result;
      LeavesFlagSet(r) <==> payload.None? || (payload.value.Some? && (panelReply.Raised? || panelEdit.Raised?))
  {
  }

  /** Nothing is sent without a payload, and a failed panel stops the run before any target. */
  lemma NoPayloadNoCalls(targets: seq<int>, pin: bool, payload: Option<Option<Payload>>,
                         answers: int -> TargetAnswers, panelReply: Outcome, panelEdit: Outcome)
    requires payload != Some(None) ==> payload.None? || panelReply.Raised?
    ensures Broadcasting(targets, pin, payload, answers, panelReply, panelEdit).calls == []
  {
  }

  /** The module-wide `is_broadcasting` flag and the handler that guards with it. */
  class Broadcaster {
    var isBroadcasting: bool

    /** The flag starts cleared when the process starts. */
    constructor ()
      ensures !isBroadcasting
    {
      isBroadcasting := false;
    }

    /**
     * `gcast_command`: refuse while the flag is set; otherwise set it, load
     * both caches, choose the payload, and run the broadcast.
     */
    method Gcast(db: Database, command: string, replyTo: Option<int>, argCount: nat, text: string,
                 answers: int -> TargetAnswers, panelReply: Outcome, panelEdit: Outcome)
      returns (run: GcastRun)
      requires db.Valid()
      modifies this, db
      ensures db.Valid()
      ensures old(isBroadcasting) ==>
        run == GcastRun(AlreadyRunning, []) && isBroadcasting &&
        db.users == old(db.users) && db.chats == old(db.chats)
      ensures !old(isBroadcasting) ==>
        var chats := Loaded(old(db.chats), old(db.storedChats), IsChatId);
        var users := Loaded(old(db.users), old(db.storedUsers), IsUserId);
        && db.chats == chats && db.users == users
        && run == Broadcasting(Targets(chats, users), IsPinCommand(command), PayloadOf(replyTo, argCount, text),
                               answers, panelReply, panelEdit)
        && isBroadcasting == LeavesFlagSet(run.result)
      ensures db.storedUsers == old(db.storedUsers) && db.storedChats == old(db.storedChats)
    {
      if isBroadcasting {
        return GcastRun(AlreadyRunning, []);
      }
      isBroadcasting := true;
      var chats := db.GetServedChats();
      var users := db.GetServedUsers();
      run := RunWithFlagSet(Targets(chats, users), IsPinCommand(command), PayloadOf(replyTo, argCount, text),
                            answers, panelReply, panelEdit);
    }

    /** The handler after the flag was set and the targets were loaded (main.py:303-352). */
    method RunWithFlagSet(targets: seq<int>, pin: bool, payload: Option<Option<Payload>>,
                          answers: int -> TargetAnswers, panelReply: Outcome, panelEdit: Outcome)
      returns (run: GcastRun)
      requires isBroadcasting
      modifies this
      ensures run == Broadcasting(targets, pin, payload, answers, panelReply, panelEdit)
      ensures isBroadcasting == LeavesFlagSet(run.result)
    {
      if payload.None? {
        return GcastRun(PayloadRaised, []);
      }
      if payload.value.None? {
        isBroadcasting := false;
        return GcastRun(MissingPayload, []);
      }
      if panelReply.Raised? {
        return GcastRun(PanelFailed, []);
      }
      var success, failed, calls := DispatchAll(targets, payload.value.value, pin, answers);
      if panelEdit.Raised? {
        return GcastRun(ReportFailed(success, failed), calls);
      }
      run := GcastRun(Completed(success, failed), calls);
      isBroadcasting := false;
    }
  }
}
