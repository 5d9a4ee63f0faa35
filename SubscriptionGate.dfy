/**
 * `check_fsub` (main.py:132-175): in a private chat, every configured
 * "must join" chat is looked up; a requirement is unmet when the member's
 * status is not Member, Administrator or Owner, or when the lookup raises.
 * Any unmet requirement blocks the request, and the reply offers one link
 * per unmet requirement whose chat could be looked up, then one "verify"
 * button. The platform's answers are inputs of the model.
 */
module SubscriptionGate {
  import opened Common

  /** Pyrogram's `ChatType`. */
  datatype ChatType = Private | Bot | Group | Supergroup | Channel

  /** Pyrogram's `ChatMemberStatus`. */
  datatype MemberStatus = Owner | Administrator | Member | Restricted | Left | Banned

  /** The outcome of `get_chat_member(chat_id, user_id)`. */
  datatype MemberLookup = MemberRaised | Status(status: MemberStatus)

  /** The outcome of `get_chat(chat_id)`: it raised, or the chat's invite link and username. */
  datatype ChatLookup = ChatRaised | ChatInfo(inviteLink: Option<string>, username: Option<string>)

  /** Which of the two configured chats a requirement stands for ("Join Channel" or "Request to Join"). */
  datatype Purpose = JoinChannel | RequestToJoin

  /** What the platform answers about one configured chat for the requesting user. */
  datatype Answers = Answers(member: MemberLookup, chat: ChatLookup)

  /**
   * One requirement: which of the two it is, the configured chat id (the
   * empty string when the environment variable is unset), and the answers.
   */
  datatype Requirement = Requirement(purpose: Purpose, chatId: string, member: MemberLookup, chat: ChatLookup)

  /** `DIRECT_FSUB_ID` with its answers. */
  function Direct(id: string, a: Answers): Requirement {
    Requirement(JoinChannel, id, a.member, a.chat)
  }

  /** `REQUEST_FSUB_ID` with its answers. */
  function Request(id: string, a: Answers): Requirement {
    Requirement(RequestToJoin, id, a.member, a.chat)
  }

  /** A link button with its URL, or the verify button (callback data `check_sub`, main.py:168). */
  datatype Button = LinkButton(purpose: Purpose, url: string) | VerifyButton

  datatype Gate = Allowed | Blocked(missing: seq<Requirement>, buttons: seq<Button>)

  predicate Configured(r: Requirement) {
    r.chatId != ""
  }

  /** `m.status.name not in ["MEMBER", "ADMINISTRATOR", "OWNER"]`, or the lookup raised. */
  predicate Unmet(r: Requirement)
    ensures Unmet(r) <==> r.member == MemberRaised || r.member.status in {Restricted, Left, Banned}
  {
    match r.member
    case MemberRaised => true
    case Status(s) => !(s == Member || s == Administrator || s == Owner)
  }

  /** `chat.invite_link or f"https://t.me/{chat.username}"`; a missing username prints as "None". */
  function InviteUrl(c: ChatLookup): (url: string)
    requires c.ChatInfo?
    ensures url != []
    ensures c.inviteLink.Some? && c.inviteLink.value != "" ==> url == c.inviteLink.value
    ensures !(c.inviteLink.Some? && c.inviteLink.value != "") ==> |url| >= 13 && url[..13] == "https://t.me/"
    ensures !(c.inviteLink.Some? && c.inviteLink.value != "") ==>
      url[13..] == (if c.username.Some? then c.username.value else "None")
  {
    if c.inviteLink.Some? && c.inviteLink.value != "" then c.inviteLink.value
    else "https://t.me/" + (if c.username.Some? then c.username.value else "None")
  }

  /** The configured, unmet requirements, the direct one before the request one. */
  function Missing(direct: Requirement, request: Requirement): (m: seq<Requirement>)
    ensures forall r :: r in m <==> (r == direct || r == request) && Configured(r) && Unmet(r)
    ensures |m| <= 2
    ensures |m| == 2 ==> m == [direct, request]
  {
    (if Configured(direct) && Unmet(direct) then [direct] else []) +
    (if Configured(request) && Unmet(request) then [request] else [])
  }

  /** The link button a missing requirement gets, or none when its chat lookup raised. */
  function ButtonFor(r: Requirement): seq<Button> {
    if r.chat.ChatInfo? then [LinkButton(r.purpose, InviteUrl(r.chat))] else []
  }

  /** The link buttons for `missing`, in order (the loop of main.py:159-166). */
  function LinkButtons(missing: seq<Requirement>): (bs: seq<Button>)
    ensures |bs| <= |missing|
    ensures |bs| == |missing| <==> forall i :: 0 <= i < |missing| ==> missing[i].chat.ChatInfo?
    ensures forall b :: b in bs <==>
      exists i :: 0 <= i < |missing| && missing[i].chat.ChatInfo? &&
        b == LinkButton(missing[i].purpose, InviteUrl(missing[i].chat))
  {
    if missing == [] then []
    else
      var init := missing[..|missing| - 1];
      var bs := LinkButtons(init) + ButtonFor(missing[|missing| - 1]);
      assert forall i :: 0 <= i < |init| ==> init[i] == missing[i];
      bs
  }

  /** The buttons of two lists of requirements, one after the other, are the buttons of the concatenation. */
  lemma {:induction false} LinkButtonsAppend(m: seq<Requirement>, n: seq<Requirement>)
    ensures LinkButtons(m + n) == LinkButtons(m) + LinkButtons(n)
    decreases |n|
  {
    if n == [] {
      assert m + n == m;
    } else {
      var init := n[..|n| - 1];
      var last := n[|n| - 1];
      assert (m + n)[..|m + n| - 1] == m + init;
      assert (m + n)[|m + n| - 1] == last;
      assert LinkButtons(m + n) == LinkButtons(m + init) + ButtonFor(last);
      assert LinkButtons(n) == LinkButtons(init) + ButtonFor(last);
      LinkButtonsAppend(m, init);
    }
  }

  /** Both requirements missing, both chats found: the "Join Channel" button comes first, then "Request to Join". */
  lemma TwoButtonsInOrder(direct: Requirement, request: Requirement)
    requires direct.chat.ChatInfo? && request.chat.ChatInfo?
    ensures LinkButtons([direct, request]) ==
      [LinkButton(direct.purpose, InviteUrl(direct.chat)), LinkButton(request.purpose, InviteUrl(request.chat))]
  {
    LinkButtonsAppend([direct], [request]);
    assert LinkButtons([direct]) == LinkButtons([]) + ButtonFor(direct) by {
      assert [direct][..0] == [];
    }
    assert LinkButtons([request]) == LinkButtons([]) + ButtonFor(request) by {
      assert [request][..0] == [];
    }
  }

  /**
   * `check_fsub`: `Allowed` is its `True`; `Blocked` is its `False` together
   * with the requirements reported missing and the buttons of the reply.
   */
  method CheckFsub(chat: ChatType, directId: string, requestId: string, directAnswers: Answers, requestAnswers: Answers)
    returns (g: Gate)
    ensures var m := Missing(Direct(directId, directAnswers), Request(requestId, requestAnswers));
      && (g.Allowed? <==> chat != Private || m == [])
      && (g.Blocked? ==> g.missing == m && g.buttons == LinkButtons(m) + [VerifyButton])
  {
    var direct := Direct(directId, directAnswers);
    var request := Request(requestId, requestAnswers);
    if chat != Private {
      return Allowed;
    }
    if !Configured(direct) && !Configured(request) {
      NothingConfiguredAllows(direct, request);
      return Allowed;
    }
    var missing: seq<Requirement> := [];
    if Configured(direct) {
      if Unmet(direct) {
        missing := missing + [direct];
      }
    }
    if Configured(request) {
      if Unmet(request) {
        missing := missing + [request];
      }
    }
    assert missing == Missing(direct, request);
    if missing == [] {
      return Allowed;
    }
    var buttons: seq<Button> := [];
    for i := 0 to |missing|
      invariant buttons == LinkButtons(missing[..i])
    {
      ButtonsStep(missing, i);
      buttons := buttons + ButtonFor(missing[i]);
    }
    assert missing[..|missing|] == missing;
    buttons := buttons + [VerifyButton];
    g := Blocked(missing, buttons);
  }

  /** One more requirement of the loop adds its button, if any, at the end. */
  lemma ButtonsStep(missing: seq<Requirement>, i: nat)
    requires i < |missing|
    ensures LinkButtons(missing[..i + 1]) == LinkButtons(missing[..i]) + ButtonFor(missing[i])
  {
    assert missing[..i + 1][..i] == missing[..i];
  }

  /** The reply of a blocked request ends in exactly one verify button, and it is the last. */
  lemma {:induction false} OneVerifyButton(missing: seq<Requirement>)
    ensures var bs := LinkButtons(missing) + [VerifyButton];
      Count(bs, VerifyButton) == 1 && bs[|bs| - 1] == VerifyButton
  {
    var bs := LinkButtons(missing);
    assert VerifyButton !in bs;
    CountAppend(bs, [VerifyButton], VerifyButton);
    assert [VerifyButton][1..] == [];
  }

  /** With no "must join" chat configured every request passes, private or not. */
  lemma NothingConfiguredAllows(direct: Requirement, request: Requirement)
    requires !Configured(direct) && !Configured(request)
    ensures Missing(direct, request) == []
  {
  }

  /** A lookup that raises blocks the request (fail-closed), and so does a restricted member. */
  lemma FailClosed(direct: Requirement, request: Requirement)
    requires Configured(direct)
    requires direct.member == MemberRaised || direct.member == Status(Restricted)
    ensures direct in Missing(direct, request)
  {
  }
}
