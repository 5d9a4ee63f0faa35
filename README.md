# Instagram reel downloader bot: a verified model of its decision logic

The bot (`main.py`) watches Telegram chats for Instagram links. When it
sees one:

- it checks that the requester has joined the configured "must join" chats;
- it asks two download services in turn for a direct video locator;
- it caches the locator under the message id;
- it sends the video: first as a remote reference, and only if that raises,
  as a downloaded scratch file.

An "audio" button later looks the locator up again. The bot also keeps the
ids of the users and groups it serves. The owner can broadcast a message to
all of them, with one retry on a flood-wait error, and a single flag
refuses overlapping broadcasts.

This project models that logic in Dafny and proves what it promises. Every
call into Telegram, the download services, MongoDB or the file system
becomes an input: an `Outcome` (it returns, or raises with a message) or a
datatype of the replies that matter. The model then computes the calls the
code makes, in order, together with its tallies, caches and flags.

| file | models |
|---|---|
| `Common.dfy` | Python truthiness of decoded JSON values; `Option`; call outcomes; counting and duplicate-freedom on sequences |
| `InstaLink.dfy` | `INSTA_REGEX` as a left-to-right recogniser; proved equal to a declarative statement of the pattern's language; `match.group(0)` |
| `ProviderChain.dfy` | `fetch_reel_url`: each service's acceptance rule, the failover order, and the swallowed exceptions |
| `SubscriptionGate.dfy` | `check_fsub`: an imperative method that builds the missing list and the button list |
| `ServedAudience.dfy` | `Database`: a class whose cached id lists and collections are fields; the lazy load, `add_served_user`, `add_served_chat` |
| `Delivery.dfy` | `insta_link_handler` from the matched link on: the status message, the cache write, the remote send, the local fallback, the final edit or delete; the cache lookup of `audio_callback_handler`; `video_urls_cache` as a class |
| `Broadcast.dfy` | `gcast_command`: the `is_broadcasting` flag as a class field, payload choice, deduplicated targets, and the counting loop as an imperative method |

Three behaviours of the code that a reader might not expect, each with the
lemma that states it:

- **Scratch file.** The scratch file is removed only after a successful
  local send. A write or a local send that raises leaves it behind
  (`ScratchCleanup`).
- **Broadcast flag.** The flag stays set when splitting the text argument
  raises, or when the panel reply or the final panel edit raises. Every
  later broadcast is then refused (`FlagAfterRun`).
- **Status message.** The status message stays on "Processing" when the
  "Sending video" edit raises and the final failure edit also raises.
  `NeverLeftInProgress` therefore requires that the failure edit succeeds.
  The reply at main.py:195, the not-found edit (main.py:201) and the
  final error edit (main.py:240) lie outside the `try` block, so an
  exception from one of them leaves the handler: `Delivery.escaped`
  records it (`Delivery.Deliver`). The "Sending video" and "Uploading
  video" edits (main.py:205, 220) lie inside it, and their exceptions
  end in the error edit.

## Model

| member | source | states |
|---|---|---|
| InstaLink.RecogniseIffPattern | main.py:86 | a text is recognised iff it starts with an optional `http://`/`https://`, an optional `www.`, `instagram.com/` or `instagr.am/`, `p/`, `reel/` or `tv/`, then one character that is not `/?#&`; anything may follow |
| InstaLink.Recognise | main.py:86 | a recognised text is at least as long as the shortest link, `instagr.am/p/` plus one shortcode character |
| InstaLink.RecogniseExtends | main.py:86 | appending text to a recognised text keeps it recognised (the trailing `.*`) |
| InstaLink.AnchoredAtStart | main.py:86 | the pattern is anchored: a text not starting with `h`, `w` or `i` is refused, whatever link it holds later |
| InstaLink.EmptyCodeRefused | main.py:86 | a link prefix followed by nothing or by a delimiter has no shortcode and is refused |
| InstaLink.MatchedLink | main.py:190-194 | a match exists iff the text is recognised; it is a recognised prefix of the text; the shortcode runs to the first delimiter and `.*` to the first line break after it |
| ProviderChain.DurgeshDecision | main.py:89-96 | the first service accepts iff the reply is an object with `status == "success"` and a truthy `video`, and then yields that video |
| ProviderChain.HazexDecision | main.py:98-105 | the second service accepts iff the reply is an object, `error` is falsy, and `result` is an object holding `url`; an accepted url is returned even when falsy |
| ProviderChain.RunChain | main.py:88-107 | a generic ordered chain yields the first accepting service's locator, or `None` when all decline |
| ProviderChain.FetchReelUrl | main.py:88-107 | the first service is always asked first; the second is asked iff the first declines; the URLs asked are the service prefix plus the link |
| ProviderChain.FetchIsChain | main.py:88-107 | `fetch_reel_url` is the chain runner over the two services in this order |
| ProviderChain.LocatorIsValidated | main.py:88-107 | a non-null locator always comes with the accepting service's validated success indicator |
| ProviderChain.FirstAcceptWins | main.py:91-94 | when the first service accepts, its video is returned and the second is not asked |
| ProviderChain.FailoverToSecond | main.py:95-103 | a first service that raises is swallowed, and the second service's url is returned |
| ProviderChain.BothDecline | main.py:104-107 | when both decline, the result is `None` and no exception escapes |
| ProviderChain.MalformedThenSuccess | main.py:98-103 | a malformed first reply followed by `{"result": {"url": "X"}}` yields "X" |
| SubscriptionGate.Unmet | main.py:140-154 | a requirement is unmet iff the membership lookup raised or the status is restricted, left or banned, i.e. not member, administrator or owner |
| SubscriptionGate.InviteUrl | main.py:163 | a non-empty invite link is the URL; otherwise the URL is exactly `https://t.me/` followed by the username, or by `None` when there is none |
| SubscriptionGate.LinkButtonsAppend | main.py:159-166 | the buttons of two requirement lists in sequence are the buttons of the first followed by those of the second, so button order follows the missing list |
| SubscriptionGate.TwoButtonsInOrder | main.py:159-166 | with both requirements missing and both chats found, the "Join Channel" button comes before the "Request to Join" button, each with its chat's URL |
| SubscriptionGate.Missing | main.py:138-154 | the missing list holds exactly the configured, unmet requirements, each once and at most two, the direct one before the request one |
| SubscriptionGate.LinkButtons | main.py:159-166 | one link button per missing requirement whose chat lookup succeeded, in order, with its invite link or `t.me` URL |
| SubscriptionGate.CheckFsub | main.py:132-175 | allowed iff the chat is not private or nothing is missing; when blocked, it reports the missing list and the link buttons followed by the verify button |
| SubscriptionGate.OneVerifyButton | main.py:168 | a blocked reply holds exactly one verify button, and it is last |
| SubscriptionGate.NothingConfiguredAllows | main.py:135-136 | with no "must join" chat configured, nothing is missing |
| SubscriptionGate.FailClosed | main.py:140-146 | a membership lookup that raises, or a restricted member, makes the requirement missing |
| ServedAudience.Added | main.py:66-68 | adding keeps the old ids in order as a prefix, the result holds exactly the old ids and the new one, and a duplicate-free list stays duplicate-free |
| ServedAudience.Loaded | main.py:58-62 | an empty cache loads exactly the stored ids the query filter keeps; a filled cache is returned unchanged |
| ServedAudience.AddedOnce | main.py:64-68 | after adding, the id occurs exactly once |
| ServedAudience.AddedIdempotent | main.py:64-68 | adding the same id twice equals adding it once |
| ServedAudience.Filter | main.py:58-62 | the loaded ids are exactly the stored ids the query filter keeps |
| ServedAudience.LoadedCoherent | main.py:58-62 | loading keeps cache and collection coherent, and the loaded cache holds every stored id the query returns |
| ServedAudience.AddCoherent | main.py:64-68 | adding an id keeps cache and collection coherent (no duplicate insert), and the id is cached exactly once |
| ServedAudience.StoredIdNotReinserted | main.py:64-68 | an id already stored is not inserted again |
| ServedAudience.RepeatedAddIsNoOp | main.py:64-68 | a second add of the same id changes neither the list nor the collection |
| ServedAudience.Database.constructor | main.py:51-56 | both caches start empty over the existing collections |
| ServedAudience.Database.GetServedUsers | main.py:58-62 | an empty cache is filled with the stored ids greater than 0; a filled cache is kept |
| ServedAudience.Database.GetServedChats | main.py:70-74 | an empty cache is filled with the stored ids less than 0; a filled cache is kept |
| ServedAudience.Database.AddServedUser | main.py:64-68 | the cache is loaded, then the id is inserted and appended iff it was absent; it is then cached exactly once and the invariant holds |
| ServedAudience.Database.AddServedChat | main.py:76-80 | the same for chats |
| InstaLink.RecognisedPrefix | main.py:86 | a prefix of a recognised text that keeps the shortcode's first character is still recognised |
| Delivery.Preamble | main.py:195-198 | the handler's first call is the "Processing" reply, followed by exactly the provider requests, in the order they were made |
| Delivery.DeliverShape | main.py:194-240 | with a locator, the handler's calls are exactly the preamble, the calls of the `try` block, and one error edit carrying the block's exception text iff the block raised; whether a video was sent, and the status when nothing raised, are the block's |
| Delivery.HandleLink | main.py:185-192 | the handler makes no call at all iff the gate failed or the text holds no link |
| Delivery.Deliver | main.py:194-240 | the first call is the "Processing" reply; a sent video implies a cached locator, and what is cached is the locator `fetch_reel_url` returned; only the "Processing" reply or the final edit can raise out of the handler |
| Delivery.TrySend | main.py:204-237 | the block first edits to "Sending video"; when that edit succeeds the locator is stored and then sent remotely, in that order; a sent video needs that edit to succeed, and an exception-free block has sent and deleted the status |
| Delivery.LocalFallback | main.py:219-236 | the fallback first edits to "Uploading video"; a sent video means the local send succeeded on the scratch file; an exception-free fallback has sent and deleted the status |
| Delivery.IsAudioCallback | main.py:242 | accepted callback data holds exactly one `_`, at index 5 |
| Delivery.SecondField | main.py:246 | `split("_")[1]` is the text after the first `_` up to the next `_` or the end, and holds no `_` |
| Delivery.DeliverIndex | main.py:204-237 | each call of the `try` block appears in the handler's calls at its own position after the preamble |
| Delivery.DeliverSteps | main.py:204-237 | apart from status edits and requests, the handler makes exactly the calls of the `try` block |
| Delivery.LinkCache.constructor | main.py:44 | the cache starts empty |
| Delivery.DecimalString | main.py:206 | `str(id)` is a non-empty run of digits, one digit exactly for ids below 10 |
| Delivery.DecimalStringInjective | main.py:206 | distinct message ids give distinct cache keys |
| Delivery.CallbackKey | main.py:246 | `data.split("_")[1]` of accepted callback data is everything after `audio_` |
| Delivery.AudioDataRoundTrip | main.py:208 | the audio button's data passes the callback filter and leads back to the key its locator was stored under |
| Delivery.NoLinkNoCall | main.py:188-192 | a blocked request or a text without a link makes no call at all |
| Delivery.NoLocatorNothingSent | main.py:200-202 | without a locator, the status ends on the not-found text; nothing is sent or cached |
| Delivery.TrySendOrder | main.py:204-236 | in the `try` block the locator is stored before any send, and download and local send follow a remote send that raised |
| Delivery.StoreBeforeSend | main.py:204-218 | the locator is stored under `str(message.id)` before any send is attempted |
| Delivery.RemoteFirst | main.py:212-236 | the local download and local send happen only after the remote send was tried and raised |
| Delivery.TrySendScratch | main.py:219-236 | the scratch file is created iff the remote send raised, the download answered 200, its body was read and the file opened; it is removed iff the body was also written and the local send succeeded; a successful remote send downloads nothing |
| Delivery.TrySendOutcome | main.py:204-237 | a video is sent iff the remote or the local send succeeded; the cache write happens iff the "Sending video" edit succeeded; the status is deleted iff sent and deleted |
| Delivery.DeletedIffSent | main.py:237-240 | the status message ends deleted exactly when a video was sent and the delete succeeded |
| Delivery.NeverLeftInProgress | main.py:200-240 | when the failure edit succeeds, the status ends deleted, or on the not-found or error text, and nothing escapes |
| Delivery.ScratchCleanup | main.py:221-236 | the scratch file is removed iff it was created, its body written and the local send succeeded, so a write or a local send that raises leaves it behind |
| Delivery.CachedIsLocator | main.py:204-206 | a locator is cached iff the "Sending video" edit succeeded, and what is cached is the truthy provider locator |
| Delivery.RemoteSuccessNoDownload | main.py:212-218 | a successful remote send is final: nothing is downloaded |
| Delivery.LocalDownloadNot200 | main.py:222-236 | a download that does not answer 200 ends in "Failed to download video locally", with nothing sent |
| Delivery.AudioReplyFor | main.py:244-251 | the gate stops the callback; otherwise a truthy entry under the key is extracted, and anything else reads as expired |
| Delivery.AudioAfterStore | main.py:246-251 | the audio button of a message id just stored extracts the locator stored under that id |
| Delivery.AudioOtherStore | main.py:246-247 | storing a locator for a message with a different id does not change what this id's button finds |
| Delivery.AudioNeverStored | main.py:247-251 | a key never stored reads as expired and nothing is extracted |
| Delivery.AudioTrailingNewlineExpires | main.py:242-250 | callback data with the trailing newline the filter lets through always reads as expired |
| Delivery.StoreKeepsInvariant | main.py:206 | storing a truthy locator under a message id keeps every key a decimal id and every value truthy |
| Delivery.HandleLinkCaches | main.py:206 | what the handler caches is a truthy locator |
| Delivery.LinkCache.InstaLinkHandler | main.py:185-240 | the handler makes the calls of the model; the cache changes only by the entry for this message, and only when a locator was cached |
| Broadcast.PinIffSuffix | main.py:304 | a command pins iff its last three characters are `pin` |
| Broadcast.ShortNeverPins | main.py:304 | a command shorter than three characters never pins |
| Broadcast.PinCommands | main.py:304 | of the four command names, exactly `gcastpin` and `broadcastpin` pin |
| Broadcast.SplitRest | main.py:310 | `text.split(None, 1)[1]` is a suffix of the text that starts with a non-space; `None` when the text has one word |
| Broadcast.SplitRestOfWords | main.py:310 | leading spaces, a word, spaces, then a rest starting with a non-space: the split yields exactly that rest |
| Broadcast.SplitRestOneWord | main.py:310 | leading spaces, one word and trailing spaces: the split has no second field (`IndexError`) |
| Broadcast.SplitRestBlank | main.py:310 | a text of spaces only has no second field |
| Broadcast.OneWordPayloadRaises | main.py:309-310 | with arguments but a text of one word, choosing the payload raises |
| Broadcast.PayloadOf | main.py:306-314 | a replied-to message is copied whatever the text; with no reply and one command word there is no payload; with arguments the text after the first word is sent, and a text of one word raises |
| Broadcast.TextPayload | main.py:309-310 | with no reply, `/gcast word  rest` sends exactly `rest` |
| Broadcast.Targets | main.py:302 | the targets are duplicate-free and hold exactly the ids that are chats or users |
| Broadcast.Distinct | main.py:302 | the targets are duplicate-free and hold exactly the chats and users |
| Broadcast.SharedIdIsOneTarget | main.py:302 | an id that is both a chat and a user is one target |
| Broadcast.RunTarget | main.py:321-348 | the calls for a target start with the first post of the payload to that target |
| Broadcast.NoFloodWaitNoRetry | main.py:321-348 | a first send that is not a flood wait is never retried: its calls are that post, followed by a pin of the target exactly when the post went through and the command pins |
| Broadcast.RunTargetShape | main.py:321-348 | every call for a target is a sleep or goes to that target, every post carries the payload, and no first attempt follows the first call |
| Broadcast.DispatchOne | main.py:321-348 | one loop iteration reports the target as delivered, and makes the calls, exactly as the target's run of the model |
| Broadcast.CallsForTargets | main.py:321-349 | every call the loop makes is a sleep or goes to one of the targets, and every post carries the payload |
| Broadcast.DeliveredIff | main.py:322-348 | a target succeeds iff the first send went through, or it hit a flood wait and the retry (its pin included) went through |
| Broadcast.FloodWaitRetriesOnce | main.py:333-344 | a flood wait sleeps for the requested time, retries exactly once, and only the retry's pin may follow |
| Broadcast.PinFailureOnRetryOnly | main.py:327-344 | a failing pin is swallowed on the first attempt but fails the target on the retry |
| Broadcast.Successes | main.py:318-348 | the success tally never exceeds the number of targets |
| Broadcast.DispatchAll | main.py:318-349 | the loop's tallies are the successes and the rest, adding up to the number of targets, and its calls are each target's calls in order |
| Broadcast.SuccessesPermutation | main.py:302 | the success tally depends only on the multiset of targets |
| Broadcast.TalliesAnyOrder | main.py:302 | every duplicate-free arrangement of the same targets gives the same tallies, whatever order the set iterates in |
| Broadcast.FirstAttemptOf | main.py:321-326 | one target's calls hold exactly one first attempt, to that target |
| Broadcast.AttemptedOnce | main.py:321-348 | each target gets exactly one first attempt per run, and no other id gets one |
| Broadcast.ExampleTally | main.py:321-348 | one group and two users, the second user unreachable: two successes |
| Broadcast.UnreachableUserExample | main.py:321-348 | the same example in any iteration order: two successes and one failure |
| Broadcast.Broadcasting | main.py:299-352 | every call of a broadcast of the model is a sleep or goes to a target, and every post carries the chosen payload |
| Broadcast.TalliesAddUp | main.py:316-351 | a run reports iff it had a payload and the panel reply went through; its tallies add up to the number of targets |
| Broadcast.FlagAfterRun | main.py:299-352 | among the modelled paths, the flag stays set exactly when the split, the panel reply or the panel edit raised |
| Broadcast.NoPayloadNoCalls | main.py:306-316 | without a payload, or with a failed panel reply, no target is contacted |
| Broadcast.Broadcaster.constructor | main.py:45 | the flag starts cleared |
| Broadcast.Broadcaster.Gcast | main.py:294-352 | while the flag is set it refuses and changes nothing; otherwise it loads both caches and runs the broadcast of the model, leaving the flag set exactly on the failure paths |
| Broadcast.Broadcaster.RunWithFlagSet | main.py:303-352 | after the flag is set, it chooses the payload, dispatches, and clears the flag only on completion or a missing payload |

## Left out

- Telegram calls (send, copy, pin, edit, delete, `reply_text`, `get_chat_member`, `get_chat`), the HTTP requests to the two services and the download, and JSON decoding are inputs. The model records which calls happen and in what order. It does not perform them.
- `audio_callback_handler` after the cache lookup (main.py:253-285): the yt_dlp extraction and the audio send belong to a foreign library.
- `check_sub_callback`, `/start`, `/stats`, logging, environment configuration and startup are wiring outside the core.
- `SubscriptionGate.CheckFsub`: the "Access Denied" reply is not modelled. If it raised, the handler would stop exactly as it does when blocked.
- The callbacks run `check_fsub` on `callback_query.message`, whose sender is the bot and not the user who clicked. The model takes the gate's verdict as the input `passed` and does not model whose membership is looked up.
- `ServedAudience.Database.constructor` assumes that the existing collections hold each kept id at most once, as this class leaves them. It also assumes that a query returns ids in insertion order. MongoDB failures are not modelled.
- Concurrency between handlers is not modelled. Each run is sequential. There is no await between the flag check and the flag set (main.py:296-299).
- `Broadcast.Targets` fixes one iteration order for `list(set(...))`: the order of first occurrence. `Broadcast.TalliesAnyOrder` shows that the tallies are the same for every order. The call order does depend on it.
- `Broadcast.FlagAfterRun` and `Broadcast.Broadcaster.Gcast` do not model a MongoDB failure in `get_served_chats` or `get_served_users` (main.py:300-301). Such a failure would also leave the flag set and refuse every later broadcast.
- `Delivery.LinkCache` keys its entries by `str(message.id)` alone (main.py:206, 246), as the code does. Telegram message ids are unique only within a chat, so a link in one chat overwrites the entry of a message with the same id in another, and that message's audio button then extracts the other video. The model has no chat in the key and so does not show this collision.
- `Broadcast.Broadcaster.Gcast` takes the number of command arguments as an input. Pyrogram's splitting of `message.command` is not modelled.
- `Broadcast.IsSpace`: only the ASCII characters `str.split` splits at are spaces: space, `\t`, `\n`, `\v`, `\f`, `\r` and the separators `\x1c`-`\x1f`. Python's `str.split` also splits at non-ASCII whitespace such as `\x85` and `\xa0`.
- `Delivery.IsAudioCallback` treats only ASCII digits as `\d`. Python's `\d` also matches other Unicode decimal digits. `Delivery.CallbackKey` and `Delivery.AudioReplyFor` therefore accept only ASCII-digit callback data.
- The 0.1-second pause after each broadcast target is not recorded. The flood-wait pause is recorded as a `Sleep` call.
- `Delivery.ScratchCleanup` models the `os.path.exists` check as true once the file was opened for writing, and `os.remove` as succeeding.
- `Delivery.NeverLeftInProgress` holds only when the final failure edit succeeds. The code has no guard against that edit raising.
