# TelegramGroupCloner: the worker-pool bookkeeping, modelled in Dafny

`tg_group_cloner.py` relays every message of a source Telegram group to a
target group. For each source sender it picks a worker account, makes that
worker's profile look like the sender's the first time, and forwards the
sender's messages through that worker. Replies are re-targeted to the copies.
This project models the sequential bookkeeping behind that:

- the pool of workers, each bound to at most one sender (`clients_pool`);
- the key set of the per-worker lock table (`client_locks`);
- the set of cloned senders (`cloned_users`);
- the map from source message id to copied message id (`message_id_mapping`).

It also models the three pure helpers: the replacement filter for outgoing
text, the animated-sticker/webm classifier, and the blacklist token rule.

Modules, leaves first:

- `Wrappers` (wrappers.dfy): `Option`.
- `Text` (text.dfy): Python's `str.replace`, `split`, `join`, `strip`,
  `isdigit` and `int`, written as functions. Also `apply_replacements`, as a
  loop proved against the fold `ReplaceAll`.
- `Config` (config.dfy): the blacklist built from the configured `user_ids`
  value, with its round-trip.
- `Media` (media.dfy): message media, `is_animated_sticker_or_video`, and the
  choice between a streaming file, a captioned file and plain text.
- `Relay` (relay.dfy): the state machine as pure functions. `HandleStep` is one
  call of `clone_and_forward_message`. `PlanSend` and `Record` are
  `forward_message_as`. `Cleanup` is `cleanup_frozen_client`. `Run` is a
  sequence of handler calls. The lemmas about them sit beside them.
- `Cloner` (cloner.dfy): class `Cloner`. Its fields are the module-level
  globals, and its methods update them in place. Each method's `ensures` ties
  the new state to the `Relay` functions. Module `Scenarios` in the same file
  is a client that walks through a bind, a reuse, a frozen setup and an
  unmapped reply using only those contracts.

Platform calls are parameters. `Platform.setup` is the result of the profile
update and `get_me`: fine, raised the frozen error, or raised something else.
`Platform.send` is the result of the download and send: the id of the sent
message, or a failure. `Platform.disconnectOk` says whether `disconnect()`
raised. The event's `reply` field says whether the message is a reply and
what `get_reply_message()` returned.

Four behaviours of the code are easy to misread. The model follows the code
in each:

- `forward_message_as` catches every exception itself (lines 272-273,
  309-310, 312-313), so it never raises to the handler. As a result:
  - a frozen error while sending through an already bound worker never reaches
    the cleanup at line 147, so the worker stays in the pool, still bound
    (`SendFailureKeepsBinding`, `BoundSenderReusesWorker`);
  - a new worker is bound as soon as its profile update succeeds, even when
    the relay then sent nothing (`FreshSenderBindsFirstFree`,
    `Scenarios.UnmappedReplyStillBinds`).

  So in the code, eviction comes only from a frozen profile update.
- `cleanup_frozen_client` calls `disconnect()` before touching any
  structure. If `disconnect()` raises, the handler at line 339 skips every
  removal (`CleanupAfterFailedDisconnect`).
- The sender id is discarded from `cloned_users` only when it is truthy
  (line 336): a sender id of 0 is kept.
- Re-delivering a message with the same id overwrites its mapping entry,
  because the mapping is a dict. It does not create a second entry
  (`HandleWritesOnlyMessageId`).

## Model

| member | source | states |
|---|---|---|
| `Text.Split` | tg_group_cloner.py:389 | `str.split` with a non-empty separator always returns at least one piece |
| `Text.Replace` | tg_group_cloner.py:320 | definition of `str.replace` for a non-empty key: scan from the left, replace an occurrence by the value, and go on after it; replaced text is not scanned again |
| `Text.ReplaceIsJoinOfSplit` | tg_group_cloner.py:320 | `s.replace(k, v)` equals `v.join(s.split(k))` |
| `Text.SplitFirstPiece` | tg_group_cloner.py:320 | the first piece of `s.split(k)` is a prefix of `s` holding no occurrence of `k` |
| `Text.SplitPiecesLackSeparator` | tg_group_cloner.py:320 | no piece of `s.split(k)` contains `k`, for a key of any length; with `ReplaceIsJoinOfSplit`, every non-overlapping occurrence, from the left, is replaced |
| `Text.ReplaceBySelf` | tg_group_cloner.py:320 | replacing a key by itself leaves the text unchanged |
| `Text.JoinSplitRoundTrip` | tg_group_cloner.py:389 | joining the pieces of `s.split(k)` with `k` gives back `s` |
| `Text.ReplaceAbsentKey` | tg_group_cloner.py:320 | a key that does not occur leaves the text unchanged, whatever the value |
| `Text.ReplaceAll` | tg_group_cloner.py:319-320 | definition of the filter: the left fold of `replace` over the table entries in table order |
| `Text.ReplaceAllConcat` | tg_group_cloner.py:319-320 | the fold over a table is the fold over its first part followed by the fold over the rest: one pass per entry in table order, and a pass is never re-applied |
| `Text.ReplaceAllOfEmpty` | tg_group_cloner.py:317-320 | the empty text stays empty under every table, so the early return agrees with the fold |
| `Text.ReplaceAllSkipsAbsentKey` | tg_group_cloner.py:319-320 | an entry whose key does not occur in the text the earlier entries produced changes nothing |
| `Text.ApplyReplacements` | tg_group_cloner.py:316-321 | the loop returns the left fold of `replace` over the table, and returns empty text as it is |
| `Text.Strip` | tg_group_cloner.py:389 | definition of `str.strip()`: `rstrip` after `lstrip` |
| `Text.StripLeft` | tg_group_cloner.py:389 | the result is the suffix left after removing all leading white space (Python's `isspace` set) |
| `Text.StripRight` | tg_group_cloner.py:389 | the result is the prefix left after removing all trailing white space |
| `Text.StripUnchanged` | tg_group_cloner.py:389 | a string with no white space at either end is its own `strip()` |
| `Text.IsDigits` | tg_group_cloner.py:389 | definition of `str.isdigit()` over ASCII digits: non-empty and every character a digit |
| `Text.ParseDecimal` | tg_group_cloner.py:389 | definition of `int()` on a digit string: the decimal value, leading zeros allowed |
| `Text.ShowDecimal` | tg_group_cloner.py:389 | `str(n)` for `n >= 0`; its result is always an `isdigit()` string |
| `Text.ParseShowRoundTrip` | tg_group_cloner.py:389 | `int(str(n)) == n` for every non-negative `n` |
| `Config.BlacklistIds` | tg_group_cloner.py:389 | definition of the comprehension: the ids of the comma-separated tokens of the value |
| `Config.TokenIds` | tg_group_cloner.py:389 | `int(t.strip())` for each token `t` whose stripped form is all digits; other tokens contribute nothing |
| `Config.SplitPiecesFree` | tg_group_cloner.py:389 | no token of `split(",")` contains a comma |
| `Config.SplitJoinRoundTrip` | tg_group_cloner.py:389 | splitting a comma-join of comma-free tokens gives the tokens back |
| `Config.BlacklistOfTokens` | tg_group_cloner.py:387-389 | the blacklist of a comma-joined token list is exactly the set of `int(t.strip())` over the tokens `t` that are all digits once stripped; every other token is ignored |
| `Config.EveryValueIsTokens` | tg_group_cloner.py:389 | every configured value is the comma-join of its own comma-free tokens, so the characterisation above covers every input |
| `Config.BlacklistRoundTrip` | tg_group_cloner.py:387-389 | writing ids comma-separated and reading them back yields exactly those ids, and the empty value yields the empty blacklist |
| `Media.IsAnimatedStickerOrVideo` | tg_group_cloner.py:207-211 | definition of the classifier: true exactly for a present document whose MIME type starts with `application/x-tgsticker` or `video/webm` |
| `Media.Dispatch` | tg_group_cloner.py:236-268 | an animated sticker or webm video goes out as a streaming file with the original attributes, other media as a file captioned with the filtered text, no media as plain filtered text; all three carry the given reply target |
| `Media.StreamingIgnoresText` | tg_group_cloner.py:276-290 | the text of an animated sticker or webm video is not relayed: the request does not depend on it |
| `Media.ClassifierPrefixClosed` | tg_group_cloner.py:207-211 | the classifier tests a MIME prefix: any extension of a matching MIME type matches too |
| `Media.ClassifierExamples` | tg_group_cloner.py:207-211 | sticker and webm documents are streamed; webp, mp4, a missing document and non-document media are not |
| `Relay.FirstWith` | tg_group_cloner.py:137-154 | the scans return the first entry, in pool order, with the bound value sought (the sender, or none), or report that there is none |
| `Relay.Bind` | tg_group_cloner.py:195 | definition of the binding write: the entry at the chosen index gets the sender, every other entry is kept |
| `Relay.Evict` | tg_group_cloner.py:333 | the pool without the worker's entry: exactly the other entries remain, the worker set loses only that worker, and no binding is added |
| `Relay.PlanSend` | tg_group_cloner.py:214-307 | nothing is sent exactly when the replied-to message is unavailable or unmapped; otherwise the send targets the mapped id (none for a non-reply) and is the dispatch of the filtered text |
| `Relay.Record` | tg_group_cloner.py:270-307 | definition of the mapping write: `message.id -> sent.id` when a send was attempted and succeeded, no change otherwise |
| `Relay.Cleanup` | tg_group_cloner.py:324-340 | definition of `cleanup_frozen_client`: with a successful disconnect, pop the worker from the pool and lock table and discard a truthy sender id from the cloned set; with a raising one, change nothing |
| `Relay.HandleStep` | tg_group_cloner.py:122-204 | definition of one handler call: drop bots, then blacklisted senders; relay through the first worker bound to the sender; otherwise try the first unbound worker: bind it and relay after a successful profile update, clean it up after a frozen error, leave everything after another error; report no free worker when none is unbound |
| `Relay.Run` | tg_group_cloner.py:443-444 | definition of a run: handler calls one after the other, each on the state the previous left, collecting the effects |
| `Relay.EvictDistributes` | tg_group_cloner.py:333 | eviction keeps the remaining entries in their order |
| `Relay.EvictAbsent` | tg_group_cloner.py:333 | popping an absent worker leaves the pool as it is |
| `Relay.EvictKeepsShape` | tg_group_cloner.py:333 | eviction keeps workers distinct and bindings unique |
| `Relay.CleanupKeepsInv` | tg_group_cloner.py:333-334 | cleanup keeps the pool a dict with unique bindings and one lock per pooled worker |
| `Relay.CleanupEffect` | tg_group_cloner.py:333-337 | cleanup removes only the given worker from the pool (order kept) and the lock table, discards a truthy sender id from `cloned_users`, and leaves the mapping alone |
| `Relay.CleanupAfterFailedDisconnect` | tg_group_cloner.py:330-340 | a raising `disconnect()` leaves every structure unchanged |
| `Relay.CleanupAbsentWorker` | tg_group_cloner.py:333-334 | cleanup of a worker that is in neither the pool nor the lock table changes neither, in any state |
| `Relay.CleanupIdempotent` | tg_group_cloner.py:333-337 | cleaning up the same worker twice is the same as once |
| `Relay.BindKeepsInv` | tg_group_cloner.py:195 | binding a sender that no worker is bound to keeps the invariant |
| `Relay.HandleKeepsInv` | tg_group_cloner.py:122-204 | a handler step keeps each sender bound to at most one worker, workers distinct, and the lock keys equal to the pooled workers |
| `Relay.HandleKeepsClonedCovers` | tg_group_cloner.py:195-200 | a handler step keeps every bound sender recorded in `cloned_users` |
| `Relay.DroppedSenderChangesNothing` | tg_group_cloner.py:125-134 | a bot or blacklisted sender leaves pool, locks, cloned set and mapping unchanged and sends nothing |
| `Relay.BoundSenderReusesWorker` | tg_group_cloner.py:137-149 | a bound sender is relayed through the first worker bound to it; no binding changes, and the profile-update and disconnect outcomes play no part |
| `Relay.FreshSenderBindsFirstFree` | tg_group_cloner.py:152-197 | an unbound sender is tried on the first unbound worker; a successful profile update binds exactly that worker and adds the sender to `cloned_users`, whatever the relay then sent |
| `Relay.FailedSetupBindsNothing` | tg_group_cloner.py:163-202 | when the profile update raises, only that worker was tried and the sender stays unbound; a frozen error evicts that worker, any other error changes nothing |
| `Relay.ExhaustedPoolChangesNothing` | tg_group_cloner.py:152-204 | with every worker bound to another sender, nothing changes and nothing is sent |
| `Relay.HandleWritesOnlyMessageId` | tg_group_cloner.py:270-307 | the mapping gains only `message.id -> sent.id`, only when a send went out; every other entry is untouched |
| `Relay.ReplyIntegrity` | tg_group_cloner.py:219-270 | an unavailable or unmapped replied-to message means no send and no mapping write; a relayed reply targets `message_id_mapping[reply.id]`; a non-reply has no target |
| `Relay.SendFailureKeepsBinding` | tg_group_cloner.py:141-148 | a failed send writes no mapping and evicts no worker |
| `Relay.HandleUsesPooledWorkers` | tg_group_cloner.py:137-160 | a step adds no worker, and the worker it uses is a pooled one |
| `Relay.HandleBindsOnlyEventSender` | tg_group_cloner.py:125-197 | a step binds no sender other than the event's, and a dropped event changes nothing |
| `Relay.RunKeepsInv` | tg_group_cloner.py:122-204 | uniqueness of bindings holds after every sequence of handler calls |
| `Relay.AbsentWorkerNeverUsed` | tg_group_cloner.py:137-160 | a worker not in the pool is used by no later handler call and never returns to the pool |
| `Relay.EvictedWorkerNeverChosen` | tg_group_cloner.py:333-334 | after eviction no later handler call binds or relays through the evicted worker |
| `Relay.BlacklistedNeverBound` | tg_group_cloner.py:132-134 | a blacklisted sender that is unbound stays unbound through any sequence of handler calls |
| `Cloner.Cloner.constructor` | tg_group_cloner.py:16-22 | start-up state: empty pool, locks, cloned set, mapping and blacklist |
| `Cloner.Cloner.RegisterWorker` | tg_group_cloner.py:79-80 | a new session is appended to the pool unbound and gets its lock; the invariant is kept |
| `Cloner.Cloner.LoadBlacklist` | tg_group_cloner.py:387-389 | the blacklist is replaced by the ids of the configured value; previous contents are gone |
| `Cloner.Cloner.ForwardMessageAs` | tg_group_cloner.py:214-313 | the send attempted is `PlanSend` of the old mapping, and the mapping afterwards is `Record` of it |
| `Cloner.Cloner.CleanupFrozenClient` | tg_group_cloner.py:324-340 | the new state is `Cleanup` of the old one, and the invariant is kept |
| `Cloner.Cloner.HandleMessage` | tg_group_cloner.py:122-204 | the two scans and their branches yield exactly `HandleStep` of the old state, the invariant is kept, and the configuration is unchanged |

## Left out

- Concurrency: asyncio tasks, the per-sender locks (`sender_locks`) and the per-worker locks are sequential no-ops. The model runs one handler call at a time. So the re-check at line 159 always succeeds, and a dict changing size mid-iteration cannot happen.
- Login, 2FA and session loading (`login_new_account`, `load_existing_sessions` apart from its pool insertion, `start_monitor`), joining groups, deleting profile photos: interactive I/O and network.
- Every Telethon call: profile update, `get_me`, photo download and upload, `send_file`, `send_message`, `get_reply_message`, `disconnect`. Each appears only as an outcome parameter.
- Avatar setup (lines 171-188): its failures are swallowed and never block binding, so it is a no-op here.
- Temporary media files and `os.remove`, logging, the config-file defaults and the menu loop in `main`.
- `configparser` itself: section reading, key lower-casing and the loading of the replacement table, which is supplied whole to the constructor.
- The substring test for `FROZEN_METHOD_INVALID`: it is a typed outcome (`SetupFrozen`).
- Text.ApplyReplacements: keys must be non-empty. Python's `replace` with an empty key inserts the value between characters; this case cannot arise because configparser refuses an empty option name.
- Text.IsDigits: covers ASCII digits only. Python's `isdigit` also accepts other Unicode digits; `int()` then accepts some of them and raises on others (superscripts).
- Senders that are not users: `event.get_sender()` (line 123) can return `None` or a channel without a `.bot` attribute, and line 125 then raises before any state change. The state outcome equals that of a skipped bot, but `Event` has no way to express such a sender.
- The display name sent with the profile update (lines 164-165) is not modelled. Only the outcome of the update is.
