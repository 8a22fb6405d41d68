# Lumia firmware download bot: a verified model

This project models the Telegram bot `lumia_firmware_download_bot.py`. The bot hands out
Lumia phone firmware that is stored as messages in private channels. Users pick a product
type and then a product code. The bot copies the matching firmware messages to them.
Non-admins get two completed downloads per 24-hour window. Admins manage the admin and
blocked lists, broadcast messages and look up user ids. Super admins are listed in the
`SUPER_ADMIN` setting.

The model is split into modules that follow the bot's concerns:

- `Text` covers the Python string operations the bot relies on: `str.split()`, `split(',')`,
  `strip()`, ASCII `upper()`/`lower()`, `endswith`, and `int()` on decimal text.
- `Records` holds the JSON record types (`users.json`, `admins.json`, `blocked.json`) and the
  first-match and filter-by-id lookups over them.
- `Catalog` is `devices.json` and every lookup the download, emergency-file and `/request`
  flows perform on it.
- `RateLimit` holds `check_user_limit` and `save_user_data`. Time is a number of seconds.
- `Access` holds the super-admin parser, the admin and blocked checks, and the
  promote/demote/block/unblock commands as functions from the old lists to the new lists
  and a reply.
- `Intake` decides whether an uploaded package is accepted.
- `Broadcast` is the `/notify_all` delivery loop.
- `Events` holds the incoming message and the replies.
- `Bot` holds the `FirmwareBot` class. Its fields are the per-user conversation state
  (`user_states`) and the stored lists. It has one method per command handler and per
  conversation step, plus `Dispatch`, which routes a non-command message to the handler
  for its sender's state.

The bot's environment is passed in as parameters:

- the clock is a `now` argument;
- the accounts `bot.get_chat` can resolve are a `directory` map;
- the chats a broadcast copy gets through to are a `reachable` set.

The command methods of `FirmwareBot` state their effect through pure functions of the
old lists (for example `AddAdminStep` or `CheckUserLimit`), and the conversation-step
handlers through one outcome predicate per step that `Dispatch` also uses. The
properties of the bot are proved as lemmas about those functions and predicates.

## Model

| member | source | states |
|---|---|---|
| Text.Words | lumia_firmware_download_bot.py:209 | `split()` yields non-empty words with no whitespace in them |
| Text.WordsOfJoin | lumia_firmware_download_bot.py:491 | splitting words joined by single spaces gives back the same words |
| Text.Upper | lumia_firmware_download_bot.py:220-221 | upper-casing keeps the length, leaves no lower-case ASCII letter, changes only lower-case letters, and keeps what lower-casing makes of each character |
| Text.Lower | lumia_firmware_download_bot.py:685 | lower-casing keeps the length, leaves no upper-case ASCII letter, changes only upper-case letters, and keeps what upper-casing makes of each character |
| Text.UpperIdempotent | lumia_firmware_download_bot.py:220-221 | upper-casing twice is upper-casing once, and lower-casing forgets a previous upper-casing |
| Text.SplitOn | lumia_firmware_download_bot.py:28 | `split(',')` yields at least one piece and no piece contains the separator |
| Text.JoinSplit | lumia_firmware_download_bot.py:28 | joining the pieces of `split(',')` with the separator rebuilds the text |
| Text.SplitJoin | lumia_firmware_download_bot.py:28 | splitting separator-free pieces joined by the separator gives back the pieces |
| Text.Strip | lumia_firmware_download_bot.py:28 | `strip()` returns a slice of the text with only whitespace cut off on either side, has no whitespace at either end, and is "" exactly when the text is all whitespace |
| Text.ParseInt | lumia_firmware_download_bot.py:48 | `int()` succeeds only on text made of digits and underscores, with an optional leading sign, ending in a digit; a result is negative only after a minus sign |
| Text.ParseShow | lumia_firmware_download_bot.py:48 | `int()` reads back every integer written in decimal |
| Records.FirstIndex | lumia_firmware_download_bot.py:94 | `next(...)` finds the first record with the id, and none exactly when no record has it |
| Records.FindRecord | lumia_firmware_download_bot.py:80-87 | the loop over the records stops at the first record of the id |
| Records.RemoveId | lumia_firmware_download_bot.py:358 | no record of the id survives; the list is unchanged when the id is absent and shorter when it is present |
| Records.RemoveIdMembers | lumia_firmware_download_bot.py:521 | the filtered list keeps exactly the records of other ids |
| Records.RemoveIdAppend | lumia_firmware_download_bot.py:521 | the filter distributes over concatenation |
| Records.RemoveAfterAppend | lumia_firmware_download_bot.py:358 | filtering out a record just appended under a fresh id restores the list |
| Access.ParseIds | lumia_firmware_download_bot.py:28 | `int()` raises exactly when some entry is neither blank nor an integer once stripped; blank entries are dropped, so no more ids than entries come out |
| Access.SuperAdmins | lumia_firmware_download_bot.py:26-28 | `super_admins()` fails exactly when a comma-separated piece of `SUPER_ADMIN` is neither blank nor an integer once stripped, and yields at most one id per piece |
| Access.PaddedEntryParsed | lumia_firmware_download_bot.py:28 | an entry padded with whitespace contributes the integer it reads as, in its place |
| Access.SuperAdminsRoundTrip | lumia_firmware_download_bot.py:26-28 | a comma-separated list of ids is read back as exactly those ids |
| Access.BlankEntrySkipped | lumia_firmware_download_bot.py:28 | a whitespace-only entry contributes nothing |
| Access.IsAdminById | lumia_firmware_download_bot.py:71-76 | a user is an admin exactly when an admin record has their id or they are a super admin |
| Access.BlockReason | lumia_firmware_download_bot.py:79-87 | a user counts as blocked exactly when a blocked record has their id; the reason is that of the first such record |
| Access.CheckUserId | lumia_firmware_download_bot.py:46-59 | the id is valid exactly when it parses as an integer and the account exists; it is malformed exactly when it does not parse |
| Access.AddAdminStep | lumia_firmware_download_bot.py:294-330 | each reply is decided exactly as the handler's checks run in order: a chat other than a super admin's, fewer than two words, an unparseable or unknown id, a blocked id, a super admin's id, and otherwise a promotion that appends one admin record; every reply other than the promotion leaves the list unchanged |
| Access.PromotionIgnoresAdminList | lumia_firmware_download_bot.py:320 | the promotion reply does not depend on the admin list at all, because the test compares an id with records |
| Access.PromotionGrantsAdmin | lumia_firmware_download_bot.py:316-326 | a promoted user passes the admin check from then on |
| Access.PromoteTwice | lumia_firmware_download_bot.py:320 | the "already an admin" test never sees ordinary admins, so promoting twice stores two records |
| Access.PromoteThenDemote | lumia_firmware_download_bot.py:294-363 | demoting a user who was just promoted restores the admin list |
| Access.RemoveAdminStep | lumia_firmware_download_bot.py:333-363 | each reply is decided exactly as the handler's checks run in order: a chat other than a super admin's, fewer than two words, an unparseable id, a super admin's id, an id with an admin record (demoted, every record of it removed), and otherwise already not an admin; super admins are never demoted |
| Access.DemotionRevokesAdmin | lumia_firmware_download_bot.py:354-360 | a demoted user fails the admin check from then on |
| Access.BlockUserStep | lumia_firmware_download_bot.py:458-494 | each reply is decided exactly as the handler's checks run in order: a sender who is not an admin, fewer than three words, an unparseable or unknown id, an admin's id, an already blocked id, and otherwise a block that appends one record whose reason is the rest of the words |
| Access.BlockingTakesEffect | lumia_firmware_download_bot.py:480-492 | a blocked user is turned away from then on, with the reason that was typed |
| Access.UnblockUserStep | lumia_firmware_download_bot.py:497-524 | each reply is decided exactly as the handler's checks run in order: a sender who is not an admin, fewer than two words, an unparseable id, an id without a blocked record, and otherwise an unblock that removes every record of it |
| Access.UnblockingTakesEffect | lumia_firmware_download_bot.py:520-522 | an unblocked user is no longer turned away |
| Access.BlockReasonWords | lumia_firmware_download_bot.py:491 | the stored reason splits back into exactly the words typed after the id |
| Access.BlockThenUnblock | lumia_firmware_download_bot.py:458-524 | unblocking a user who was just blocked restores the blocked list |
| Catalog.DownloadKeyboard | lumia_firmware_download_bot.py:176-181 | offers exactly the product types of devices with at least one available code |
| Catalog.EmergencyKeyboard | lumia_firmware_download_bot.py:262-267 | offers exactly the product types of devices with emergency files |
| Catalog.CodeOptions | lumia_firmware_download_bot.py:584-589 | offers exactly the available codes of every device of the chosen type |
| Catalog.ProductTypeStep | lumia_firmware_download_bot.py:579-606 | the type is rejected exactly when no device has it; when codes are offered, they are the available codes of that type and there is at least one |
| Catalog.ProductTypeStepOffers | lumia_firmware_download_bot.py:582-598 | codes are offered exactly when some device of the type has firmware |
| Catalog.DownloadChoiceAdvances | lumia_firmware_download_bot.py:176-181 | an upper-case button of the download keyboard always leads to the product-code step |
| Catalog.FirstDeviceWithCode | lumia_firmware_download_bot.py:620-622 | finds the first device of any type listing the code, or none exactly when no device lists it |
| Catalog.ProductCodeStep | lumia_firmware_download_bot.py:611-631 | the code is rejected exactly when no device lists it; otherwise it delivers the first listing of the code in the first device that has it, whatever type was chosen |
| Catalog.OfferedCodeCanResolveElsewhere | lumia_firmware_download_bot.py:620-628 | a code offered under one type can resolve to an earlier device of another type that lists it without firmware |
| Catalog.FirstEmergency | lumia_firmware_download_bot.py:658-660 | finds the emergency message of the first device of the type that has one |
| Catalog.EmergencyStepFor | lumia_firmware_download_bot.py:652-670 | the type is rejected exactly when unknown; a file is sent exactly when some device of the type has one |
| Catalog.EmergencyChoiceDelivers | lumia_firmware_download_bot.py:262-267 | an upper-case button of the emergency keyboard always leads to an emergency file |
| Catalog.FirstDeviceOfType | lumia_firmware_download_bot.py:224 | finds the first device of the type, or none exactly when the type is unknown |
| Catalog.RequestCheck | lumia_firmware_download_bot.py:205-253 | usage exactly when fewer than three words; unknown type exactly when no device has it; the handler raises exactly when the first device of the type does not list the code |
| Catalog.RequestForwardedIff | lumia_firmware_download_bot.py:224-253 | a request is forwarded exactly when the first device of the type lists the code without firmware |
| RateLimit.CheckUserLimit | lumia_firmware_download_bot.py:90-115 | refused exactly when the user's first record is in its window and has 2 or more requests; refusal writes nothing back; a new user gets a fresh record; an allowed user's window restarts at `now`, with the counter reset if the window had closed; the time left is reported exactly while the window is open and counts to its end |
| RateLimit.IncrementRequests | lumia_firmware_download_bot.py:118-125 | adds one request to the user's first record only, and changes nothing for an unknown user |
| RateLimit.TimeLeftAtMostDay | lumia_firmware_download_bot.py:102-104 | on refusal the time left lies between 0 and one day |
| RateLimit.EntryDoesNotSpendQuota | lumia_firmware_download_bot.py:106-115 | starting `/download` without completing never leads to a refusal |
| RateLimit.CheckedRecord | lumia_firmware_download_bot.py:106-109 | after an allowed check the user's first record starts its window at `now` and is under the limit |
| RateLimit.CheckInWindow | lumia_firmware_download_bot.py:103-109 | an allowed check inside the window keeps the counter |
| RateLimit.IncrementAt | lumia_firmware_download_bot.py:118-125 | saving keeps the record's place and window and counts one more |
| RateLimit.TwoDownloadsSpendQuota | lumia_firmware_download_bot.py:90-125 | two completed downloads within a day refuse a third start within a day of the second |
| RateLimit.FreshRecordAllowed | lumia_firmware_download_bot.py:133-151 | a record `/start` has just created always passes the daily limit |
| Intake.UploadCheck | lumia_firmware_download_bot.py:685 | the check raises exactly when the MIME type matches and the document has no name; an accepted document has the zip MIME type and a name ending in `.zip` after lower-casing |
| Intake.LowerEndsWithZip | lumia_firmware_download_bot.py:685 | `lower().endswith(".zip")` holds exactly when the name ends in `.zip` in any letter case |
| Intake.UploadAcceptedIff | lumia_firmware_download_bot.py:685 | accepted exactly for MIME `application/zip` with a `.zip` name; the handler raises exactly when the MIME matches and there is no name |
| Broadcast.Targets | lumia_firmware_download_bot.py:717 | users first, then admins, one entry per record |
| Broadcast.Reached | lumia_firmware_download_bot.py:707-718 | a target is reached exactly when it is reachable, and each reachable target gets one copy per time it is listed |
| Broadcast.Notify | lumia_firmware_download_bot.py:717-718 | the loop delivers to exactly the reachable targets, in order |
| Bot.FirmwareBot.BlockedReason | lumia_firmware_download_bot.py:79-87 | the loop finds the reason of the first blocked record of the user |
| Bot.FirmwareBot.CheckLimit | lumia_firmware_download_bot.py:90-115 | verdict, time left and stored users are those of `CheckUserLimit` |
| Bot.FirmwareBot.SaveUserData | lumia_firmware_download_bot.py:118-125 | the stored users become `IncrementRequests` of the old ones |
| Bot.FirmwareBot.Start | lumia_firmware_download_bot.py:128-157 | blocked users change nothing; a known user is welcomed back and nothing is written; an unknown user is welcomed and gets a fresh record, which is kept only when the user is not an admin |
| Bot.FirmwareBot.Download | lumia_firmware_download_bot.py:159-185 | blocked users change nothing; admins skip the limit; others enter the product-type step only when the limit allows, and are otherwise told the time left |
| Bot.FirmwareBot.Upload | lumia_firmware_download_bot.py:188-193 | blocked users change nothing; others enter the upload step |
| Bot.FirmwareBot.EmergencyFiles | lumia_firmware_download_bot.py:256-272 | blocked users change nothing; others get the emergency keyboard and enter the emergency step |
| Bot.FirmwareBot.NotifyAll | lumia_firmware_download_bot.py:390-396 | only a super admin's chat enters the broadcast step |
| Bot.FirmwareBot.GetId | lumia_firmware_download_bot.py:422-427 | only admins enter the user-id step |
| Bot.FirmwareBot.Cancel | lumia_firmware_download_bot.py:564-574 | drops the sender's state if there is one, and says so |
| Bot.FirmwareBot.CancelTwice | lumia_firmware_download_bot.py:564-574 | a second `/cancel` always finds nothing to cancel |
| Bot.FirmwareBot.Request | lumia_firmware_download_bot.py:204-253 | blocked users are turned away; otherwise the reply follows `RequestCheck` |
| Bot.FirmwareBot.AddAdmin | lumia_firmware_download_bot.py:294-330 | the admin list and reply are those of `AddAdminStep` |
| Bot.FirmwareBot.RemoveAdmin | lumia_firmware_download_bot.py:333-363 | the admin list and reply are those of `RemoveAdminStep` |
| Bot.FirmwareBot.BlockUser | lumia_firmware_download_bot.py:458-494 | the blocked list and reply are those of `BlockUserStep` |
| Bot.FirmwareBot.UnblockUser | lumia_firmware_download_bot.py:497-524 | the blocked list and reply are those of `UnblockUserStep` |
| Bot.FirmwareBot.HandleProductType | lumia_firmware_download_bot.py:577-606 | offering codes moves to the product-code step; a known type with nothing available and an unknown type keep the state |
| Bot.FirmwareBot.HandleProductCode | lumia_firmware_download_bot.py:609-647 | an unknown code keeps the state; otherwise the state is cleared, one id is copied, several are copied as a batch, none is reported; only a non-admin's completed delivery is counted |
| Bot.FirmwareBot.HandleEmergencyFiles | lumia_firmware_download_bot.py:650-670 | an unknown type keeps the state; a known type clears it and sends the first emergency file or says there is none |
| Bot.FirmwareBot.HandleUploadFile | lumia_firmware_download_bot.py:673-693 | the package is forwarded in every case; only an accepted one ends the upload step |
| Bot.FirmwareBot.HandleForwardMessage | lumia_firmware_download_bot.py:696-721 | the state is cleared and the message reaches exactly the reachable users and admins |
| Bot.FirmwareBot.HandleUserId | lumia_firmware_download_bot.py:724-734 | the state is cleared; the forwarded sender's id is disclosed when present |
| Bot.FirmwareBot.StepOnText | lumia_firmware_download_bot.py:577-670 | each of the four text-driven steps has exactly its handler's outcome and always answers; only the sender's state changes, along a handler move, and only the code step touches the user records |
| Bot.FirmwareBot.StepOnMedia | lumia_firmware_download_bot.py:673-721 | the upload and broadcast steps have exactly their handler's outcome and always answer; only the sender's state changes, along a handler move |
| Bot.FirmwareBot.Dispatch | lumia_firmware_download_bot.py:577-734 | a message not accepted by the sender's step is unhandled and changes nothing; an accepted one has exactly the outcome of its step's handler and is always answered; other users' states never change; a user's state only stays, ends, or goes from the type step to the code step |

## Left out

- Telegram I/O (replies, keyboards, copying, forwarding and deleting messages), HTML and MarkdownV2 formatting, and the exact reply wording are left out. Replies are constructors of `Reply`.
- Reading and writing the JSON files, and creating a missing or corrupt file, are left out. The lists are fields that the handlers reassign.
- `Bot.FirmwareBot.Download`: the hours/minutes display computed from the time left is not modelled; the reply carries the seconds left.
- `RateLimit.CheckUserLimit`: timestamps are whole seconds. The source stores them to the second and compares them with a sub-second clock, so the `>` comparison can differ by a fraction of a second.
- `Access.ParseIds`: `int()` is modelled on ASCII digits with an optional sign and single underscores between digits. Other Unicode digits that Python accepts are not modelled.
- `Text.Upper` and `Text.Lower` map ASCII letters only. Python's full Unicode case mapping is not modelled.
- The `SUPER_ADMIN` setting is reread on every call. Handlers receive the parsed list as a constant, and a setting that fails to parse (the handler would raise) is not modelled inside the handlers.
- `get_chat` is the `directory` map, and the record it creates carries the requested id. A failing `copy_message` in a broadcast is modelled by the `reachable` set.
- A `DownloadID` of `null` in the catalog is not modelled. Product codes carry a possibly empty list, and emergency files an id where 0 stands for a missing one.
- `Bot.FirmwareBot.Dispatch` models only the conversation-step handlers. The order in which telebot tries handlers, and the fact that command handlers take precedence, is not modelled.
- `/unblock`, `/text_user`, `/list_admins`, `/get_info`, `/blocked_users` and `/administrators` are left out. They change neither a stored list nor a conversation state; they only send text.
- Concurrency between handlers sharing `user_states` and the JSON files is left out.
