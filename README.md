# Live-streaming web client: session manager, validators and formatters

This project models the parts of the live-streaming web client that hold real
logic, and proves properties of them.

- **Realtime session manager** (`SocketProvider` in `src/contexts/socket.context.tsx`).
  - Its state: connection status, the current room, the presence list, the chat buffer (the last 100 lines), the notification buffer (the first 50 entries), the unread counter and the single 30-second ping timer.
  - Its security helpers: message validation against four forbidden patterns, sanitising, and room-id validation.
  - Its rate limiter: a 1 s cooldown plus at most 30 sends per sliding minute.
  - The order of the guards in every outbound action.
- **Request validators** for top-ups, withdrawals, gifts and new streams. Each builds an error list from independent checks.
- **Query builders** for the transaction history and the gift lists.
- **Display mappings and formatters**: signs, colours and icons, the uptime text, the stream-duration clock, the media room's elapsed-time clock, and the participant identities.
- **Registration form**: four field validators, live validation, whole-form validation and the submitted body.
- **Streamer's page**: tag parsing, the viewer-count clamp, the 24-hour recovery rule, and the stop and disconnect resets.
- **Media room's bookkeeping**: the bounded activity feed, the elapsed-time timer and the single performance monitor.

How the model works:
- Time is always a parameter, in milliseconds, or in whole seconds where the page counts seconds.
- What browser storage holds is a parameter as well.
- Every transport call is appended to an `outbox` sequence: each `socket.emit`, and each creation, reopening or closing of the connection.
- Each server event is a method of its own.
- Interval timers are handles, and a set records the intervals that are still running.
- Stateful components are Dafny classes whose methods state their whole new state. Validators and query builders are methods that build their list step by step, proved equal to a specification function. Everything else is a function with lemmas.

Modules:
- `JsText`, `Buffers`, `QueryString` and `ErrorLists` hold the JavaScript semantics and the shapes several files share:
  - white space, `trim`, `split` and `join`, number-to-text, `padStart`, `%` and `Math.floor`;
  - `slice(-n)` and `slice(0, n)`;
  - `URLSearchParams`;
  - a run of checks pushing errors.
- `ClockText` holds the zero-padded clock texts, and how they read back.
- `SocketSecurity`, `RateLimiting` and `SocketSession` model the session manager.
- `WalletApi`, `GiftApi`, `LiveApi` and `SystemApi` model the four API modules.
- `RegisterPage`, `StreamPage` and `LiveKitRoom` model the three components.

Ways the model follows the code rather than what the application's design describes:
- **Actions are gated on the connection flag.** On `authFailed` only the status becomes an error; `isConnected` stays true. So the actions keep emitting after an authentication failure (`OnAuthFailed`, `JoinRoomAction`).
- **Registration name length.** The name's length is checked before trimming, but the trimmed name is sent. So `" a"` passes and is sent as `"a"` (`NameCheckedUntrimmed`).
- **Media room timer.** Starting the timer does not clear a running interval (`StartTimer`). The old interval keeps updating the display, from its own start time (`TimerTick`).
- **An accepted message can be sanitised into a script scheme.** Validation looks at the raw text, and each replace in the sanitiser runs once without rescanning its own output (`AcceptedThenSanitisedToScheme`).
  - `javajava<script:script:` holds none of the four patterns, so validation accepts it (`SplitSchemeAccepted`).
  - Removing `<` gives `javajavascript:script:`. Stripping its one `javascript:` joins `java` and `script:` into `javascript:`.
  - So `sendMessage` and `chatWithAdmin` emit a text that the scheme pattern matches.
- **Recovery under clock skew.** The 24-hour rule is `elapsed < 86400`, which a start time in the future also meets. The recovered duration is then negative (`Recovered`).

## Model

| member | source | states |
|---|---|---|
| SocketSecurity.ValidateMessage | src/contexts/socket.context.tsx:98-126 | valid exactly for 1..500 characters with none of the four patterns present; empty gives the format error, over 500 the length error, and a pattern match the forbidden-content error |
| SocketSecurity.Test | src/contexts/socket.context.tsx:113-124 | a pattern test is true exactly when the pattern matches at some index of the message |
| SocketSecurity.TestFrom | src/contexts/socket.context.tsx:113-124 | the scan from index `i` is true exactly when some match starts at or after `i` |
| SocketSecurity.MatchesAt | src/contexts/socket.context.tsx:113-124 | the leftmost-match condition of each pattern at one index: `<script` with a word boundary and a later `</script>`, `javascript:`, `on` with word characters, optional space and `=`, `eval` with optional space and `(`, all without regard to case; its meaning is stated by `Test`, `ClosingTagFrom` and `EventHandlerSemantics` |
| SocketSecurity.MatchEnd | src/contexts/socket.context.tsx:113-124 | a match of the scheme pattern spans at least 11 characters and one of the handler pattern at least 4, and it ends inside the text |
| SocketSecurity.Forbidden | src/contexts/socket.context.tsx:113-124 | some denylisted pattern occurs; `ForbiddenCases` states it as the four tests |
| SocketSecurity.ForbiddenCases | src/contexts/socket.context.tsx:113-124 | a message is forbidden exactly when one of the four pattern tests is true |
| SocketSecurity.ClosingTagFrom | src/contexts/socket.context.tsx:114 | true exactly when a `</script>` in any case starts at or after the index |
| SocketSecurity.WordRunEnd | src/contexts/socket.context.tsx:116 | the greedy `\w*` run: every character in it is a word character, and the next one is not |
| SocketSecurity.SpaceRunEnd | src/contexts/socket.context.tsx:116 | the greedy `\s*` run: all white space, and the next character is not |
| SocketSecurity.WordRunUnique | src/contexts/socket.context.tsx:116 | any maximal word run from `k` ends where the greedy one does |
| SocketSecurity.SpaceRunUnique | src/contexts/socket.context.tsx:116 | any maximal white-space run from `k` ends where the greedy one does |
| SocketSecurity.EventHandlerSemantics | src/contexts/socket.context.tsx:116 | `on`, one or more word characters, optional white space and `=` is a match of the event-handler pattern ending after the `=` |
| SocketSecurity.RemoveAngles | src/contexts/socket.context.tsx:134 | every `<` and `>` is removed and every other character survives exactly as often as it occurred; the result is shorter exactly when the input held an angle bracket, and equal otherwise |
| SocketSecurity.RemoveAnglesAppend | src/contexts/socket.context.tsx:134 | removal works piece by piece, so the surviving characters keep their order |
| SocketSecurity.StripFrom | src/contexts/socket.context.tsx:135-136 | removing matches from index `i` keeps only characters of the rest of the input and never lengthens it; when a match starts there or later it removes at least the shortest match (11 characters for the scheme, 4 for a handler), and when none does it returns the rest whole |
| SocketSecurity.StripKeeps | src/contexts/socket.context.tsx:135-136 | a character where no match starts is kept and the scan goes on at the next index |
| SocketSecurity.StripCuts | src/contexts/socket.context.tsx:135-136 | a match is dropped whole and the scan resumes where it ends |
| SocketSecurity.StripKeepsRun | src/contexts/socket.context.tsx:135-136 | a stretch in which no match starts survives verbatim, and the scan goes on after it |
| SocketSecurity.Strip | src/contexts/socket.context.tsx:135-136 | a global replace keeps only characters of the input, never lengthens it, is the identity when the pattern does not match, and removes at least the shortest match (11 characters for the scheme, 4 for a handler) when it does |
| SocketSecurity.SanitizeInput | src/contexts/socket.context.tsx:128-138 | the sanitised text has no `<` or `>`, has no leading or trailing white space, and holds only characters of the input; it is no longer than the input, and shorter when the input held an angle bracket; a scheme left after angle removal costs at least 11 characters and a handler left after that at least 4; with neither, the result is the angle-free text trimmed |
| SocketSecurity.SanitizeClean | src/contexts/socket.context.tsx:128-138 | an already clean, trimmed text passes the sanitiser unchanged |
| SocketSecurity.SplitSchemeAccepted | src/contexts/socket.context.tsx:98-126 | the message `javajava<script:script:` has between 1 and 500 characters and none of the four patterns, so validation accepts it |
| SocketSecurity.AcceptedThenSanitisedToScheme | src/contexts/socket.context.tsx:98-138 | that accepted message sanitises to exactly `javascript:`, which the scheme pattern matches: removing the angle bracket joins the halves of a scheme, and stripping that scheme joins two more |
| SocketSecurity.ValidateRoomId | src/contexts/socket.context.tsx:140-147 | true exactly for 1..50 characters, all from `[A-Za-z0-9_]` |
| RateLimiting.Recent | src/contexts/socket.context.tsx:168 | the filter keeps exactly the timestamps after the cutoff and never lengthens the list |
| RateLimiting.RecentAppend | src/contexts/socket.context.tsx:168 | filtering distributes over concatenation, so survivors keep their order |
| RateLimiting.RecentTwice | src/contexts/socket.context.tsx:168 | filtering with a higher cutoff after a lower one is filtering with the higher one |
| RateLimiting.Check | src/contexts/socket.context.tsx:157-174 | the rate-check rule: refuse within the cooldown without pruning; otherwise keep the timestamps of the last minute and refuse at thirty; its contract is `CheckSpec` |
| RateLimiting.Record | src/contexts/socket.context.tsx:176-180 | the recording rule: the send time becomes the last send and joins the window; `RecordKeepsCap` states what it keeps |
| RateLimiting.CheckSpec | src/contexts/socket.context.tsx:157-174 | the cooldown refusal happens exactly within 1000 ms of the last send and prunes nothing; a check never touches the last-send time; an allowed send leaves fewer than 30 timestamps, all inside the window |
| RateLimiting.RateLimiter.constructor | src/contexts/socket.context.tsx:151-155 | a fresh limiter: the last send at time 0 and no timestamps |
| RateLimiting.RateLimiter.CanSendMessage | src/contexts/socket.context.tsx:157-174 | the verdict and the pruned state are those of the rate-check rule on the old state |
| RateLimiting.RateLimiter.RecordMessage | src/contexts/socket.context.tsx:176-180 | the last-send time becomes `now` and `now` is appended to the window |
| RateLimiting.FreshTracks | src/contexts/socket.context.tsx:151-155 | a fresh limiter tracks the empty send history |
| RateLimiting.RecentAfterAll | src/contexts/socket.context.tsx:168 | a cutoff at or after every timestamp leaves none |
| RateLimiting.CheckTracks | src/contexts/socket.context.tsx:157-174 | a check made no earlier than the clock keeps the limiter tracking the full send history; past the cooldown its window holds exactly the history's sends of the last minute |
| RateLimiting.RecordKeepsCap | src/contexts/socket.context.tsx:157-180 | an allowed check followed by recording keeps the tracking, and no sixty-second window of the send history ever holds more than 30 sends |
| SocketSession.OrElse | src/contexts/socket.context.tsx:210-214 | `a \|\| b` on a text: the given text when it is non-empty, else the fallback |
| SocketSession.GetUserInfo | src/contexts/socket.context.tsx:207-216 | the username is never empty; it is the stored username when there is one, and "Anonymous" without a profile; the id is empty exactly when no profile id is stored; the token is the stored one |
| SocketSession.JoinPayload | src/contexts/socket.context.tsx:505-510 | the join payload has the room, user id and username keys plus the caller's; the caller's fields override the defaults, and a user id or username the caller leaves out is the session user's |
| SocketSession.RoomArgument | src/contexts/socket.context.tsx:521 | the room argument if given, else the current room, else the empty text |
| SocketSession.SendOutcome | src/contexts/socket.context.tsx:538-576 | done exactly when ready, allowed by the limiter, 1..500 characters and not forbidden; otherwise the first failing check's reason: cannot send, cooldown, rate limit, then the format, length or forbidden-content error, each exactly in its own case |
| SocketSession.MessageFrom | src/contexts/socket.context.tsx:347-361 | the chat line copies the event's fields, defaults its id to the clock text, never has an empty id, and defaults its kind to text |
| SocketSession.GiftMessage | src/contexts/socket.context.tsx:373-389 | the gift line is a system line from "System" reading `<sender> sent <gift> to <receiver>` in the gift's room |
| SocketSession.NotificationFrom | src/contexts/socket.context.tsx:402-415 | the entry is unread, with the id, title, message and kind defaulted when falsy |
| SocketSession.SystemNotificationFrom | src/contexts/socket.context.tsx:427-437 | the entry is unread, of the system kind, and carries the payload's id, title and message |
| SocketSession.FindUser | src/contexts/socket.context.tsx:327 | the index found is the first record with that user id; none is found exactly when no record has it |
| SocketSession.MergeJoined | src/contexts/socket.context.tsx:330 | the event's fields over the stored record, made online; `UpsertUser` states what the presence list becomes |
| SocketSession.UpsertUser | src/contexts/socket.context.tsx:326-335 | a known user is merged in place and made online with the length unchanged; an unknown user is appended online; afterwards the user is present and online; one record per user is preserved |
| SocketSession.MarkOffline | src/contexts/socket.context.tsx:337-344 | same length and same ids; matching records go offline with a last-seen time; the others are unchanged; one record per user is preserved |
| SocketSession.MarkRead | src/contexts/socket.context.tsx:664-667 | same length; an entry becomes read exactly when it was read or has the id; nothing else changes |
| SocketSession.MarkAllRead | src/contexts/socket.context.tsx:671-672 | same length; every entry is read and nothing else changes |
| SocketSession.SocketProvider.AtMostOnePingTimer | src/contexts/socket.context.tsx:464-488 | under the session invariant at most one ping interval runs |
| SocketSession.SocketProvider.constructor | src/contexts/socket.context.tsx:190-203 | no socket, disconnected, no room, empty buffers, unread count zero, no timer, nothing sent |
| SocketSession.SocketProvider.StartPing | src/contexts/socket.context.tsx:464-480 | the previous interval is cleared and exactly one new interval for the room runs; nothing else changes |
| SocketSession.SocketProvider.StopPing | src/contexts/socket.context.tsx:483-488 | no interval runs afterwards; nothing else changes |
| SocketSession.SocketProvider.PingTick | src/contexts/socket.context.tsx:469-478 | one firing sends a viewer ping for its room exactly when a socket is connected and the room is non-empty; nothing else changes |
| SocketSession.SocketProvider.InitializeSocket | src/contexts/socket.context.tsx:219-242 | without a token nothing happens; otherwise the status becomes connecting and a connection is opened with the token and user id |
| SocketSession.SocketProvider.Reconnect | src/contexts/socket.context.tsx:699-705 | an existing socket is reopened and nothing else changes; without one and with a stored token the whole new state is that of a fresh connection: connecting, a socket with the stored identity, and one creation added to the outbox; without a token nothing happens |
| SocketSession.SocketProvider.Disconnect | src/contexts/socket.context.tsx:707-717 | the socket, if any, is closed and forgotten; the ping stops; the status is disconnected; room and presence list are cleared; messages and notifications stay |
| SocketSession.SocketProvider.OnConnect | src/contexts/socket.context.tsx:245-259 | connected, reconnect attempts reset, and the authentication handshake sent with the socket's identity |
| SocketSession.SocketProvider.OnDisconnect | src/contexts/socket.context.tsx:261-272 | disconnected, no current room, no ping interval; nothing else changes |
| SocketSession.SocketProvider.OnConnectError | src/contexts/socket.context.tsx:274-278 | only the status changes, to error |
| SocketSession.SocketProvider.OnReconnectError | src/contexts/socket.context.tsx:285-293 | one more attempt is counted, and the status becomes an error from the fifth attempt on |
| SocketSession.SocketProvider.OnAuthFailed | src/contexts/socket.context.tsx:301-305 | only the status changes, to error; the connection flag stays |
| SocketSession.SocketProvider.OnJoinedRoom | src/contexts/socket.context.tsx:314-319 | the room becomes current and a single ping interval for it runs |
| SocketSession.SocketProvider.OnUserJoined | src/contexts/socket.context.tsx:326-335 | the presence list becomes the upsert of the event's user |
| SocketSession.SocketProvider.OnUserLeft | src/contexts/socket.context.tsx:337-344 | the presence list marks that user offline at the clock time |
| SocketSession.SocketProvider.OnNewMessage | src/contexts/socket.context.tsx:347-361 | the line is appended and only the last 100 are kept |
| SocketSession.SocketProvider.OnNewGift | src/contexts/socket.context.tsx:373-389 | the gift line is appended and only the last 100 are kept |
| SocketSession.SocketProvider.OnNotification | src/contexts/socket.context.tsx:402-425 | the entry is prepended, only the first 50 are kept, and the unread count goes up by exactly one |
| SocketSession.SocketProvider.OnSystemNotification | src/contexts/socket.context.tsx:427-438 | the same for a system notice |
| SocketSession.SocketProvider.JoinRoomAction | src/contexts/socket.context.tsx:491-519 | done exactly when a socket is connected and the id is valid; the not-connected refusal comes first, and a disconnected session is always refused without emitting; nothing but the join request is emitted, and the current room is not set |
| SocketSession.SocketProvider.LeaveRoomAction | src/contexts/socket.context.tsx:521-536 | done exactly with a socket and a non-empty room (argument or current); then the leave request is sent, the room forgotten and the ping stopped; otherwise nothing changes |
| SocketSession.SocketProvider.SendMessageAction | src/contexts/socket.context.tsx:538-576 | the outcome is the send rule `SendOutcome` of the readiness, the limiter's verdict and the message; the limiter is untouched before its turn, keeps its pruning on a refusal after it, and records the send only on success; the sanitised text is the only emit |
| SocketSession.SocketProvider.SendImageMessageAction | src/contexts/socket.context.tsx:578-602 | done exactly when connected with a room; the image is emitted as given |
| SocketSession.SocketProvider.SendGiftAction | src/contexts/socket.context.tsx:604-627 | done exactly when connected with a current room; the payload's room and sender are the session's own |
| SocketSession.SocketProvider.ChatWithAdminAction | src/contexts/socket.context.tsx:629-652 | done exactly when connected; the sanitised text goes out with the support type, "general" by default |
| SocketSession.SocketProvider.ClearMessages | src/contexts/socket.context.tsx:655-657 | only the chat buffer empties |
| SocketSession.SocketProvider.ClearNotifications | src/contexts/socket.context.tsx:659-662 | the notifications empty and the unread count is zero |
| SocketSession.SocketProvider.MarkNotificationAsRead | src/contexts/socket.context.tsx:664-669 | matching entries become read and the unread count drops by one but never below zero |
| SocketSession.SocketProvider.MarkAllNotificationsAsRead | src/contexts/socket.context.tsx:671-674 | every entry is read and the unread count is zero |
| SocketSession.SocketProvider.GetHealthStatus | src/contexts/socket.context.tsx:676-686 | the reported counts respect the buffer bounds and the unread count is non-negative |
| SocketSession.SocketProvider.GetConnectionInfo | src/contexts/socket.context.tsx:688-697 | reports the connection flag, the attempt count and the limit of five attempts |
| JsText.Trim | src/contexts/socket.context.tsx:137 | `trim()`: the result has no leading or trailing white space and holds only characters of the input; it is empty exactly when the input is all white space, otherwise the slice between the white-space runs; a trimmed text is unchanged |
| JsText.Split | src/pages/Stream.tsx:427 | `split(sep)`: at least one piece, and no piece holds the separator |
| JsText.Join | src/pages/Stream.tsx:427 | `join(sep)`, the inverse of `split`: the pieces with the separator between them; `JoinSplit` and `SplitJoin` state the round trips |
| JsText.JoinSplit | src/pages/Stream.tsx:427 | joining the pieces of a split gives the text back |
| JsText.SplitJoin | src/pages/Stream.tsx:427 | splitting a join of separator-free pieces gives the pieces back |
| JsText.PadStart2 | src/pages/Stream.tsx:258 | `padStart(2, '0')`: at least two characters; a text of two or more is unchanged, a shorter one ends with itself after zeros |
| Buffers.AppendBounded | src/contexts/socket.context.tsx:360 | after appending and keeping the last `n`: the length is min(old + 1, n), the new item is last, and the rest is a suffix of the old buffer |
| Buffers.PrependBounded | src/contexts/socket.context.tsx:414 | after prepending and keeping the first `n`: the length is min(old + 1, n), the new item is first, and the rest is a prefix of the old buffer |
| Buffers.KeepLastAppend | src/contexts/socket.context.tsx:360 | trimming before each append gives the same buffer as trimming once at the end |
| Buffers.KeepFirstPrepend | src/contexts/socket.context.tsx:414 | the same for the front-kept buffer |
| Buffers.BoundedHistory | src/contexts/socket.context.tsx:360 | feeding any number of lines one at a time keeps exactly the last `n` of all of them |
| Buffers.EvictsOldest | src/contexts/socket.context.tsx:360 | one line past the bound evicts exactly the oldest |
| WalletApi.ValidateTopupData | src/apis/wallet.api.ts:117-133 | the errors are those of the failing checks (minimum, maximum, note), in order |
| WalletApi.TopupErrorsExact | src/apis/wallet.api.ts:117-133 | no errors exactly for 10,000..10,000,000 with a short or absent note; each error is listed exactly when its check fails; errors come in check order; an amount of zero reports the minimum first |
| WalletApi.BlankIsEmptyTrim | src/apis/wallet.api.ts:145-155 | the white-space reading of "blank" agrees with `!x \|\| x.trim().length === 0` |
| WalletApi.ValidateWithdrawData | src/apis/wallet.api.ts:135-163 | the errors are those of the failing checks (minimum, balance, three required fields, note), in order |
| WalletApi.WithdrawRanked | src/apis/wallet.api.ts:135-163 | the withdrawal checks report errors of rising rank |
| WalletApi.WithdrawAccepted | src/apis/wallet.api.ts:135-163 | no errors exactly when 50,000 <= amount <= balance, the three fields are non-blank and the note is short or absent |
| WalletApi.WithdrawErrorsNamed | src/apis/wallet.api.ts:135-163 | each withdrawal error is listed exactly when its check fails, and no top-up error ever is |
| WalletApi.WithdrawErrorsOrdered | src/apis/wallet.api.ts:135-163 | the withdrawal errors come in check order |
| WalletApi.BothAmountErrors | src/apis/wallet.api.ts:138-144 | with a balance under the minimum, an amount between the two reports both amount errors, minimum first |
| WalletApi.TransactionStatusColor | src/apis/wallet.api.ts:173-183 | approved and completed share green, rejected and failed share red, pending is yellow, and every other status is gray |
| WalletApi.TransactionTypeIcon | src/apis/wallet.api.ts:185-194 | an unknown type gets the money-bag fallback |
| WalletApi.TransactionTypeColor | src/apis/wallet.api.ts:196-205 | an unknown type gets gray |
| WalletApi.TypeMappingsDistinct | src/apis/wallet.api.ts:185-205 | the five types have pairwise distinct icons and colours, none of them the fallback |
| WalletApi.FormatTransactionAmount | src/apis/wallet.api.ts:207-210 | the sign is `+` exactly for top-ups, rewards and referrals, and `-` otherwise; the magnitude is the absolute amount |
| WalletApi.SignedAmountValue | src/apis/wallet.api.ts:207-210 | applying the sign to the magnitude gives back the amount for credits and its negation for debits |
| WalletApi.TransactionHistoryQuery | src/apis/wallet.api.ts:104-114 | the query holds exactly the truthy parameters, page, limit, type, status in that order, and the URL is the endpoint with that query |
| QueryString.NumberValue | src/apis/wallet.api.ts:107-108 | a number parameter is appended exactly when present and non-zero, as its decimal text |
| QueryString.Present | src/apis/wallet.api.ts:106-111 | a parameter is in the query exactly when its candidate is truthy, and the query is never longer than the candidates |
| QueryString.PresentAppend | src/apis/wallet.api.ts:106-111 | the query of a chain of appends is the queries of its parts in order |
| QueryString.PresentOne | src/apis/wallet.api.ts:107 | one `if (params.x) append` step appends exactly when the value is truthy |
| QueryString.FirstIndex | src/apis/wallet.api.ts:113 | the first `=` of a piece, or its end |
| QueryString.ParseRender | src/apis/wallet.api.ts:113 | a parameter free of separators reads back from `name=value` |
| QueryString.ParseSerialize | src/apis/wallet.api.ts:113 | a serialised query of such parameters reads back as the same parameters in the same order |
| GiftApi.ValidateGiftData | src/apis/gift.api.ts:205-215 | the errors are those of the failing checks (gift id, receiver, too few, too many, message), in order |
| GiftApi.GiftErrorsExact | src/apis/gift.api.ts:205-215 | no errors exactly when both ids are non-empty, 1 <= quantity <= 100 and the message is short or absent; each error is listed exactly when its check fails; errors come in check order |
| GiftApi.ZeroQuantity | src/apis/gift.api.ts:210-211 | a quantity of zero reports "at least 1" and never "at most 100" |
| GiftApi.FormatGiftPrice | src/apis/gift.api.ts:217-223 | "Free" exactly for a zero price; otherwise the price itself goes to the currency formatter |
| GiftApi.GiftRarityColor | src/apis/gift.api.ts:225-233 | common and every unknown rarity share the common colour |
| GiftApi.GiftRarityBadge | src/apis/gift.api.ts:235-243 | common and every unknown rarity share the common badge |
| GiftApi.RarityMappingsDistinct | src/apis/gift.api.ts:225-243 | the four rarities have pairwise distinct colours and badges |
| GiftApi.AllGiftsQuery | src/apis/gift.api.ts:129-140 | the query holds exactly the truthy parameters, page, limit, category, status, rarity in that order |
| GiftApi.PagedListQuery | src/apis/gift.api.ts:143-202 | the reward, premium, sent and received lists take only the truthy page and limit, page first |
| LiveApi.ValidateStreamData | src/apis/live.api.ts:163-190 | the errors are those of the failing checks (title required, title too long, description too long, bad thumbnail), in order, and valid exactly when there are none |
| LiveApi.StreamErrorsExact | src/apis/live.api.ts:163-190 | no errors exactly for a visible title of at most 100 characters, a description of at most 500 and a parseable thumbnail when one is given; the two title errors are reported exactly under their conditions; errors come in check order |
| LiveApi.BlankLongTitle | src/apis/live.api.ts:170-176 | a white-space title longer than 100 characters reports both "required" and "too long", in that order |
| LiveApi.DropSpaces | src/apis/live.api.ts:156 | the result is the input without its leading run of white space: a suffix of the input, all of whose dropped prefix is white space, and which does not start with white space; text without white space is unchanged |
| LiveApi.CollapseSpaces | src/apis/live.api.ts:156 | the result has no white space, is no longer than the input, and equals text that has none |
| LiveApi.DropAppend | src/apis/live.api.ts:156 | dropping the leading white space of a concatenation drops it from the second part once the first is all white space |
| LiveApi.CollapseRun | src/apis/live.api.ts:156 | a non-empty run of white space becomes exactly one underscore |
| LiveApi.CollapseAppend | src/apis/live.api.ts:156 | the replacement works piece by piece wherever the cut does not split a run of white space; with the run and identity facts this determines it |
| LiveApi.CollapseIdempotent | src/apis/live.api.ts:156 | collapsing twice is collapsing once |
| LiveApi.StreamerIdentity | src/apis/live.api.ts:142-146 | `streamer_` then the user id and the timestamp, or without a user id the timestamp and the random suffix |
| LiveApi.StreamerIdentityTimestamp | src/apis/live.api.ts:142-146 | a user's streamer identity ends in the timestamp's digits, which read back as the timestamp |
| LiveApi.ViewerIdentity | src/apis/live.api.ts:149-160 | `viewer_` then the user id, else the collapsed display name, else the guest form; the name form holds no white space |
| LiveApi.NameSuffixNoSpace | src/apis/live.api.ts:156 | the collapsed name with its timestamp holds no white space |
| SystemApi.UptimeParts | src/apis/system.api.ts:77-81 | for non-negative input: days >= 0, hours < 24, minutes < 60, and the fields recombine to the input rounded down to the minute |
| SystemApi.UptimeSplit | src/apis/system.api.ts:78-80 | days, hours of the day, minutes of the hour and seconds of the minute recombine to the whole |
| SystemApi.FormatUptime | src/apis/system.api.ts:77-89 | the text ends in "m"; it holds "d" exactly when there are days, and "h" exactly when there are days or hours |
| SystemApi.FormatParts | src/apis/system.api.ts:82-88 | the three texts by which units are present; `UnitLetters`, `FormatIsJoin` and `FieldsSum` state its letters, its fields and its value |
| SystemApi.UnitLetters | src/apis/system.api.ts:82-88 | the same letter facts for any three fields |
| SystemApi.FieldRoundTrip | src/apis/system.api.ts:82-88 | one `<digits><unit>` field reads back as its seconds |
| SystemApi.FormatIsJoin | src/apis/system.api.ts:82-88 | the text is its fields joined by single spaces, leading zero fields dropped |
| SystemApi.FieldsSum | src/apis/system.api.ts:82-88 | the fields read back as the seconds they stand for, and none holds a space |
| SystemApi.UptimeRoundTrip | src/apis/system.api.ts:77-89 | the uptime text reads back as the uptime rounded down to the minute |
| SystemApi.ServiceStatusColor | src/apis/system.api.ts:49-56 | connected, disconnected and connecting get green, red and yellow, and exactly the rest get gray |
| SystemApi.EnvironmentColor | src/apis/system.api.ts:58-65 | production, development and staging get green, yellow and blue, and exactly the rest get gray |
| ClockText.PaddedDigits | src/pages/Stream.tsx:257-260 | a padded number is at least two digits, holds no colon, and reads back as the number |
| ClockText.Clock2Pieces | src/pages/Stream.tsx:260 | `MM:SS` splits at its colon into the two padded numbers |
| ClockText.Clock3Pieces | src/pages/Stream.tsx:258 | `HH:MM:SS` splits at its colons into the three padded numbers |
| ClockText.ClockRoundTrip2 | src/pages/Stream.tsx:260 | `MM:SS` reads back as its seconds, in two fields of at least two digits |
| ClockText.ClockRoundTrip3 | src/pages/Stream.tsx:258 | `HH:MM:SS` reads back as its seconds, in three fields of at least two digits |
| ClockText.HoursSplit | src/pages/Stream.tsx:253-255 | hours, minutes of the hour and seconds of the minute recombine to the whole |
| StreamPage.DurationSplit | src/pages/Stream.tsx:252-255 | for non-negative input: minutes and seconds below 60, the fields recombine exactly, and hours are positive exactly from one hour on |
| StreamPage.FormatDuration | src/pages/Stream.tsx:252-261 | `HH:MM:SS` from one hour on and `MM:SS` below; `DurationRoundTrip` states how it reads back |
| StreamPage.DurationRoundTrip | src/pages/Stream.tsx:252-261 | the duration text reads back as the seconds, with three fields from one hour on and two below, each at least two digits |
| StreamPage.TagOf | src/pages/Stream.tsx:427 | one piece gives exactly one tag, its trimmed text, when that is non-empty, and nothing otherwise |
| StreamPage.KeepTags | src/pages/Stream.tsx:427 | every kept tag is non-empty and trimmed, and there are no more tags than pieces |
| StreamPage.KeepTagsFrom | src/pages/Stream.tsx:427 | every tag is the trimmed text of one of the pieces |
| StreamPage.KeepTagsAppend | src/pages/Stream.tsx:427 | the tags of consecutive pieces come in input order |
| StreamPage.ParseTags | src/pages/Stream.tsx:427 | every tag is non-empty, trimmed and free of commas |
| StreamPage.KeepTagsFixed | src/pages/Stream.tsx:427 | clean tags are kept as they are |
| StreamPage.TagsRoundTrip | src/pages/Stream.tsx:427 | clean tags typed in joined by commas parse back to the same tags |
| StreamPage.Recovered | src/pages/Stream.tsx:264-290 | a readable record with a start time is recovered exactly when fewer than 86,400 whole seconds have passed, with its ids, token and elapsed seconds |
| StreamPage.RecoverWithinDay | src/pages/Stream.tsx:271-280 | a stream looked at within the day comes back with its ids and an elapsed time in 0..86,399 |
| StreamPage.ForgetAfterDay | src/pages/Stream.tsx:281-284 | a record a day old or more is dropped |
| StreamPage.StreamPage.constructor | src/pages/Stream.tsx:30-50 | the set-up form: not streaming, no ids or token, zero viewers and duration, no tags, and the stored entry as found |
| StreamPage.StreamPage.OpenFromAddress | src/pages/Stream.tsx:52-63 | a room and a token in the address start the stream view with them; otherwise nothing changes |
| StreamPage.StreamPage.DurationTick | src/pages/Stream.tsx:66-76 | the counter advances by one second exactly while streaming |
| StreamPage.StreamPage.StreamCreated | src/pages/Stream.tsx:84-97 | the new stream's ids and token are shown and saved with the start time |
| StreamPage.StreamPage.HandleDisconnect | src/pages/Stream.tsx:234-244 | not streaming, ids and token cleared, zero viewers and duration, and the saved entry forgotten |
| StreamPage.StreamPage.HandleStopStream | src/pages/Stream.tsx:206-218 | refused exactly without a stream id; a successful stop disconnects, and otherwise nothing changes |
| StreamPage.StreamPage.HandleParticipantChange | src/pages/Stream.tsx:247-249 | the viewer count becomes the reported count, or zero for a count that is not positive |
| StreamPage.StreamPage.OnTagsInput | src/pages/Stream.tsx:426-428 | the tags become the parse of the input; nothing else changes |
| StreamPage.StreamPage.Recover | src/pages/Stream.tsx:264-290 | while not streaming, a saved entry is restored when the recovery rule allows and removed when it does not; otherwise nothing changes |
| RegisterPage.ValidateName | src/pages/Register.tsx:40-45 | "required" exactly for a blank name; then "too short" and "too long" exactly by the raw length outside 2..50 |
| RegisterPage.NameCheckedUntrimmed | src/pages/Register.tsx:40-45 | `" a"` passes although its trimmed text has one letter |
| RegisterPage.EmailShape | src/pages/Register.tsx:49-50 | the address pattern matches exactly a text without white space with a single `@`, not first, followed later by a dot with text on both sides |
| RegisterPage.MatchHasShape | src/pages/Register.tsx:49-50 | a match has that shape |
| RegisterPage.ShapeMatches | src/pages/Register.tsx:49-50 | a text of that shape matches |
| RegisterPage.EmailUntrimmed | src/pages/Register.tsx:49-50 | a matching address has nothing to trim |
| RegisterPage.ValidateEmail | src/pages/Register.tsx:47-52 | "required" exactly for a blank address, "invalid" exactly for a non-blank one that does not match, and no error exactly for a match |
| RegisterPage.ValidatePassword | src/pages/Register.tsx:54-58 | "required" exactly when empty, "too short" for 1..5 characters, and no error from six on |
| RegisterPage.ValidateConfirmPassword | src/pages/Register.tsx:60-64 | "required" exactly when empty, "mismatch" exactly when it differs, and no error exactly when it is the password |
| RegisterPage.FormValidExactly | src/pages/Register.tsx:98-108 | a form has no errors exactly when the name, address and passwords all qualify |
| RegisterPage.SetError | src/pages/Register.tsx:71-94 | setting one field's error changes that field only |
| RegisterPage.FieldError | src/pages/Register.tsx:76-90 | the live check of a field is that field's error in the whole-form validation of the edited form |
| RegisterPage.ErrorsExtensional | src/pages/Register.tsx:71-94 | error records that agree field by field are equal |
| RegisterPage.RegisterPage.constructor | src/pages/Register.tsx:30-37 | an empty form without errors, nothing sent |
| RegisterPage.RegisterPage.HandleInputChange | src/pages/Register.tsx:67-95 | the field takes the value and its error becomes the live check's verdict; the other errors stay |
| RegisterPage.RegisterPage.ValidateForm | src/pages/Register.tsx:98-108 | every field's error is shown, and the result is true exactly when there is none |
| RegisterPage.RegisterPage.HandleSubmit | src/pages/Register.tsx:159-180 | sends exactly when the form validates, with the trimmed name, the address (which, having validated, has nothing to trim) and the password as typed; otherwise nothing is sent |
| LiveKitRoom.ActivityIcon | src/components/LiveKit/LiveKitRoom.tsx:51-60 | one icon for each of the five kinds; `IconsDistinct` states that no two kinds share one |
| LiveKitRoom.IconsDistinct | src/components/LiveKit/LiveKitRoom.tsx:51-60 | different kinds have different icons |
| LiveKitRoom.TimerSplit | src/components/LiveKit/LiveKitRoom.tsx:148-158 | for a non-negative difference: minutes and seconds below 60, and the fields recombine to the whole seconds elapsed |
| LiveKitRoom.TimerText | src/components/LiveKit/LiveKitRoom.tsx:148-158 | always `HH:MM:SS` of the split; `TimerRoundTrip` states how it reads back |
| LiveKitRoom.WholeSeconds | src/components/LiveKit/LiveKitRoom.tsx:151-153 | splitting the milliseconds agrees with splitting the whole seconds they hold |
| LiveKitRoom.DivUnique | src/components/LiveKit/LiveKitRoom.tsx:151-153 | division with remainder by 1000, 60,000 or 3,600,000 is unique |
| LiveKitRoom.TimerRoundTrip | src/components/LiveKit/LiveKitRoom.tsx:148-158 | the display always has three fields of at least two digits and reads back as the whole seconds elapsed |
| LiveKitRoom.StoppedDisplay | src/components/LiveKit/LiveKitRoom.tsx:164-170 | the stopped display `00:00:00` is the display of no time elapsed |
| LiveKitRoom.MediaRoom.AtMostOneMonitor | src/components/LiveKit/LiveKitRoom.tsx:173-215 | under the room invariant at most one monitor interval runs |
| LiveKitRoom.MediaRoom.constructor | src/components/LiveKit/LiveKitRoom.tsx:110-118 | an empty feed, the zero display `00:00:00`, no timer and no monitor |
| LiveKitRoom.MediaRoom.AddActivity | src/components/LiveKit/LiveKitRoom.tsx:121-141 | the new item is first, the feed keeps at most 50, and the rest is a prefix of the old feed |
| LiveKitRoom.MediaRoom.StartTimer | src/components/LiveKit/LiveKitRoom.tsx:144-162 | a new interval measuring from the start time is controlled and the display is brought up to date; a running interval is not cleared |
| LiveKitRoom.MediaRoom.TimerTick | src/components/LiveKit/LiveKitRoom.tsx:148-158 | a firing shows the time since that interval's start |
| LiveKitRoom.MediaRoom.StopTimer | src/components/LiveKit/LiveKitRoom.tsx:164-170 | the controlled interval is cleared and the display goes back to `00:00:00` |
| LiveKitRoom.MediaRoom.StartPerformanceMonitoring | src/components/LiveKit/LiveKitRoom.tsx:173-208 | nothing happens while a monitor exists; otherwise exactly one new monitor runs |
| LiveKitRoom.MediaRoom.StopPerformanceMonitoring | src/components/LiveKit/LiveKitRoom.tsx:210-215 | the monitor, if any, is cleared |

## Left out

- **Transport, log output and translations.**
  - The socket library's connection, its reconnection back-off and its acknowledgements are outside the model; a transport call is one entry in the outbox.
  - Toasts, `console` output and translated texts are outside it too; a refusal is a reason value.
- **React rendering, memoisation and effects.** The model has one state per component, not one closure per render.
  - `initializeSocket` is memoised on `[getUserInfo, t]` (src/contexts/socket.context.tsx:461). Its `joinedRoom` handler (:314-319) therefore calls the `startPing` of the first render, whose closure holds `socket === null`. That interval never sends a viewer ping (:469-478).
  - The mount effect (:720-730) depends on `disconnect`, which depends on `socket` (:707-717). Each `setSocket` runs the effect's cleanup, which disconnects, and then its body, which connects again. The model treats mounting as one `InitializeSocket` call.
  - The media room's unmount cleanup (src/components/LiveKit/LiveKitRoom.tsx:333-338) sees the first render's `performanceMonitor`, which is null, so it never clears a monitor.
- `SocketSession.SocketProvider.PingTick`: it reads the socket and the connection flag when it fires, so it pings whenever connected in a room. The source's interval, reached through the stale `startPing` above, sees no socket and never sends a ping.
- **Creating a connection while one exists.** `InitializeSocket` starts the new connection without modelling how the old one is torn down.
- **A guard the types rule out.** `SecurityUtils` also rejects a value that is not text, which typed callers cannot pass.
- **Text length.** JavaScript counts string length in UTF-16 code units; the model counts characters, which differs for characters outside the Basic Multilingual Plane.
- **Percent-encoding.** `URLSearchParams` encodes its output; the query round trip is stated for parameters without separators.
- **Locale-dependent formatting.** `Intl.NumberFormat` and `toLocaleTimeString` are data or parameters, not modelled: the price and amount labels carry the number to be formatted, and the feed item takes its time text as an argument.
- **Opaque inputs.** The `URL` constructor behind `isValidUrl`, `Math.random` and the clock are parameters.
- **Floating point.** Left out:
  - `formatFileSize`;
  - the packet-loss rate in the performance monitor's callback;
  - fractional seconds and NaN amounts (`formatUptime` and `formatTransactionAmount` take whole numbers).
- **HTTP calls, mutations and their callbacks.** The API calls themselves are outside the model. So is the registration page's server-error handling, including the 409 and 400 details and the `isSubmitting` flag.
- **The media SDK.** The LiveKit room events, track handling, audio playback and the statistics read by the monitor are outside the model.
- `LiveKitRoom.MediaRoom.StartTimer`: the immediate update reads the clock again; the model shows zero elapsed at that moment.
- **Media room event wiring.** `roomRef.current` is set only inside `handleRoomEvents` (src/components/LiveKit/LiveKitRoom.tsx:219). `onConnected` calls `handleRoomEvents` only when `roomRef.current` is already set (:348-352). So, as wired, the timer, the monitor and the join, leave and welcome feed entries never start. The model states what each operation does when it is called.
- `SocketSession.SocketProvider.SendMessageAction`: one `now` stands for the three clock reads of `sendMessage`, made by the limiter's check, the message timestamp and the recording; the model assumes no time passes between them.
- `SocketSession.JoinPayload`: the caller's `userData` is a map from text to text, where the source accepts a record of any values.
- `SocketSession.NotificationFrom`: the `data` field the entry carries (`data.data || {}`) is not modelled.
- `LiveKitRoom.ActivityIcon`: the fallback icon for an unknown kind is not modelled, since the feed item's kind is one of the five typed kinds.
