# EF-PRIME-MD session manager and command plugins, modelled in Dafny

EF-PRIME-MD runs several WhatsApp bot sessions in one Node.js process. This
project models the three decision layers inside it and proves properties of them:

1. **The session registry and the connection state machine** (`index.js`).
   The registry is the process-wide `activeBots` map. The model has:
   - `startBot`, which creates the session directory, imports the token and brings up a socket;
   - the `connection.update` callback of each socket: restart on a close, removal on a logout, the
     first `open`, and QR codes;
   - the `/api/sessions` handlers: list, create (with rollback), QR lookup and delete.

   The model is a class, `SessionRegistry.SessionManager`. Its fields are:
   - the registry, as a JavaScript `Map` that keeps insertion order (`JsMap`);
   - the session directories;
   - the `creds.json` contents;
   - the sockets, each with the state its callback closure captures (session name, QR pairing flag,
     `initialConnection`).

   The asynchronous callbacks run one at a time on the event loop, so each handler is one step. The
   exception is a QR-mode create: it waits two seconds for the socket's first events, so it is two steps
   (`CreateSession`, then `FinishQrCreate`). Socket events can be delivered between them.
2. **The session-token envelope** (`downloadSessionData`).
   - A token that starts with `http` is fetched first. Any other token is the data itself.
   - The data must start with `EF-PRIME;;;`.
   - The payload is the piece after that marker, up to the next marker or the end, trimmed (`SessionToken`).
3. **The command plugins**:
   - shared command and argument extraction (`Command`);
   - `block`: owner check, choice of target, protection of the bot and the owners;
   - `promote`: command gate, group and admin checks in order, choice of users, display names;
   - `tiktok`: the address pattern and the 100-character description cut;
   - `movie` (IMDb): the ratings lines and the "N/A" defaults.

Foreign calls are parameters of the operations that depend on them:
- what a token address returned;
- whether the protocol client came up;
- the base64 decoder;
- the answers of the download and search services;
- group metadata, contact lookups, and whether block or promote succeeded.

`JsString` models the JavaScript string operations the code uses: `startsWith`, `slice`, `split`,
`join`, `trim`, the `/[^0-9]/g` filter and `toLowerCase`. The `substring` cut of the TikTok description
is modelled in `TikTokCommand.ShownDescription`. `JsString` also proves, for example, that a
`split` followed by a `join` gives back the string, so `args.join(" ")` is the trimmed argument text.

## Model

| member | source | states |
|---|---|---|
| SessionToken.SessionData | index.js:48-53 | a token starting with `http` yields what the fetch returned (nothing if it failed); any other token is used verbatim |
| SessionToken.Import | index.js:55-60 | a failed fetch, data without the `EF-PRIME;;;` prefix (rejected, nothing written), or a payload; a payload only when the data has the marker |
| SessionToken.PayloadIsNextSegment | index.js:60 | the payload is the text from the end of the leading marker to the next marker occurrence (or the end), trimmed |
| SessionToken.EnvelopeRoundTrip | index.js:55-60 | `EF-PRIME;;;` followed by base64 text imports to exactly that text, whatever a fetch would return |
| SessionToken.NoMarkerInBase64 | index.js:60 | the marker never occurs inside base64 text |
| SessionRegistry.Downloaded | index.js:80-87 | a payload is written exactly when a token is given and imports successfully, and it is the base64 payload the import produced |
| SessionRegistry.SessionManager.StartBot | index.js:72-105 | makes the directory and writes the decoded payload. Fails before any socket exists when the token fails and QR pairing is off. Otherwise creates exactly one socket with `initialConnection` set when the client comes up. Never touches the registry |
| SessionRegistry.AfterConnection | index.js:110-135 | a logged-out close removes the session and only it; the socket's first `open` sets `{connected, jid}` without QR code, keeping an existing key in its place and appending a new one; any other close, or a later `open`, leaves the registry unchanged |
| SessionRegistry.AfterQr | index.js:138-152 | with a QR code and QR pairing, the entry becomes `waiting_for_scan` with that code and keeps its other fields; a missing entry is created with this socket; otherwise nothing changes; other entries never change |
| SessionRegistry.SessionManager.OnConnectionUpdate | index.js:107-153 | the registry after the callback is the connection part followed by the QR part. A non-logout close restarts the same session name with no token and no QR pairing. A first `open` clears the flag. Keeps the invariant that a QR code is held exactly while an entry waits for a scan |
| SessionRegistry.SessionManager.ConnectionHalf | index.js:110-135 | the registry after the `connection` branch is `AfterConnection`. A non-logout close runs the restart. The first `open` clears the socket's flag and keeps its session name |
| SessionRegistry.SessionManager.QrHalf | index.js:138-152 | the registry after the QR branch is `AfterQr`, and only the registry changes |
| SessionRegistry.PairingThenOpen | index.js:118-152 | placeholder, then QR code (`waiting_for_scan`), then first `open`: a connected entry without QR code at the same position; a second `open` changes nothing |
| SessionRegistry.SessionManager.ListSessions | index.js:598-616 | one view per entry in insertion order: name, status, `jid` or null, and `qrAvailable` true exactly when the entry waits for a scan |
| SessionRegistry.SessionManager.CreateSession | index.js:618-681 | 400 with no change for an empty name, an existing name, or the token method without a token. QR mode registers an `initializing` placeholder before starting. A successful token-mode start gives 200, writes the payload and creates one socket (no QR pairing). A failed one gives 500, removes the directory and the entry, and creates no socket |
| SessionRegistry.SessionManager.Rollback | index.js:664-673 | after a failed start: the entry, if any, the directory and its credentials are removed; nothing else changes |
| SessionRegistry.SessionManager.FinishQrCreate | index.js:645-676 | after the wait: the QR code if the entry has one; otherwise 200 for a started bot, or 500 with the entry and the directory removed and the sockets untouched |
| SessionRegistry.SessionManager.QrCode | index.js:683-702 | 404 when the entry or its QR code is missing, otherwise the code; answers 200 exactly when the entry waits for a scan |
| SessionRegistry.SessionManager.DeleteSession | index.js:704-735 | 404 and no change for an unknown name. Otherwise the entry's socket, if any, is closed, the entry is removed and the directory deleted |
| SessionRegistry.SessionManager.constructor | index.js:40 | the process starts with an empty registry over the directories already on disk |
| Command.Cmd | plugins/TikTok.js:6 | "" without the prefix; otherwise a word without spaces that fits in the body after the prefix |
| Command.Rest | plugins/promote.js:8 | the argument text is no longer than the body and neither starts nor ends with white space; `CommandIsFirstWord` places it as the trimmed remainder of the body after the command word |
| Command.Args | plugins/TikTok.js:7-14 | the argument array is never empty, and joining it with spaces gives the argument text back |
| Command.CommandIsFirstWord | plugins/TikTok.js:6-7 | `cmd` is the lowered first space-free word after the prefix, or "" without the prefix. The argument text is the rest of the body, trimmed |
| BlockCommand.OwnerJids | plugins/block.js:32 | one identifier per comma-separated owner entry: its digits followed by `@s.whatsapp.net` |
| BlockCommand.IsCreator | plugins/block.js:8 | the sender is a creator exactly when it is the bot, or the digits of one comma-separated owner entry followed by `@s.whatsapp.net` |
| BlockCommand.InOwnerJids | plugins/block.js:32 | being in the owner list is being the digits of one owner entry followed by `@s.whatsapp.net` |
| BlockCommand.UserPartIsPrefix | plugins/block.js:59 | the part shown on success is the whole text of the target before its first `@`: a prefix without `@`, followed by `@` or the whole target |
| BlockCommand.UserPartOfNumber | plugins/block.js:23-27 | a number-derived identifier shows its digits before `@` |
| BlockCommand.SelectTarget | plugins/block.js:17-30 | target priority: first set mention, then the quoted sender, then the digits of the arguments. No arguments asks for a target. Fewer than ten digits is refused. Ten or more select exactly the digits followed by `@s.whatsapp.net` |
| BlockCommand.Block | plugins/block.js:5-65 | fires exactly when the lowered body starts with prefix + `block`. Non-creators are refused. A refused selection gives its reply. The bot and the owners are protected. Any other target is blocked when the update succeeds, with the text before `@` shown, and is reported failed otherwise |
| BlockCommand.OwnerNumberTarget | plugins/block.js:23-32 | arguments whose digits are an owner's entry select exactly that owner's identifier |
| BlockCommand.OwnerNumberIsProtected | plugins/block.js:23-35 | an owner's own number typed as the argument is refused like the owner |
| PromoteCommand.AdminOf | plugins/promote.js:17-18 | the admin value of the first participant with that id, and "" when no participant has that id |
| PromoteCommand.AddQuotedMention | plugins/promote.js:23-25 | the mention list is created if missing and the quoted participant is appended when set |
| PromoteCommand.Users | plugins/promote.js:27-31 | the non-empty mention list; else the number in the text as an identifier; empty exactly when there are no mentions and the text has no digit |
| PromoteCommand.ValidUsers | plugins/promote.js:37 | exactly the non-empty identifiers remain, and a list without "" is kept as it is |
| PromoteCommand.ValidUsersOne | plugins/promote.js:37 | one identifier is kept exactly when it is not empty |
| PromoteCommand.ValidUsersAppend | plugins/promote.js:37 | filtering a concatenation is filtering each part in turn, so order and repeats are kept |
| PromoteCommand.DisplayName | plugins/promote.js:43-47 | `notify` if set, else `pushname` if set, else the identifier before `@`; a failed lookup (no contact) also gives the identifier before `@` |
| PromoteCommand.Handles | plugins/promote.js:39-55 | one `@name` per valid user, in order, each from that user's display name |
| PromoteCommand.FallbackName | plugins/promote.js:45-47 | with no usable contact name, the display name is the whole text of the identifier before its first `@` |
| PromoteCommand.Finish | plugins/promote.js:33-58 | nobody to promote asks for a user. Otherwise the valid users are promoted and the reply joins their `@name`s with ", ". A failed update reports the failure for those users |
| PromoteCommand.Promote | plugins/promote.js:3-63 | only `promote`, `admin` and `toadmin` proceed. Non-group, bot-not-admin and sender-not-admin are rejected in that order. The message's mention list changes only past these gates |
| TikTokCommand.UrlMatchesPattern | plugins/TikTok.js:16-18 | the address check accepts exactly what `^(https?://)?(www\.)?(tiktok\.com\|vm\.tiktok\.com)` matches |
| TikTokCommand.UrlAcceptedMatches | plugins/TikTok.js:16 | an accepted address matches the pattern with the choices the check made |
| TikTokCommand.UrlMatchAccepted | plugins/TikTok.js:16 | any match of the pattern is accepted |
| TikTokCommand.ShownDescription | plugins/TikTok.js:46 | the first 100 characters, with `...` appended exactly when the description is longer |
| TikTokCommand.Fetch | plugins/TikTok.js:22-86 | no data, `success` false or no result is a failed fetch. A non-video or a missing video address is refused. A missing author, statistics or description, a failed request or a rejected video send ends in the error reply. Otherwise the video is sent with the cut description. With a `music` address the audio follows, and a rejected audio send ends in the error reply after the video |
| TikTokCommand.CommandsAre | plugins/TikTok.js:9 | the plugin answers to exactly `tiktok` and `tt` |
| TikTokCommand.Check | plugins/TikTok.js:9-18 | the gates before the request: other commands are ignored, empty arguments get the prompt, a bad address is refused, otherwise the request is for the trimmed argument text, which passes the address check |
| TikTokCommand.TikTok | plugins/TikTok.js:4-88 | only `tiktok`/`tt` are handled. Empty arguments get the prompt. A bad address is refused without asking the service. The service is asked for the trimmed argument text |
| JsString.DigitsAppend | plugins/block.js:23 | the digit filter of a concatenation is the filter of each part, in order |
| JsString.DigitsOne | plugins/block.js:23 | one character is kept exactly when it is a digit |
| JsString.DigitsEmpty | plugins/promote.js:29 | the filter is empty exactly when the text holds no digit |
| ImdbCommand.RatingLinesAppend | plugins/imdb.js:31-36 | the rating lines of two lists are the lines of the first followed by those of the second |
| ImdbCommand.RatingLinesOne | plugins/imdb.js:34 | one rating gives exactly the line `➣ source: value\n` |
| ImdbCommand.RatingLinesEmpty | plugins/imdb.js:31-36 | the rating text is empty exactly when there are no ratings |
| ImdbCommand.RatingText | plugins/imdb.js:31-36 | the loop builds one line per rating, in input order |
| ImdbCommand.RatingsSection | plugins/imdb.js:49 | the section is empty exactly when the rating text is; otherwise it is the `Ratings:` header, the rating text and a blank line |
| ImdbCommand.OrNA | plugins/imdb.js:50-51 | a set value is kept, and an empty one becomes exactly `N/A` |
| ImdbCommand.MovieCommand | plugins/imdb.js:4-76 | only `movie` is handled. An empty query gets the prompt. The query is the trimmed argument text. No data, a false `status` or no movie means no results. A failed request or a rejected card send ends in the error reply. The card is sent exactly when there is a movie and the send succeeds. The ratings section appears exactly when there are ratings |

Behaviour of the code that the model keeps as written:
- index.js:630: the QR method is chosen by `authMethod === 'qr'`. Any other value, with a session ID, uses the token.
- index.js:61: `Buffer.from(…, 'base64')` never fails. So the import has no decode-failure outcome.
- index.js:72-87: `startBot` does not check whether the session name is already registered. Only the create handler checks this, at index.js:626.
- index.js:717: delete calls `logout()` and `end()` without waiting, then removes the entry at once.
- index.js:112: a close that is not a logout calls `startBot(sessionName)` again, which creates a new socket. The entry keeps the old socket until the new socket's first `open` replaces it.
- index.js:140-151: a QR code updates the existing entry in place, keeping its fields. The creation placeholder (index.js:635-638) has no socket, so the entry stays without one until the first `open`. Deleting such a session closes no socket (`DeleteSession` returns `closed == None`).

## Left out

- The protocol client is not modelled: `makeWASocket`, `useMultiFileAuthState`, `saveCreds` and `fetchLatestBaileysVersion` are foreign. Their success or failure is the `clientOk`/`restartOk` input.
- The welcome message sent on the first `open` is not modelled.
- The other socket listeners (`creds.update`, `messages.upsert`, `call`, `group-participants.update`), auto-reaction and status viewing are not modelled. They call modules that are not part of this model and never touch the registry.
- `initExistingSessions` (the startup scan of the sessions directory) is not modelled. It is a file system listing; the constructor instead takes the directories already on disk.
- The network fetches (token address, download service, search service) are inputs.
- `SessionToken.Import`: fetched data that is not a string is not modelled. In the source, calling `.startsWith` on it throws and the import returns false.
- SessionRegistry.SessionManager.StartBot: a failure of the `creds.json` write inside `downloadSessionData` (caught, returns false) is not modelled. Base64 decoding is the abstract `decode` parameter.
- SessionRegistry.SessionManager.OnConnectionUpdate: the restart's socket is created within the same step. The awaits inside that restart, and any events between them, are not interleaved.
- SessionRegistry.SessionManager.CreateSession: the awaits inside `startBot` are treated as atomic. So the race is not modelled where two token-mode creates of one name both pass the `has` check.
- The handlers' `catch` blocks that turn unexpected exceptions into 500 replies are not modelled.
- The list view's `status || 'unknown'` default is not modelled. Every write in the source sets a status, so the registry's status is a three-valued datatype and the default cannot occur.
- JavaScript `toLowerCase` is modelled on ASCII letters only.
- String lengths count Unicode scalar values, not UTF-16 code units. So the 100-character cut differs from the source for characters outside the Basic Multilingual Plane, such as emoji.
- Replies are outcome values, not the source's reply texts, and reactions are not modelled.
- TikTokCommand.Fetch: a rejected reaction send is not modelled (plugins/TikTok.js:27, 34, 38, 85). The awaited ones would end in the catch.
- BlockCommand.Block: a rejected reaction send (plugins/block.js:38, 43) is not modelled. It would end in a catch with an error reply.
- ImdbCommand.MovieCommand: a rejected reaction send (plugins/imdb.js:29) is not modelled.
- ImdbCommand.RatingLine: a rating without `source` or `value` is modelled with "" in its place. The template at plugins/imdb.js:34 writes "undefined" (or "null"). A missing `title` or `poster` in the card is likewise modelled as "".
- Caption fields other than the description (TikTok) and the ratings, box office and awards (IMDb) are not modelled. The locale-formatted release date (`toLocaleDateString`) is not modelled.
- The random emoji choice, the two-second wait, logging, Express wiring and the embedded web page are not modelled.
