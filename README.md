# WhatsApp bot servers: command dispatch and bot state

A Dafny model of the message-handling core of two small WhatsApp bot
servers built on whatsapp-web.js:

- `server.js` keeps a connection status (`disconnected`, `qr_ready`,
  `connected`), the last QR code image and an append-only log of `received`
  and `sent` messages. Its `message_create` handler ignores the bot's own
  messages, logs every other message, and answers through one `else if`
  chain, so a message gets at most one reply. An operator can also send a
  message by hand: the number is stripped to digits and `@`, given the
  `@c.us` suffix when it has no `@`, and must then match `^\d+@c\.us$`.
- `main.js` has the same commands as a run of independent `if` blocks, so
  `!hello` is answered twice: once by the command and once by the
  `hello`/`hi` keyword rule.

Modules:

- `Text` (text.dfy): ASCII lower-casing and JavaScript's `includes`, with the
  proof that the left-to-right scan finds exactly the occurrences.
- `Commands` (commands.dfy): the inbound `Message`, the `Outbound` reply
  (quoted `message.reply` or plain `client.sendMessage`), the exact commands,
  every reply text, and a reference meaning of the exact commands
  (`CommandReply`) and of the keyword rule (`KeywordReply`). The texts that
  differ between the two scripts live in a `Phrasebook`. `main.js` holds its
  bullets and emoji as UTF-8 mis-decoded as Windows-1252 (`â€¢`, `ðŸ‘‹`), and
  `MainPhrases` keeps those characters exactly.
- `ServerDispatch` (server_dispatch.dfy): the `else if` chain, and the proofs
  that exact commands win over the keyword rule.
- `MainDispatch` (main_dispatch.dfy): the run of `if`s as the list of
  replies, the proofs about the number and order of replies, and the proof
  that `server.js` answers with exactly the first reply `main.js` gives.
- `PhoneNumber` (phone.dfy): the strip / append / validate steps, as a
  loop method proved against a specification function. It also proves
  exactly which inputs pass. An input already written as `123@c.us` is
  stripped to `123@`, gets no suffix and is rejected, although the
  script's own error message offers that form.
- `BotState` (bot_state.dfy): class `Bot` with the fields `status`, `qrCode`,
  `log` and `readyHandled` (whether the `once('ready')` listener has been
  used up), with one method per client event and one for the manual send.
  Each method returns the events the script broadcasts to its web page.

The clock (`Date.now()` ids and `toLocaleString()` texts), the
result of QR encoding and the outcome of a client send are parameters.

## Model

| member | source | states |
|---|---|---|
| Text.IncludesIff | server.js:130 | `includes` holds exactly when the pattern occurs at some position of the string |
| Commands.InfoText | server.js:120-124 | the `!info` reply's last field reads `true` exactly when the sender address contains `@g.us` |
| Commands.CommandReply | server.js:88-139 | an exact command reply exists exactly for the six command bodies, and it is addressed to the sender |
| Commands.KeywordReply | server.js:130-133 | the keyword reply exists exactly when the ASCII-lower-cased body contains `hello` or `hi`, and it is the greeting quoted back to the sender |
| Commands.GreetingCommands | main.js:77 | of the six exact commands, only `!hello` also triggers the keyword rule |
| ServerDispatch.Select | server.js:88-139 | the chain's only reply, if any, goes to the sender |
| ServerDispatch.ExactBeforeKeyword | server.js:88-139 | the chain answers with the exact command's reply if there is one, otherwise with the keyword reply (so `!emoji`, tested last, is never shadowed) |
| ServerDispatch.SilentIff | server.js:88-139 | no reply exactly when the body is no command and contains neither `hello` nor `hi` in any ASCII case |
| ServerDispatch.HelloTakesPriority | server.js:94-96 | `!hello` contains `hello` yet gets `Hello! How can I help you?` via `sendMessage`, not the keyword greeting |
| ServerDispatch.KeywordGreets | server.js:130-133 | any non-command body containing `hello`/`hi` gets the greeting |
| ServerDispatch.KeywordExamples | server.js:130-133 | `this` is greeted; `ok` gets no reply |
| MainDispatch.Replies | main.js:31-85 | the bot's own messages get no reply; every reply goes to the sender |
| MainDispatch.CommandThenKeyword | main.js:39-84 | the replies are the exact command's reply (if any) followed by the keyword reply (if any), in block order |
| MainDispatch.AtMostTwo | main.js:40-84 | at most two replies, and two exactly for `!hello` from someone else |
| MainDispatch.HelloAnsweredTwice | main.js:45-79 | `!hello` yields the `sendMessage` greeting, then the keyword greeting |
| MainDispatch.MainHelloMojibake | main.js:77-79 | with main.js's own texts, the second answer to `!hello` carries the mis-decoded wave emoji exactly as the file holds it |
| MainDispatch.PingAnsweredOnce | main.js:40-42 | `!ping` yields exactly one reply, `pong` |
| MainDispatch.SilentIff | main.js:33-84 | the reply list is empty exactly for the bot's own messages and for non-command bodies without `hello`/`hi` |
| MainDispatch.InfoReportsGroup | main.js:67-74 | `!info` gets one reply whose group flag is `true` exactly when the sender contains `@g.us` |
| MainDispatch.ServerSendsFirstReply | server.js:88-139 | with the same texts, the server's single reply is the first of the replies `main.js` gives, and none when it gives none |
| PhoneNumber.Strip | server.js:172 | stripping keeps only digits and `@`, every digit or `@` of the input occurs in the result, and it never lengthens the input |
| PhoneNumber.StripCounts | server.js:172 | each digit and each `@` occurs in the stripped string exactly as often as in the input |
| PhoneNumber.StripAppend | server.js:172 | stripping a concatenation strips each part and joins the results, so the kept characters stay in input order |
| PhoneNumber.Format | server.js:169-177 | the character-by-character strip followed by the conditional suffix yields `Normalize(to)` |
| PhoneNumber.StripWithoutAt | server.js:172-177 | on input without `@`, stripping keeps exactly the digits |
| PhoneNumber.NormalizeValidIff | server.js:172-181 | the formatted number passes `^\d+@c\.us$` exactly when the input has no `@` and some digit, and then it is the input's digits followed by `@c.us` |
| PhoneNumber.SuffixedNumberRejected | server.js:172-181 | `digits@c.us` becomes `digits@` and is rejected |
| BotState.Bot.constructor | server.js:25-27 | the bot starts disconnected, without QR code, with an empty log |
| BotState.Bot.OnReady | server.js:30-42 | the first `ready` connects, clears the QR code and broadcasts status and three log lines; later ones change nothing |
| BotState.Bot.OnQr | server.js:45-47 | `qr` sets `qr_ready` from any status |
| BotState.Bot.OnQrEncoded | server.js:48-54 | after encoding, the image is stored and broadcast with the then-current status; an encoder failure changes nothing |
| BotState.Bot.OnDisconnected | server.js:58-63 | `disconnected` sets `disconnected` from any status and leaves the stored QR code |
| BotState.Bot.AddBotMessage | server.js:143-154 | exactly one `sent` entry is appended and announced |
| BotState.Bot.OnMessage | server.js:66-140 | own messages change nothing; otherwise one `received` entry with the message's sender and body, then one `sent` entry per reply (at most one, to the sender); older entries are untouched; each new entry is announced in order |
| BotState.Bot.SendManual | server.js:165-194 | a send is attempted only when connected (hence only after the first `ready`) and the formatted number is valid; only a successful send appends a `sent` entry to the formatted number; each failure gives its own error notice and leaves the log alone |

## Left out

- HTTP plumbing: the Express routes, static files, CORS and the HTTP server (server.js:8-19, 212-229; main.js:5, 87-103). The two status and log routes only read state the model keeps.
- Socket.IO transport: connection handling, the snapshot a new page receives (server.js:161-162) and its disconnect handler. Broadcasts are returned as records instead.
- `restartBot` (server.js:197-205): it only calls `destroy` and `initialize` on the foreign client, and it changes no state of the script.
- The whatsapp-web.js client. `reply`/`sendMessage` are modelled as `Outbound` records, and a manual send's failure as an optional error message. Command replies are not awaited in the source and are logged whether or not they succeed, as in the model.
- `qrcode.toDataURL`: its result is an opaque string, or `None` when it throws.
- main.js's `ready` and `qr` handlers (main.js:19-28): they only print or store the QR image for the left-out HTTP route.
- Clock values: log ids are `Date.now()` readings and timestamps `toLocaleString()` texts, both taken as parameters, so nothing is claimed about the uniqueness or order of ids.
- Sessions: each script drives a single client; there is no registry of several accounts.
- Connection order: the script's handlers do not check the order of events (and only main.js persists a login), so the model allows `ready` from any status.
- Text.Lower: folds only ASCII `A`-`Z`. JavaScript's full Unicode `toLowerCase` can also produce `hi` from other characters, such as `İ`.
- Interleaving inside the manual send: the model treats the `await` of the client send as atomic. The `qr` handler's `await` is split into `OnQr` and `OnQrEncoded`, so other events may run between them.
- BotState.Bot.SendManual: `data.to` is taken to be a string. A missing field, which throws a `TypeError` inside the `try`, is not modelled.
