/** The state server.js keeps around its WhatsApp client (server.js:24-27):
    the connection status, the last QR code image and the append-only
    message log, with one method per client event and one for the
    operator's manual send. What the script broadcasts to its web front end
    is returned as a list of `Broadcast` records. */
module BotState {
  import opened Commands
  import ServerDispatch
  import PhoneNumber

  /** `botStatus`: `'disconnected'`, `'qr_ready'` or `'connected'`. */
  datatype Status = Disconnected | QrReady | Connected

  /** The clock readings stored with a log entry: `Date.now()` as the id and
      `new Date().toLocaleString()` as the timestamp. */
  datatype Stamp = Stamp(id: int, time: string)

  /** One element of `messages`. A sent entry's `from` is always `'Bot'`. */
  datatype LogEntry =
    | ReceivedEntry(id: int, from: string, body: string, timestamp: string)
    | SentEntry(id: int, to: string, body: string, timestamp: string)

  /** The `type` field of a `log` event. */
  datatype Level = Success | Info | Warning | Failure

  /** What the script emits to its front end: `botStatus`, `log` and
      `newMessage` events. */
  datatype Broadcast =
    | StatusUpdate(status: Status, qrCode: Option<string>)
    | LogLine(level: Level, message: string)
    | NewMessage(entry: LogEntry)

  const ReadyMessage := "WhatsApp bot is ready and connected!"
  const TestingHint := "You can send messages to this number for testing!"
  const QrMessage := "QR Code generated. Please scan with WhatsApp."
  const DisconnectedMessage := "WhatsApp bot disconnected. Please reconnect."
  const NotConnectedMessage := "Bot is not connected!"
  const InvalidNumberMessage := "Invalid phone number format. Use: 1234567890 or 1234567890@c.us"
  const SentMessage := "Message sent successfully!"

  /** The `log` event of the manual send's `catch` block. */
  function SendFailed(reason: string): Broadcast
  {
    LogLine(Failure, "Failed to send message: " + reason)
  }

  /** The `sent` entries `addBotMessage` makes for the replies `sends`. */
  function SentEntries(sends: seq<Outbound>, stamp: Stamp): (r: seq<LogEntry>)
    ensures |r| == |sends|
    ensures forall i :: 0 <= i < |r| ==>
      r[i] == SentEntry(stamp.id, sends[i].to, sends[i].text, stamp.time)
  {
    if sends == [] then []
    else [SentEntry(stamp.id, sends[0].to, sends[0].text, stamp.time)] + SentEntries(sends[1..], stamp)
  }

  /** The `newMessage` events announcing `entries`, one each, in order. */
  function Announce(entries: seq<LogEntry>): (r: seq<Broadcast>)
    ensures |r| == |entries|
    ensures forall i :: 0 <= i < |r| ==> r[i] == NewMessage(entries[i])
  {
    if entries == [] then [] else [NewMessage(entries[0])] + Announce(entries[1..])
  }

  class Bot {
    var status: Status
    var qrCode: Option<string>
    var log: seq<LogEntry>
    /** Whether the `once('ready')` listener has already run (and is gone). */
    var readyHandled: bool

    /** Only the `ready` handler sets `connected`, and it runs at most once;
        `SendManual` relies on this to promise that sends follow `ready`. */
    ghost predicate Valid()
      reads this
    {
      status == Connected ==> readyHandled
    }

    /** server.js:25-27: disconnected, no QR code, empty log. */
    constructor ()
      ensures Valid()
      ensures status == Disconnected && qrCode == None && log == [] && !readyHandled
    {
      status := Disconnected;
      qrCode := None;
      log := [];
      readyHandled := false;
    }

    /** `client.once('ready', ...)`: the first call connects and clears the
        QR code; later calls find no listener and change nothing.
        `botNumber` is the client's own serialised id. */
    method OnReady(botNumber: string) returns (emitted: seq<Broadcast>)
      requires Valid()
      modifies this`status, this`qrCode, this`readyHandled
      ensures Valid()
      ensures readyHandled
      ensures !old(readyHandled) ==> (status == Connected && qrCode == None && emitted ==
        [StatusUpdate(Connected, None), LogLine(Success, ReadyMessage),
         LogLine(Info, "Bot number: " + botNumber), LogLine(Info, TestingHint)])
      ensures old(readyHandled) ==> status == old(status) && qrCode == old(qrCode) && emitted == []
    {
      if readyHandled {
        return [];
      }
      readyHandled := true;
      status := Connected;
      qrCode := None;
      emitted := [StatusUpdate(status, None), LogLine(Success, ReadyMessage),
                  LogLine(Info, "Bot number: " + botNumber), LogLine(Info, TestingHint)];
    }

    /** `client.on('qr', ...)` up to its `await`: the status becomes
        `qr_ready` at once, whatever it was. */
    method OnQr()
      requires Valid()
      modifies this`status
      ensures Valid()
      ensures status == QrReady
    {
      status := QrReady;
    }

    /** The rest of the `qr` handler, after `qrcode.toDataURL` settles:
        `encoded` is the image, or `None` when the encoder threw (then the
        error is only printed). The broadcast reports the status current at
        that moment, which other handlers may have changed meanwhile. */
    method OnQrEncoded(encoded: Option<string>) returns (emitted: seq<Broadcast>)
      requires Valid()
      modifies this`qrCode
      ensures Valid()
      ensures encoded.Some? ==> (qrCode == encoded &&
        emitted == [StatusUpdate(status, encoded), LogLine(Info, QrMessage)])
      ensures encoded.None? ==> qrCode == old(qrCode) && emitted == []
    {
      if encoded.Some? {
        qrCode := encoded;
        emitted := [StatusUpdate(status, qrCode), LogLine(Info, QrMessage)];
      } else {
        emitted := [];
      }
    }

    /** `client.on('disconnected', ...)`: disconnected from any status. The
        stored QR code is left as it was, although the broadcast says null. */
    method OnDisconnected() returns (emitted: seq<Broadcast>)
      requires Valid()
      modifies this`status
      ensures Valid()
      ensures status == Disconnected
      ensures emitted == [StatusUpdate(Disconnected, None), LogLine(Warning, DisconnectedMessage)]
    {
      status := Disconnected;
      emitted := [StatusUpdate(status, None), LogLine(Warning, DisconnectedMessage)];
    }

    /** `addBotMessage(body, to)`: append one `sent` entry and announce it. */
    method AddBotMessage(body: string, to: string, stamp: Stamp) returns (emitted: Broadcast)
      modifies this`log
      ensures log == old(log) + [SentEntry(stamp.id, to, body, stamp.time)]
      ensures emitted == NewMessage(SentEntry(stamp.id, to, body, stamp.time))
    {
      var entry := SentEntry(stamp.id, to, body, stamp.time);
      log := log + [entry];
      emitted := NewMessage(entry);
    }

    /** `client.on('message_create', ...)`: the bot's own messages are
        ignored; any other message is logged as `received` before the
        command chain runs, and its reply (at most one) is sent to the
        sender and logged as `sent`. `received` and `sent` are the clock
        readings of the two log entries, `now` the one the `!time` reply
        shows. */
    method OnMessage(m: Message, received: Stamp, sent: Stamp, now: string)
      returns (sends: seq<Outbound>, emitted: seq<Broadcast>)
      requires Valid()
      modifies this`log
      ensures Valid()
      ensures m.fromMe ==> sends == [] && log == old(log)
      ensures !m.fromMe ==> sends == ToSeq(ServerDispatch.Select(ServerPhrases, m, now))
      ensures !m.fromMe ==> (log ==
        old(log) + [ReceivedEntry(received.id, m.from, m.body, received.time)] + SentEntries(sends, sent))
      ensures |sends| <= 1
      ensures forall o :: o in sends ==> o.to == m.from
      ensures |old(log)| <= |log| && emitted == Announce(log[|old(log)|..])
    {
      if m.fromMe {
        return [], [];
      }
      var entry := ReceivedEntry(received.id, m.from, m.body, received.time);
      log := log + [entry];
      emitted := [NewMessage(entry)];
      var reply := ServerDispatch.Select(ServerPhrases, m, now);
      sends := ToSeq(reply);
      if reply.Some? {
        var announced := AddBotMessage(reply.value.text, m.from, sent);
        emitted := emitted + [announced];
      }
      assert log[|old(log)|..] == [entry] + SentEntries(sends, sent);
    }

    /** The front end's `sendMessage` request: only while connected, only to
        a number that normalises to `digits@c.us`. `sendError` is the
        client's failure message, if its send rejects. `attempt` is the send
        handed to the client; `notice` the `log` event sent back to the
        requesting socket. */
    method SendManual(to: string, text: string, stamp: Stamp, sendError: Option<string>)
      returns (attempt: Option<Outbound>, notice: Broadcast, emitted: seq<Broadcast>)
      requires Valid()
      modifies this`log
      ensures Valid()
      ensures attempt.Some? <==> status == Connected && PhoneNumber.IsDirectAddress(PhoneNumber.Normalize(to))
      ensures attempt.Some? ==> attempt.value == Outbound(ChatMessage, PhoneNumber.Normalize(to), text)
      ensures attempt.Some? ==> readyHandled
      ensures attempt.Some? && sendError.None? ==> (
        log == old(log) + [SentEntry(stamp.id, PhoneNumber.Normalize(to), text, stamp.time)] &&
        emitted == [NewMessage(log[|log| - 1])] &&
        notice == LogLine(Success, SentMessage))
      ensures !(attempt.Some? && sendError.None?) ==> log == old(log) && emitted == []
      ensures status != Connected ==> notice == LogLine(Failure, NotConnectedMessage)
      ensures status == Connected && attempt.None? ==> notice == SendFailed(InvalidNumberMessage)
      ensures attempt.Some? && sendError.Some? ==> notice == SendFailed(sendError.value)
    {
      emitted := [];
      if status != Connected {
        return None, LogLine(Failure, NotConnectedMessage), emitted;
      }
      var formatted := PhoneNumber.Format(to);
      if !PhoneNumber.IsDirectAddress(formatted) {
        return None, SendFailed(InvalidNumberMessage), emitted;
      }
      attempt := Some(Outbound(ChatMessage, formatted, text));
      if sendError.Some? {
        return attempt, SendFailed(sendError.value), emitted;
      }
      var announced := AddBotMessage(text, formatted, stamp);
      emitted := [announced];
      notice := LogLine(Success, SentMessage);
    }
  }
}
