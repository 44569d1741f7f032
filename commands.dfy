/** The vocabulary both bot scripts share: the inbound message as the
    handlers see it, the replies they produce, the recognised commands and
    the text of every reply (server.js:88-139, main.js:39-84). */
module Commands {
  import opened Text

  datatype Option<T> = None | Some(value: T)

  /** The fields of an inbound chat message that the handlers read:
      `body`, `from`, `fromMe`, `type` and `timestamp` (the last two only
      appear in the `!info` reply, so they are kept as their display text). */
  datatype Message = Message(body: string, from: string, fromMe: bool, kind: string, timestamp: string)

  /** How a reply leaves the bot: `message.reply(...)` quotes the inbound
      message, `client.sendMessage(from, ...)` posts a plain chat message. */
  datatype Channel = QuotedReply | ChatMessage

  /** One outbound chat message: its channel, its target chat and its text. */
  datatype Outbound = Outbound(channel: Channel, to: string, text: string)

  /** The decorative characters of one script. server.js is stored as UTF-8;
      main.js holds the same characters after a UTF-8 to Windows-1252
      mis-decoding, and the bot sends those mis-decoded characters. */
  datatype Phrasebook = Phrasebook(bullet: string, greeting: string, emoji: string)

  /** server.js: `•`, `👋 Hello! ...`, `😊 🎉 🚀 Here are ...`. */
  const ServerPhrases: Phrasebook := Phrasebook(
    "\U{2022}",
    "\U{1F44B} Hello! Nice to meet you!",
    "\U{1F60A} \U{1F389} \U{1F680} Here are some emojis for you!")

  /** main.js: the same texts as mis-decoded characters (`â€¢`, `ðŸ‘‹`, ...). */
  const MainPhrases: Phrasebook := Phrasebook(
    "\U{E2}\U{20AC}\U{A2}",
    "\U{F0}\U{178}\U{2018}\U{2039} Hello! Nice to meet you!",
    "\U{F0}\U{178}\U{2DC}\U{160} \U{F0}\U{178}\U{17D}\U{2030} \U{F0}\U{178}\U{161}\U{20AC} Here are some emojis for you!")

  const PingCommand := "!ping"
  const HelloCommand := "!hello"
  const HelpCommand := "!help"
  const TimeCommand := "!time"
  const InfoCommand := "!info"
  const EmojiCommand := "!emoji"

  /** The bodies that are matched by string equality. */
  const ExactCommands: set<string> :=
    {PingCommand, HelloCommand, HelpCommand, TimeCommand, InfoCommand, EmojiCommand}

  const PongText := "pong"
  const HelloText := "Hello! How can I help you?"

  /** The suffix that marks a group chat address. */
  const GroupSuffix := "@g.us"

  function HelpText(book: Phrasebook): string
  {
    "Available commands:\n"
    + book.bullet + " !ping - Test if bot is working\n"
    + book.bullet + " !hello - Get a greeting\n"
    + book.bullet + " !help - Show this help message\n"
    + book.bullet + " !time - Get current time\n"
    + book.bullet + " !info - Get message info"
  }

  /** `now` is the caller's `new Date().toLocaleString()`. */
  function TimeText(now: string): string
  {
    "Current time: " + now
  }

  /** JavaScript's rendering of a boolean inside a template literal. */
  function BoolText(b: bool): string
  {
    if b then "true" else "false"
  }

  predicate IsGroupAddress(from: string)
  {
    Includes(from, GroupSuffix)
  }

  /** The `!info` reply; its last line reports whether the sender is a group. */
  function InfoText(book: Phrasebook, m: Message): (r: string)
    ensures |r| >= 4
    ensures r[|r| - 4..] == "true" <==> IsGroupAddress(m.from)
  {
    var head := "Message Info:\n"
      + book.bullet + " From: " + m.from + "\n"
      + book.bullet + " Type: " + m.kind + "\n"
      + book.bullet + " Timestamp: " + m.timestamp + "\n"
      + book.bullet + " Is Group: ";
    var flag := BoolText(IsGroupAddress(m.from));
    assert (head + flag)[|head + flag| - 4..] == flag[|flag| - 4..];
    head + flag
  }

  /** The keyword rule: `body.toLowerCase()` includes `hello` or `hi`. */
  predicate MentionsGreeting(body: string)
  {
    Includes(Lower(body), "hello") || Includes(Lower(body), "hi")
  }

  function PingReply(m: Message): Outbound { Outbound(QuotedReply, m.from, PongText) }
  function HelloReply(m: Message): Outbound { Outbound(ChatMessage, m.from, HelloText) }
  function HelpReply(book: Phrasebook, m: Message): Outbound { Outbound(QuotedReply, m.from, HelpText(book)) }
  function TimeReply(m: Message, now: string): Outbound { Outbound(QuotedReply, m.from, TimeText(now)) }
  function InfoReply(book: Phrasebook, m: Message): Outbound { Outbound(QuotedReply, m.from, InfoText(book, m)) }
  function GreetingReply(book: Phrasebook, m: Message): Outbound { Outbound(QuotedReply, m.from, book.greeting) }
  function EmojiReply(book: Phrasebook, m: Message): Outbound { Outbound(QuotedReply, m.from, book.emoji) }

  /** Reference meaning of the exact-match commands: the reply a body that
      equals one of them asks for, independent of where the scripts test it. */
  function CommandReply(book: Phrasebook, m: Message, now: string): (r: Option<Outbound>)
    ensures r.Some? <==> m.body in ExactCommands
    ensures r.Some? ==> r.value.to == m.from
  {
    if m.body == PingCommand then Some(PingReply(m))
    else if m.body == HelloCommand then Some(HelloReply(m))
    else if m.body == HelpCommand then Some(HelpReply(book, m))
    else if m.body == TimeCommand then Some(TimeReply(m, now))
    else if m.body == InfoCommand then Some(InfoReply(book, m))
    else if m.body == EmojiCommand then Some(EmojiReply(book, m))
    else None
  }

  /** Reference meaning of the keyword rule. */
  function KeywordReply(book: Phrasebook, m: Message): (r: Option<Outbound>)
    ensures r.Some? <==>
      (exists i :: OccursAt(Lower(m.body), "hello", i)) || (exists i :: OccursAt(Lower(m.body), "hi", i))
    ensures r.Some? ==>
      r.value.channel == QuotedReply && r.value.to == m.from && r.value.text == book.greeting
  {
    IncludesIff(Lower(m.body), "hello");
    IncludesIff(Lower(m.body), "hi");
    if MentionsGreeting(m.body) then Some(GreetingReply(book, m)) else None
  }

  function ToSeq<T>(o: Option<T>): (r: seq<T>)
    ensures |r| <= 1
  {
    if o.Some? then [o.value] else []
  }

  /** Of the exact commands only `!hello` also triggers the keyword rule. */
  lemma GreetingCommands(body: string)
    requires body in ExactCommands
    ensures MentionsGreeting(body) <==> body == HelloCommand
  {
    if body == HelloCommand {
      assert Lower(body) == body;
      IncludesAt(Lower(body), "hello", 1);
    } else if body == HelpCommand {
      assert Lower(body) == body;
      IncludesIff(Lower(body), "hi");
      IncludesIff(Lower(body), "hello");
      forall i | 0 <= i && i + 2 <= |body|
        ensures !OccursAt(body, "hi", i)
      {
        assert body[i..i + 2][1] == body[i + 1];
      }
    } else {
      assert 'h' !in body && 'H' !in body;
      LowerWithoutH(body);
      NotIncludesWithoutFirst(Lower(body), "hello");
      NotIncludesWithoutFirst(Lower(body), "hi");
    }
  }
}
