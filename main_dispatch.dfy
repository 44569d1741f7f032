/** The message handler of main.js (lines 31-85): after the `fromMe` filter
    it runs seven independent `if` blocks, so one message may be answered
    twice. Nothing is logged and no other state is kept. */
module MainDispatch {
  import opened Text
  import opened Commands
  import ServerDispatch

  /** One `if` block: its reply when the condition holds, nothing otherwise. */
  function When(cond: bool, o: Outbound): seq<Outbound>
  {
    if cond then [o] else []
  }

  /** Every reply the handler emits for `m`, in the order of the blocks. */
  function Replies(book: Phrasebook, m: Message, now: string): (r: seq<Outbound>)
    ensures m.fromMe ==> r == []
    ensures forall o :: o in r ==> o.to == m.from
  {
    if m.fromMe then []
    else
      When(m.body == PingCommand, PingReply(m))
      + When(m.body == HelloCommand, HelloReply(m))
      + When(m.body == HelpCommand, HelpReply(book, m))
      + When(m.body == TimeCommand, TimeReply(m, now))
      + When(m.body == InfoCommand, InfoReply(book, m))
      + When(MentionsGreeting(m.body), GreetingReply(book, m))
      + When(m.body == EmojiCommand, EmojiReply(book, m))
  }

  /** The reply list is the exact command's reply (if any) followed by the
      keyword reply (if any). */
  lemma {:induction false} CommandThenKeyword(book: Phrasebook, m: Message, now: string)
    requires !m.fromMe
    ensures Replies(book, m, now) == ToSeq(CommandReply(book, m, now)) + ToSeq(KeywordReply(book, m))
  {
    if m.body == EmojiCommand {
      GreetingCommands(m.body);
    }
  }

  /** At most two replies, and two exactly for `!hello`, the one exact
      command that also mentions a greeting. */
  lemma {:induction false} AtMostTwo(book: Phrasebook, m: Message, now: string)
    ensures |Replies(book, m, now)| <= 2
    ensures |Replies(book, m, now)| == 2 <==> !m.fromMe && m.body == HelloCommand
  {
    if !m.fromMe {
      CommandThenKeyword(book, m, now);
      if m.body in ExactCommands {
        GreetingCommands(m.body);
      }
    }
  }

  /** `!hello` is answered twice: the `sendMessage` greeting, then the
      keyword greeting. */
  lemma {:induction false} HelloAnsweredTwice(book: Phrasebook, m: Message, now: string)
    requires !m.fromMe && m.body == HelloCommand
    ensures Replies(book, m, now) ==
      [Outbound(ChatMessage, m.from, HelloText), Outbound(QuotedReply, m.from, book.greeting)]
  {
    CommandThenKeyword(book, m, now);
    GreetingCommands(m.body);
  }

  /** main.js's own texts: its second answer to `!hello` is the greeting with
      the mis-decoded wave emoji (`ðŸ‘‹`), character for character. */
  lemma MainHelloMojibake(m: Message, now: string)
    requires !m.fromMe && m.body == HelloCommand
    ensures Replies(MainPhrases, m, now) ==
      [Outbound(ChatMessage, m.from, HelloText),
       Outbound(QuotedReply, m.from, "\U{F0}\U{178}\U{2018}\U{2039} Hello! Nice to meet you!")]
  {
    HelloAnsweredTwice(MainPhrases, m, now);
  }

  /** `!ping` is answered once, with `pong`. */
  lemma {:induction false} PingAnsweredOnce(book: Phrasebook, m: Message, now: string)
    requires !m.fromMe && m.body == PingCommand
    ensures Replies(book, m, now) == [Outbound(QuotedReply, m.from, PongText)]
  {
    CommandThenKeyword(book, m, now);
    GreetingCommands(m.body);
  }

  /** No reply exactly for the bot's own messages and for bodies that are
      no command and mention no greeting. */
  lemma {:induction false} SilentIff(book: Phrasebook, m: Message, now: string)
    ensures Replies(book, m, now) == [] <==>
      m.fromMe || (m.body !in ExactCommands && !MentionsGreeting(m.body))
  {
    if !m.fromMe {
      CommandThenKeyword(book, m, now);
    }
  }

  /** The `!info` reply is the only reply, and it says `true` for the group
      flag exactly when the sender address contains `@g.us`. */
  lemma {:induction false} InfoReportsGroup(book: Phrasebook, m: Message, now: string)
    requires !m.fromMe && m.body == InfoCommand
    ensures |Replies(book, m, now)| == 1
    ensures var t := Replies(book, m, now)[0].text;
      |t| >= 4 && (t[|t| - 4..] == "true" <==> Includes(m.from, "@g.us"))
  {
    CommandThenKeyword(book, m, now);
    GreetingCommands(m.body);
  }

  /** With the same texts, server.js answers with exactly the first reply
      main.js gives: the `else if` chain is the run of `if`s cut after its
      first hit. */
  lemma {:induction false} ServerSendsFirstReply(book: Phrasebook, m: Message, now: string)
    requires !m.fromMe
    ensures ServerDispatch.Select(book, m, now) ==
      if Replies(book, m, now) == [] then None else Some(Replies(book, m, now)[0])
  {
    CommandThenKeyword(book, m, now);
    ServerDispatch.ExactBeforeKeyword(book, m, now);
  }
}
