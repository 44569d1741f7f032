/** Command selection of server.js (lines 88-139): one `else if` chain, so
    an inbound message gets at most one reply. The `fromMe` filter and the
    logging around it belong to the message handler in BotState. */
module ServerDispatch {
  import opened Text
  import opened Commands

  /** The reply the chain picks for `m`, tested in source order: five exact
      commands, then the keyword rule, then `!emoji`. */
  function Select(book: Phrasebook, m: Message, now: string): (r: Option<Outbound>)
    ensures r.Some? ==> r.value.to == m.from
  {
    if m.body == PingCommand then Some(PingReply(m))
    else if m.body == HelloCommand then Some(HelloReply(m))
    else if m.body == HelpCommand then Some(HelpReply(book, m))
    else if m.body == TimeCommand then Some(TimeReply(m, now))
    else if m.body == InfoCommand then Some(InfoReply(book, m))
    else if MentionsGreeting(m.body) then Some(GreetingReply(book, m))
    else if m.body == EmojiCommand then Some(EmojiReply(book, m))
    else None
  }

  /** Exact commands win over the keyword rule; the keyword rule answers
      only what no exact command matched. `!emoji` sits after the keyword
      test in the chain, but it contains no `h`, so it is never shadowed. */
  lemma {:induction false} ExactBeforeKeyword(book: Phrasebook, m: Message, now: string)
    ensures Select(book, m, now) ==
      if CommandReply(book, m, now).Some? then CommandReply(book, m, now) else KeywordReply(book, m)
  {
    if m.body == EmojiCommand {
      GreetingCommands(m.body);
    }
  }

  /** No reply exactly when the body is no command and mentions no greeting. */
  lemma {:induction false} SilentIff(book: Phrasebook, m: Message, now: string)
    ensures Select(book, m, now).None? <==> m.body !in ExactCommands && !MentionsGreeting(m.body)
  {
    ExactBeforeKeyword(book, m, now);
  }

  /** `!hello` gets the command's greeting through `sendMessage`, not the
      keyword reply, although it also mentions `hello`. */
  lemma HelloTakesPriority(book: Phrasebook, m: Message, now: string)
    requires m.body == HelloCommand
    ensures MentionsGreeting(m.body)
    ensures Select(book, m, now) == Some(Outbound(ChatMessage, m.from, HelloText))
  {
    GreetingCommands(m.body);
  }

  /** Any other body containing `hi` or `hello` in any ASCII case gets the
      friendly greeting. */
  lemma {:induction false} KeywordGreets(book: Phrasebook, m: Message, now: string)
    requires m.body !in ExactCommands && MentionsGreeting(m.body)
    ensures Select(book, m, now) == Some(Outbound(QuotedReply, m.from, book.greeting))
  {
    ExactBeforeKeyword(book, m, now);
  }

  /** `"this"` contains `hi`, so it is greeted; `"ok"` gets no reply. */
  lemma KeywordExamples(book: Phrasebook, from: string, now: string)
    ensures Select(book, Message("this", from, false, "chat", "0"), now) == Some(Outbound(QuotedReply, from, book.greeting))
    ensures Select(book, Message("ok", from, false, "chat", "0"), now) == None
  {
    var m1 := Message("this", from, false, "chat", "0");
    assert Lower("this") == "this";
    IncludesAt(Lower("this"), "hi", 1);
    KeywordGreets(book, m1, now);
    var m2 := Message("ok", from, false, "chat", "0");
    assert 'h' !in "ok" && 'H' !in "ok";
    LowerWithoutH("ok");
    NotIncludesWithoutFirst(Lower("ok"), "hello");
    NotIncludesWithoutFirst(Lower("ok"), "hi");
  }
}
