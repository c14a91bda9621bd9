/** The counting game's decision rules: what one incoming message does to the
    channel's state and whether it is deleted. `Classify` follows the early
    returns of `CountingBot.on_message` in order. */
module Rules {
  import opened Text

  datatype Option<+T> = None | Some(value: T)

  /** Guild (server) and channel identifiers, compared by equality only. */
  type GuildId = int
  type ChannelId = int
  /** The author identifier as the bot stores it, `str(message.author.id)`. */
  type AuthorId = string

  /** The bot's in-memory state: the last accepted number and its author. */
  datatype State = State(count: Option<nat>, prevAuthor: Option<AuthorId>)

  const Uninitialized := State(None, None)

  /** What the bot sees of one message: whether the bot wrote it, its guild
      (none for a direct message), its channel, its author and its text. */
  datatype Message = Message(
    fromSelf: bool,
    guild: Option<GuildId>,
    channel: ChannelId,
    author: AuthorId,
    content: string)

  /** What the caller does with the message: nothing (out of scope, or
      malformed before the game started), delete it, or keep it because it
      was accepted. */
  datatype Action = Ignore | Delete | Keep

  /** `count` and `prevAuthor` are both unset or both set. */
  predicate Coherent(s: State) {
    s.count.Some? == s.prevAuthor.Some?
  }

  /** The message belongs to the monitored guild and channel and is not the
      bot's own. */
  predicate InScope(serverId: GuildId, channelId: ChannelId, m: Message) {
    !m.fromSelf && m.guild == Some(serverId) && m.channel == channelId
  }

  /** One step of the game: the action for message `m` and the next state. */
  function Classify(s: State, serverId: GuildId, channelId: ChannelId, m: Message): (r: (Action, State))
    // state changes only when the message is accepted
    ensures r.0 != Keep ==> r.1 == s
    // only in-scope messages from the monitored channel can be acted on
    ensures r.0 != Ignore ==> InScope(serverId, channelId, m)
    // nothing is deleted before the game has a number
    ensures r.0 == Delete ==> s.count.Some?
    // an accepted message records its author, and advances an existing count by one
    ensures r.0 == Keep ==> r.1.count.Some? && r.1.prevAuthor == Some(m.author)
    ensures r.0 == Keep && s.count.Some? ==> r.1.count.value == s.count.value + 1
    ensures Coherent(s) ==> Coherent(r.1)
  {
    if m.fromSelf then (Ignore, s)
    else if m.guild.None? || m.guild.value != serverId then (Ignore, s)
    else if m.channel != channelId then (Ignore, s)
    else
      var content := Trim(m.content);
      if content == [] then
        (if s.count.Some? then Delete else Ignore, s)
      else if !MatchesDigitPattern(content) then
        (if s.count.Some? then Delete else Ignore, s)
      else
        PatternOnTrimmed(m.content);
        var n := ParseDigits(content);
        if s.count.None? then
          (Keep, State(Some(n), Some(m.author)))
        else if n != s.count.value + 1 then
          (Delete, s)
        else if Some(m.author) == s.prevAuthor then
          (Delete, s)
        else
          (Keep, State(Some(n), Some(m.author)))
  }

  /** Processing messages one at a time, in delivery order: the actions taken
      and the final state. */
  function Run(s: State, serverId: GuildId, channelId: ChannelId, ms: seq<Message>): (r: (seq<Action>, State))
    ensures |r.0| == |ms|
    decreases |ms|
  {
    if ms == [] then ([], s)
    else
      var step := Classify(s, serverId, channelId, ms[0]);
      var rest := Run(step.1, serverId, channelId, ms[1..]);
      ([step.0] + rest.0, rest.1)
  }

  /** The number of accepted messages among `acts`. */
  function KeepCount(acts: seq<Action>): nat {
    if acts == [] then 0 else (if acts[0] == Keep then 1 else 0) + KeepCount(acts[1..])
  }

  // ---------------------------------------------------------------------------
  // One message
  // ---------------------------------------------------------------------------

  /** The bot's own messages and messages from elsewhere are left alone,
      whatever they say. */
  lemma OutOfScopeIgnored(s: State, serverId: GuildId, channelId: ChannelId, m: Message)
    requires !InScope(serverId, channelId, m)
    ensures Classify(s, serverId, channelId, m) == (Ignore, s)
  {
  }

  /** Text that is empty once stripped, or holds anything but ASCII digits,
      never changes state and is deleted exactly when the game has started. */
  lemma MalformedRejected(s: State, serverId: GuildId, channelId: ChannelId, m: Message)
    requires InScope(serverId, channelId, m)
    requires !IsAsciiDigits(Trim(m.content))
    ensures Classify(s, serverId, channelId, m).1 == s
    ensures Classify(s, serverId, channelId, m).0 == (if s.count.Some? then Delete else Ignore)
  {
    PatternOnTrimmed(m.content);
  }

  /** Before the game starts, the first all-digit message is kept and seeds
      the state with its value, whatever the value (zero included) and
      whoever wrote it. */
  lemma SeedAccepted(s: State, serverId: GuildId, channelId: ChannelId, m: Message)
    requires s.count.None?
    requires InScope(serverId, channelId, m)
    requires IsAsciiDigits(Trim(m.content))
    ensures Classify(s, serverId, channelId, m) ==
            (Keep, State(Some(ParseDigits(Trim(m.content))), Some(m.author)))
  {
  }

  /** Once the game has started, an all-digit message is kept if and only if
      its value is one more than the count and its author is not the last
      accepted author; otherwise it is deleted. */
  lemma AcceptIffNextByOther(s: State, serverId: GuildId, channelId: ChannelId, m: Message)
    requires s.count.Some?
    requires InScope(serverId, channelId, m)
    requires IsAsciiDigits(Trim(m.content))
    ensures var (a, s') := Classify(s, serverId, channelId, m);
            var ok := ParseDigits(Trim(m.content)) == s.count.value + 1 && s.prevAuthor != Some(m.author);
            (a == Keep <==> ok) && (a == Delete <==> !ok) &&
            (ok ==> s' == State(Some(s.count.value + 1), Some(m.author)))
  {
  }

  /** Once the game has started, a message's action depends only on its
      stripped text and author: it is kept exactly when the text reads
      `count + 1` in ASCII digits (leading zeros allowed) and a different
      author wrote it. */
  lemma {:induction false} KeptIffNumeralOfNext(s: State, serverId: GuildId, channelId: ChannelId, m: Message)
    requires s.count.Some?
    requires InScope(serverId, channelId, m)
    ensures Classify(s, serverId, channelId, m).0 == Keep <==>
            (IsAsciiDigits(Trim(m.content)) && ParseDigits(Trim(m.content)) == s.count.value + 1 &&
             s.prevAuthor != Some(m.author))
  {
    if IsAsciiDigits(Trim(m.content)) {
      AcceptIffNextByOther(s, serverId, channelId, m);
    } else {
      MalformedRejected(s, serverId, channelId, m);
    }
  }

  /** The plain rendering of `count + 1`, surrounded by any whitespace, posted
      by someone other than the last author, is accepted and advances the
      game. */
  lemma {:induction false} NextNumeralAccepted(s: State, serverId: GuildId, channelId: ChannelId,
                                               m: Message, pad1: string, pad2: string)
    requires s.count.Some? && s.prevAuthor != Some(m.author)
    requires InScope(serverId, channelId, m)
    requires AllSpace(pad1) && AllSpace(pad2)
    requires m.content == pad1 + ShowNat(s.count.value + 1) + pad2
    ensures Classify(s, serverId, channelId, m) == (Keep, State(Some(s.count.value + 1), Some(m.author)))
  {
    var t := ShowNat(s.count.value + 1);
    assert !IsSpace(t[0]) && !IsSpace(t[|t| - 1]);
    TrimUnique(pad1, t, pad2);
    assert Trim(m.content) == t;
    ParseShow(s.count.value + 1);
    AcceptIffNextByOther(s, serverId, channelId, m);
  }

  // ---------------------------------------------------------------------------
  // Sequences of messages
  // ---------------------------------------------------------------------------

  /** `count` and `prevAuthor` stay paired over any run of messages. */
  lemma {:induction false} RunCoherent(s: State, serverId: GuildId, channelId: ChannelId, ms: seq<Message>)
    requires Coherent(s)
    ensures Coherent(Run(s, serverId, channelId, ms).1)
    decreases |ms|
  {
    if ms != [] {
      RunCoherent(Classify(s, serverId, channelId, ms[0]).1, serverId, channelId, ms[1..]);
    }
  }

  /** After the game has started, the count only grows, by exactly one for
      every kept message. */
  lemma {:induction false} RunCountsKeeps(s: State, serverId: GuildId, channelId: ChannelId, ms: seq<Message>)
    requires s.count.Some?
    ensures var (acts, final) := Run(s, serverId, channelId, ms);
            final.count.Some? && final.count.value == s.count.value + KeepCount(acts)
    decreases |ms|
  {
    if ms != [] {
      RunCountsKeeps(Classify(s, serverId, channelId, ms[0]).1, serverId, channelId, ms[1..]);
    }
  }

  /** A run that keeps nothing leaves the state as it was: deleted and
      ignored messages never move the game. */
  lemma {:induction false} RunWithoutKeepUnchanged(s: State, serverId: GuildId, channelId: ChannelId, ms: seq<Message>)
    requires Keep !in Run(s, serverId, channelId, ms).0
    ensures Run(s, serverId, channelId, ms).1 == s
    decreases |ms|
  {
    if ms != [] {
      var (a, s') := Classify(s, serverId, channelId, ms[0]);
      assert Run(s, serverId, channelId, ms).0 == [a] + Run(s', serverId, channelId, ms[1..]).0;
      RunWithoutKeepUnchanged(s', serverId, channelId, ms[1..]);
    }
  }

  /** Out-of-scope messages, repeated any number of times, are all ignored
      and never change state. */
  lemma {:induction false} RunOutOfScope(s: State, serverId: GuildId, channelId: ChannelId, ms: seq<Message>)
    requires forall i | 0 <= i < |ms| :: !InScope(serverId, channelId, ms[i])
    ensures Run(s, serverId, channelId, ms).1 == s
    ensures forall a | a in Run(s, serverId, channelId, ms).0 :: a == Ignore
    decreases |ms|
  {
    if ms != [] {
      OutOfScopeIgnored(s, serverId, channelId, ms[0]);
      RunOutOfScope(s, serverId, channelId, ms[1..]);
    }
  }

  // ---------------------------------------------------------------------------
  // Worked scenarios
  // ---------------------------------------------------------------------------

  /** The whole decision for an in-scope message whose stripped text `t` is
      all ASCII digits reading `n`: seed, advance, or delete. */
  lemma ClassifyNumeral(s: State, serverId: GuildId, channelId: ChannelId, m: Message, t: string, n: nat)
    requires InScope(serverId, channelId, m)
    requires Trim(m.content) == t && IsAsciiDigits(t) && ParseDigits(t) == n
    ensures Classify(s, serverId, channelId, m) ==
            if s.count.None? then (Keep, State(Some(n), Some(m.author)))
            else if n == s.count.value + 1 && s.prevAuthor != Some(m.author) then (Keep, State(Some(n), Some(m.author)))
            else (Delete, s)
  {
  }

  /** `ClassifyNumeral` for a message that is one ASCII digit. */
  lemma ClassifyDigit(s: State, serverId: GuildId, channelId: ChannelId, m: Message, d: char)
    requires InScope(serverId, channelId, m)
    requires IsAsciiDigit(d) && m.content == [d]
    ensures Classify(s, serverId, channelId, m) ==
            var n := DigitValue(d);
            if s.count.None? then (Keep, State(Some(n), Some(m.author)))
            else if n == s.count.value + 1 && s.prevAuthor != Some(m.author) then (Keep, State(Some(n), Some(m.author)))
            else (Delete, s)
  {
    SingleDigit(d);
    TrimKeeps([d]);
    ClassifyNumeral(s, serverId, channelId, m, [d], DigitValue(d));
  }

  /** One step of `Run`, spelled out. */
  lemma RunCons(s: State, g: GuildId, c: ChannelId, m: Message, ms: seq<Message>)
    ensures Run(s, g, c, [m] + ms) ==
            ([Classify(s, g, c, m).0] + Run(Classify(s, g, c, m).1, g, c, ms).0,
             Run(Classify(s, g, c, m).1, g, c, ms).1)
  {
    assert ([m] + ms)[0] == m && ([m] + ms)[1..] == ms;
  }

  /** Two steps of `Run`, spelled out. */
  lemma RunTwo(s: State, g: GuildId, c: ChannelId, m1: Message, m2: Message)
    ensures Run(s, g, c, [m1, m2]) ==
            ([Classify(s, g, c, m1).0, Classify(Classify(s, g, c, m1).1, g, c, m2).0],
             Classify(Classify(s, g, c, m1).1, g, c, m2).1)
  {
    var s1 := Classify(s, g, c, m1).1;
    var s2 := Classify(s1, g, c, m2).1;
    var a1, a2 := Classify(s, g, c, m1).0, Classify(s1, g, c, m2).0;
    var none: seq<Message> := [];
    assert Run(s2, g, c, none) == ([], s2);
    RunCons(s1, g, c, m2, none);
    assert [m2] + none == [m2] && [a2] + [] == [a2];
    assert Run(s1, g, c, [m2]) == ([a2], s2);
    RunCons(s, g, c, m1, [m2]);
    assert [m1] + [m2] == [m1, m2] && [a1] + [a2] == [a1, a2];
  }

  /** "1" by A, "2" by B, "3" by A from a fresh start are all kept and leave
      count 3 with A as the last author. */
  lemma ScenarioThreeTurns(g: GuildId, c: ChannelId, a: AuthorId, b: AuthorId)
    requires a != b
    ensures Run(Uninitialized, g, c, [Message(false, Some(g), c, a, "1"),
                                      Message(false, Some(g), c, b, "2"),
                                      Message(false, Some(g), c, a, "3")])
            == ([Keep, Keep, Keep], State(Some(3), Some(a)))
  {
    var m1, m2, m3 := Message(false, Some(g), c, a, "1"), Message(false, Some(g), c, b, "2"),
                      Message(false, Some(g), c, a, "3");
    var s1, s2, s3 := State(Some(1), Some(a)), State(Some(2), Some(b)), State(Some(3), Some(a));
    assert Classify(Uninitialized, g, c, m1) == (Keep, s1) by {
      ClassifyDigit(Uninitialized, g, c, m1, '1');
    }
    assert Classify(s1, g, c, m2) == (Keep, s2) by {
      ClassifyDigit(s1, g, c, m2, '2');
    }
    assert Classify(s2, g, c, m3) == (Keep, s3) by {
      ClassifyDigit(s2, g, c, m3, '3');
    }
    assert Run(s1, g, c, [m2, m3]) == ([Keep, Keep], s3) by {
      RunTwo(s1, g, c, m2, m3);
    }
    assert Run(Uninitialized, g, c, [m1, m2, m3]) == ([Keep, Keep, Keep], s3) by {
      RunCons(Uninitialized, g, c, m1, [m2, m3]);
      assert [m1] + [m2, m3] == [m1, m2, m3] && [Keep] + [Keep, Keep] == [Keep, Keep, Keep];
    }
  }

  /** With count 5 by A, "7" by B is deleted and "6" by B is then still
      judged against 5, and kept. */
  lemma ScenarioRejectionDoesNotAdvance(g: GuildId, c: ChannelId, a: AuthorId, b: AuthorId)
    requires a != b
    ensures Run(State(Some(5), Some(a)), g, c, [Message(false, Some(g), c, b, "7"),
                                                Message(false, Some(g), c, b, "6")])
            == ([Delete, Keep], State(Some(6), Some(b)))
  {
    var s := State(Some(5), Some(a));
    var m1, m2 := Message(false, Some(g), c, b, "7"), Message(false, Some(g), c, b, "6");
    assert Classify(s, g, c, m1) == (Delete, s) by {
      ClassifyDigit(s, g, c, m1, '7');
    }
    assert Classify(s, g, c, m2) == (Keep, State(Some(6), Some(b))) by {
      ClassifyDigit(s, g, c, m2, '6');
    }
    RunTwo(s, g, c, m1, m2);
  }

  /** With count 5 by A, "6" by A is deleted although the number is right. */
  lemma ScenarioAuthorLock(g: GuildId, c: ChannelId, a: AuthorId)
    ensures Classify(State(Some(5), Some(a)), g, c, Message(false, Some(g), c, a, "6"))
            == (Delete, State(Some(5), Some(a)))
  {
    ClassifyDigit(State(Some(5), Some(a)), g, c, Message(false, Some(g), c, a, "6"), '6');
  }

  /** "0" passes the digit check and seeds the game. */
  lemma ScenarioZeroSeeds(g: GuildId, c: ChannelId, a: AuthorId)
    ensures Classify(Uninitialized, g, c, Message(false, Some(g), c, a, "0"))
            == (Keep, State(Some(0), Some(a)))
  {
    ClassifyDigit(Uninitialized, g, c, Message(false, Some(g), c, a, "0"), '0');
  }

  /** " 06\n" strips to "06". */
  lemma PaddedSixTrims()
    ensures Trim(" 06\n") == "06"
  {
    assert " 06\n" == " " + "06" + "\n";
    assert AllSpace(" ") && AllSpace("\n");
    TrimUnique(" ", "06", "\n");
  }

  /** "06" is a digit string that reads as 6. */
  lemma ZeroSixReadsSix()
    ensures IsAsciiDigits("06") && ParseDigits("06") == 6
  {
    LeadingZero("6");
    SingleDigit('6');
    assert "0" + "6" == "06";
  }

  /** Surrounding whitespace is stripped before the digit check, and leading
      zeros are read away: " 06\n" after 5 is kept as 6. */
  lemma ScenarioPaddedLeadingZero(g: GuildId, c: ChannelId, a: AuthorId, b: AuthorId)
    requires a != b
    ensures Classify(State(Some(5), Some(a)), g, c, Message(false, Some(g), c, b, " 06\n"))
            == (Keep, State(Some(6), Some(b)))
  {
    var m := Message(false, Some(g), c, b, " 06\n");
    PaddedSixTrims();
    ZeroSixReadsSix();
    ClassifyNumeral(State(Some(5), Some(a)), g, c, m, "06", 6);
  }

  /** Signs, decimal points, inner spaces and the full-width digit six are not
      ASCII digits: after 5 each is deleted, and before the game starts each
      is ignored. */
  lemma ScenarioFormatRejected(g: GuildId, c: ChannelId, text: string)
    requires text in ["+6", "6.0", "6 6", "\U{FF16}"]
    ensures Classify(State(Some(5), Some("A")), g, c, Message(false, Some(g), c, "B", text))
            == (Delete, State(Some(5), Some("A")))
    ensures Classify(Uninitialized, g, c, Message(false, Some(g), c, "B", text))
            == (Ignore, Uninitialized)
  {
    assert !IsSpace(text[0]) && !IsSpace(text[|text| - 1]);
    TrimKeeps(text);
    assert !IsAsciiDigits(text) by {
      if text == "6 6" || text == "6.0" { assert !IsAsciiDigit(text[1]); } else { assert !IsAsciiDigit(text[0]); }
    }
    MalformedRejected(State(Some(5), Some("A")), g, c, Message(false, Some(g), c, "B", text));
    MalformedRejected(Uninitialized, g, c, Message(false, Some(g), c, "B", text));
  }
}
