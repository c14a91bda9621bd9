/** The bot object: the monitored guild and channel, and the two state slots
    that `on_message` updates in place. */
module Session {
  import opened Text
  import opened Rules

  class CountingSession {
    const serverId: GuildId
    const channelId: ChannelId
    /** The last accepted number, or none before the game starts. */
    var count: Option<nat>
    /** The author of the last accepted number, or none before the game starts. */
    var prevAuthor: Option<AuthorId>

    /** The state as a value. */
    function Snapshot(): State
      reads this
    {
      State(count, prevAuthor)
    }

    /** The object invariant: both slots are set together. */
    predicate Valid()
      reads this
    {
      Coherent(Snapshot())
    }

    /** A new bot watches one guild and channel and has no count yet. */
    constructor (serverId: GuildId, channelId: ChannelId)
      ensures this.serverId == serverId && this.channelId == channelId
      ensures Snapshot() == Uninitialized
      ensures Valid()
    {
      this.serverId := serverId;
      this.channelId := channelId;
      count := None;
      prevAuthor := None;
    }

    /** Handles one incoming message: returns what to do with it and updates
        the state exactly as the rules say. */
    method HandleMessage(m: Message) returns (action: Action)
      modifies this
      ensures (action, Snapshot()) == Classify(old(Snapshot()), serverId, channelId, m)
      // a corollary of the line above and Classify's contract, spelled out for readers
      ensures action != Keep ==> count == old(count) && prevAuthor == old(prevAuthor)
      ensures old(Valid()) ==> Valid()
    {
      if m.fromSelf {
        return Ignore;
      }
      if m.guild.None? || m.guild.value != serverId {
        return Ignore;
      }
      if m.channel != channelId {
        return Ignore;
      }

      var content := Trim(m.content);

      if content == [] {
        action := if count.Some? then Delete else Ignore;
        return;
      }

      if !MatchesDigitPattern(content) {
        action := if count.Some? then Delete else Ignore;
        return;
      }

      PatternOnTrimmed(m.content);
      var parsed := ParseDigits(content);

      if count.None? {
        count := Some(parsed);
        prevAuthor := Some(m.author);
        return Keep;
      }

      if parsed != count.value + 1 {
        return Delete;
      }

      if Some(m.author) == prevAuthor {
        return Delete;
      }

      count := Some(parsed);
      prevAuthor := Some(m.author);
      return Keep;
    }
  }
}
