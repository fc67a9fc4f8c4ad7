/** Standup bookkeeping: the checks standup_start_v1 makes before it would
    schedule the end of a standup, and standup_end, which posts the buffered
    lines as one message. */
module Standups {
  import opened Text
  import opened DataStore

  // The record key handed to filter_data_store.
  function ChannelIdOf(c: Channel): int { c.id }

  /** filter_data_store('channels', 'id') */
  function ChannelIds(channels: seq<Channel>): (r: seq<int>)
    ensures |r| == |channels|
    ensures forall i :: 0 <= i < |channels| ==> r[i] == channels[i].id
  {
    Project(channels, ChannelIdOf)
  }

  /** filter_data_store('channels', 'id', id)[0]: the first channel with that id. */
  function ChannelById(channels: seq<Channel>, id: int): (c: Channel)
    requires id in ChannelIds(channels)
    ensures c in channels && c.id == id
    ensures forall k :: FirstWithKey(channels, ChannelIdOf, id, k) ==> c == channels[k]
  {
    var found := Select(channels, ChannelIdOf, id);
    found[0]
  }

  /** The token is live and names a channel of the store. */
  predicate ChannelReachable(s: Store, token: string, channelId: int)
    reads s
  {
    token in s.sessions && channelId in ChannelIds(s.channels)
  }

  /** The first three checks pass: the caller is a member of the channel. */
  predicate CallerIsMember(s: Store, token: string, channelId: int)
    reads s, s.channels
  {
    ChannelReachable(s, token, channelId) &&
    s.sessions[token] in ChannelById(s.channels, channelId).members
  }

  /** The validation prefix of standup_start_v1.  Each failure is reported
      exactly when every earlier check passed; the method modifies nothing, so
      every outcome leaves the store and the channel as they were.  `Pass`
      means that all five checks passed. */
  method StandupStart(s: Store, token: string, channelId: int, length: int) returns (r: Outcome)
    ensures r == Fail(InvalidToken) <==> token !in s.sessions
    ensures r == Fail(InvalidChannel) <==> token in s.sessions && channelId !in ChannelIds(s.channels)
    ensures r == Fail(NotChannelMember) <==>
      ChannelReachable(s, token, channelId) && !CallerIsMember(s, token, channelId)
    ensures r == Fail(NegativeLength) <==> CallerIsMember(s, token, channelId) && length < 0
    ensures r == Fail(StandupAlreadyActive) <==>
      CallerIsMember(s, token, channelId) && 0 <= length && ChannelById(s.channels, channelId).standupActive
    ensures r == Pass <==>
      CallerIsMember(s, token, channelId) && 0 <= length && !ChannelById(s.channels, channelId).standupActive
  {
    var v := ValidateToken(s.sessions, token);
    if v.Err? {
      return Fail(v.error);
    }
    var authUserId := v.value;
    if channelId !in ChannelIds(s.channels) {
      return Fail(InvalidChannel);
    }
    var channel := ChannelById(s.channels, channelId);
    if authUserId !in channel.members {
      return Fail(NotChannelMember);
    }
    if length < 0 {
      return Fail(NegativeLength);
    }
    if channel.standupActive {
      return Fail(StandupAlreadyActive);
    }
    r := Pass;
  }

  /** The id standup_end gives its message: one more than the number of
      messages ever sent, live or removed. */
  function NextMessageId(messages: seq<MessageEntry>, removedMessages: seq<MessageEntry>): (id: int)
    ensures 1 <= id && |messages| + |removedMessages| < id
  {
    |messages| + |removedMessages| + 1
  }

  /** Every message id in `entries` lies in 1..n. */
  predicate IdsUpTo(entries: seq<MessageEntry>, n: int) {
    forall i :: 0 <= i < |entries| ==> 1 <= entries[i].message.messageId <= n
  }

  /** When the ids in use never exceed the number of messages ever sent, the
      next id is taken by no live or removed message, and adding the new entry
      keeps that bound. */
  lemma NextMessageIdIsFresh(messages: seq<MessageEntry>, removedMessages: seq<MessageEntry>, e: MessageEntry)
    requires IdsUpTo(messages + removedMessages, |messages| + |removedMessages|)
    requires e.message.messageId == NextMessageId(messages, removedMessages)
    ensures forall i :: 0 <= i < |messages| ==> messages[i].message.messageId != e.message.messageId
    ensures forall i :: 0 <= i < |removedMessages| ==> removedMessages[i].message.messageId != e.message.messageId
    ensures IdsUpTo([e] + messages + removedMessages, |[e] + messages| + |removedMessages|)
  {
    var all := messages + removedMessages;
    assert forall i :: 0 <= i < |messages| ==> messages[i] == all[i];
    assert forall i :: 0 <= i < |removedMessages| ==> removedMessages[i] == all[|messages| + i];
    var grown := [e] + messages + removedMessages;
    assert forall i :: 1 <= i < |grown| ==> grown[i] == all[i - 1];
  }

  /** standup_end: the buffered lines joined with "\n" become one message by
      the standup's starter, dated `timeFinish`, put first in the channel's
      list and, wrapped with the channel id, first in the store's list.  The
      id is computed before either insertion.  Nothing else changes; in
      particular the standup flag keeps its value. */
  method StandupEnd(s: Store, channel: Channel, authUserId: int, timeFinish: int)
    modifies s`messages, channel`messages
    ensures var m := Message(NextMessageId(old(s.messages), s.removedMessages), authUserId,
                             JoinLines(channel.standupMessages), timeFinish);
            channel.messages == [m] + old(channel.messages) &&
            s.messages == [MessageEntry(m, channel.id)] + old(s.messages)
    ensures channel.standupActive == old(channel.standupActive)
    ensures channel.standupMessages == old(channel.standupMessages)
  {
    var standupStr := JoinLines(channel.standupMessages);
    var standupMessage := Message(|s.messages| + |s.removedMessages| + 1, authUserId, standupStr, timeFinish);
    var messageStore := MessageEntry(standupMessage, channel.id);
    channel.messages := [standupMessage] + channel.messages;
    s.messages := [messageStore] + s.messages;
  }
}
