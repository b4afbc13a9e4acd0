/** The Twitch event handlers of `eventHandlers.ts`: one module-level slot
    remembers the key of the last event relayed, every handler drops an
    event whose key equals it, and each kind of event is shaped into chat
    lines for the relay. */
module TwitchEvents {
  import opened Wrappers
  import opened Relay

  const UnfollowChannel: string := "mimi_py"
  const UnfollowText: string := "I have left the community \U{1F480}"
  const BanGif: string := "https://tenor.com/view/kaf-kafu-kamitsubaki-rim-rime-gif-27228643"
  const UnbanGif: string := "https://tenor.com/view/im-back-killua-killua-zoldyck-anime-discord-gif-21123576"
  const TimeoutGif: string := "https://tenor.com/view/yae-yae-miko-yae-sakura-bonk-anime-yae-bonk-gif-26001721"
  const RedeemUser: string := "Channel Point Redeem"
  const RedeemAvatar: string := "https://i.imgur.com/FJUEIhs.png"

  datatype Follower = Follower(user: string, userId: string)

  /** The events, with the fields the handlers read. A redemption carries
      its date already rendered by `toDateString`. */
  datatype Event =
    | Unfollow(followers: seq<Follower>)
    | Message(channel: string, user: string, text: string, id: string)
    | Action(channel: string, user: string, text: string, id: string)
    | Announcement(channel: string, user: string, noticeText: string, noticeId: string)
    | Ban(channel: string, user: string)
    | Unban(broadcasterName: string, userId: string, userDisplayName: string)
    | Redemption(broadcasterName: string, rewardTitle: string, userDisplayName: string, input: string, dateString: string)
    | Timeout(channel: string, user: string)

  /** What a handler hands on: `logChatMessage` for chat lines (which keeps
      the original message) and `logMessage` for everything else. */
  datatype Relayed =
    | ChatLine(channel: string, user: string, text: string)
    | Log(channel: string, users: seq<ChatUser>)

  /** The key each handler compares with the slot. An unfollow with no
      followers has the key `undefined`, written `None`. */
  function EventKey(e: Event): Option<string> {
    match e
    case Unfollow(followers) => if |followers| == 0 then None else Some(followers[0].userId)
    case Message(_, _, _, id) => Some(id)
    case Action(_, _, _, id) => Some(id)
    case Announcement(_, _, _, noticeId) => Some(noticeId)
    case Ban(channel, _) => Some(channel)
    case Unban(_, userId, _) => Some(userId)
    case Redemption(_, _, _, _, dateString) => Some(dateString)
    case Timeout(_, user) => Some(user)
  }

  function Starred(s: string): string {
    "*" + s + "*"
  }

  function Line(user: string, message: string): ChatUser {
    ChatUser(user, message, None)
  }

  function UnfollowLines(followers: seq<Follower>): (r: seq<ChatUser>)
    ensures |r| == |followers|
    ensures forall k :: 0 <= k < |r| ==> r[k] == Line(followers[k].user, UnfollowText)
  {
    seq(|followers|, k requires 0 <= k < |followers| => Line(followers[k].user, UnfollowText))
  }

  function RedemptionLines(rewardTitle: string, userDisplayName: string, input: string): seq<ChatUser> {
    [ChatUser(RedeemUser, "Redeemed " + rewardTitle + " for " + userDisplayName, Some(RedeemAvatar))] +
    (if input != "" then [Line(userDisplayName, Starred(input))] else [])
  }

  /** What the handler relays once the event is not dropped. */
  function Shape(e: Event): Relayed {
    match e
    case Unfollow(followers) => Log(UnfollowChannel, UnfollowLines(followers))
    case Message(channel, user, text, _) => ChatLine(channel, user, text)
    case Action(channel, user, text, _) => ChatLine(channel, user, Starred(text))
    case Announcement(channel, user, noticeText, _) => Log(channel, [Line(user, Starred(noticeText))])
    case Ban(channel, user) => Log(channel, [Line(user, BanGif)])
    case Unban(broadcasterName, _, userDisplayName) => Log(broadcasterName, [Line(userDisplayName, UnbanGif)])
    case Redemption(broadcasterName, rewardTitle, userDisplayName, input, _) =>
      Log(broadcasterName, RedemptionLines(rewardTitle, userDisplayName, input))
    case Timeout(channel, user) => Log(channel, [Line(user, TimeoutGif)])
  }

  /** The slot's value before any event. */
  const InitialSlot: Option<string> := Some("")

  datatype Handled = Handled(slot: Option<string>, relayed: Option<Relayed>)

  /** One handler call: drop the event when its key is the slot's, else
      store the key and relay. */
  function Handle(slot: Option<string>, e: Event): (h: Handled)
    ensures h.relayed.None? <==> EventKey(e) == slot
    ensures h.slot == EventKey(e)
    ensures h.relayed.Some? ==> h.relayed.value == Shape(e)
  {
    if EventKey(e) == slot then Handled(slot, None) else Handled(EventKey(e), Some(Shape(e)))
  }

  /** An event is relayed exactly when its key differs from the key of the
      event before it (from the slot's initial value for the first). */
  predicate Fresh(events: seq<Event>, i: nat)
    requires i < |events|
  {
    EventKey(events[i]) != (if i == 0 then InitialSlot else EventKey(events[i - 1]))
  }

  /** A run of events through the handlers, threading the slot. The slot
      always ends holding the last event's key, and an event is relayed
      exactly when it is `Fresh`: only the previous key is remembered. */
  method HandleAll(events: seq<Event>) returns (relayed: seq<Relayed>, indices: seq<nat>, slot: Option<string>)
    ensures |relayed| == |indices|
    ensures forall k :: 0 <= k < |indices| ==> indices[k] < |events| && relayed[k] == Shape(events[indices[k]])
    ensures forall k, m :: 0 <= k < m < |indices| ==> indices[k] < indices[m]
    ensures forall i :: 0 <= i < |events| ==> (i in indices <==> Fresh(events, i))
    ensures slot == if |events| == 0 then InitialSlot else EventKey(events[|events| - 1])
  {
    relayed, indices, slot := [], [], InitialSlot;
    var i := 0;
    while i < |events|
      invariant 0 <= i <= |events| && |relayed| == |indices|
      invariant slot == if i == 0 then InitialSlot else EventKey(events[i - 1])
      invariant forall k :: 0 <= k < |indices| ==> indices[k] < i && relayed[k] == Shape(events[indices[k]])
      invariant forall k, m :: 0 <= k < m < |indices| ==> indices[k] < indices[m]
      invariant forall j :: 0 <= j < i ==> (j in indices <==> Fresh(events, j))
    {
      var h := Handle(slot, events[i]);
      if h.relayed.Some? {
        relayed := relayed + [h.relayed.value];
        indices := indices + [i];
      }
      slot := h.slot;
      i := i + 1;
    }
  }

  /** The same key twice in a row is relayed once. */
  lemma SameKeyTwiceRelaysOnce(slot: Option<string>, a: Event, b: Event)
    requires EventKey(a) == EventKey(b)
    ensures Handle(Handle(slot, a).slot, b).relayed.None?
  {
  }

  /** A, B, A with distinct keys relays all three: the first key is
      forgotten once the second is stored. */
  lemma AlternatingKeysAllRelayed(slot: Option<string>, a: Event, b: Event)
    requires EventKey(a) != slot && EventKey(a) != EventKey(b)
    ensures var h1 := Handle(slot, a);
            var h2 := Handle(h1.slot, b);
            var h3 := Handle(h2.slot, a);
            h1.relayed.Some? && h2.relayed.Some? && h3.relayed.Some?
  {
  }

  /** Kinds share the slot: after a ban in a channel, a timeout of a user
      named like that channel is dropped, as is a message whose id is that
      name. */
  lemma KindsShareTheSlot(slot: Option<string>, channel: string, banned: string, other: string, text: string)
    requires Some(channel) != slot
    ensures Handle(slot, Ban(channel, banned)).relayed.Some?
    ensures Handle(Handle(slot, Ban(channel, banned)).slot, Timeout(other, channel)).relayed.None?
    ensures Handle(Handle(slot, Ban(channel, banned)).slot, Message(channel, banned, text, channel)).relayed.None?
  {
  }

  /** Two unfollow batches in a row, both empty, relay only the first
      (`undefined === undefined`). */
  lemma EmptyUnfollowsRelayOnce()
    ensures Handle(InitialSlot, Unfollow([])).relayed == Some(Log(UnfollowChannel, []))
    ensures Handle(Handle(InitialSlot, Unfollow([])).slot, Unfollow([])).relayed.None?
  {
  }

  /** Action and announcement text is wrapped in asterisks. */
  lemma ActionsAreStarred(channel: string, user: string, text: string, id: string)
    ensures Shape(Action(channel, user, text, id)).text == "*" + text + "*"
    ensures Shape(Announcement(channel, user, text, id)).users == [Line(user, "*" + text + "*")]
  {
  }

  /** A redemption yields the fixed announcement line, followed by the
      redeemer's starred input exactly when the input is not empty. */
  lemma RedemptionShape(b: string, title: string, name: string, input: string, date: string)
    ensures var r := Shape(Redemption(b, title, name, input, date));
            && r.Log? && r.channel == b
            && |r.users| == (if input == "" then 1 else 2)
            && r.users[0] == ChatUser("Channel Point Redeem", "Redeemed " + title + " for " + name,
                                      Some("https://i.imgur.com/FJUEIhs.png"))
            && (input != "" ==> r.users[1] == ChatUser(name, "*" + input + "*", None))
  {
  }

  /** Unfollows go to one channel, one fixed line per follower. */
  lemma UnfollowShape(followers: seq<Follower>)
    ensures var r := Shape(Unfollow(followers));
            && r == Log("mimi_py", r.users) && |r.users| == |followers|
            && forall k :: 0 <= k < |followers| ==>
                 r.users[k].user == followers[k].user && r.users[k].message == UnfollowText
  {
  }

  /** Ban, unban and timeout each relay one fixed GIF under the affected
      user's name. */
  lemma ModerationGifs(channel: string, user: string, b: string, id: string, display: string)
    ensures Shape(Ban(channel, user)) == Log(channel, [ChatUser(user, BanGif, None)])
    ensures Shape(Unban(b, id, display)) == Log(b, [ChatUser(display, UnbanGif, None)])
    ensures Shape(Timeout(channel, user)) == Log(channel, [ChatUser(user, TimeoutGif, None)])
  {
  }
}
