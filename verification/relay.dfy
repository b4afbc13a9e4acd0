/** `logAsUser`: relaying chat lines into every Discord channel registered
    for a Twitch channel, under the chatter's name, through a webhook.
    Two revisions are modelled.

    - `logAsUser.ts` resolves emoji tokens, serialises the message's emote
      offsets, parses and uploads the emotes, inlines them, and sends
      through the uncached webhook helper of `helpers.ts`.
    - `DiscordBot.ts` only resolves emoji tokens and sends through the
      cached webhook lookup.

    Both visit each `guildId-channelId` once per (user, stream channel),
    skip destinations they cannot reach, and evict the channel's cache key
    when the send fails. Whether the platform rejects a delivery's
    `webhook.send` is an input, `rejects(k)` for the `k`-th delivery. Both call `sendWebhookMessage` with four of its
    six arguments (`FourArguments`); `WithTarget` is that call with the
    missing `[channelId, isThread]` supplied. */
module Relay {
  import opened Wrappers
  import opened Text
  import opened Emojis
  import opened Registry
  import opened Delivery
  import EmoteParse
  import EmoteUpload
  import Webhooks

  const BotName: string := "Crystal Socket"
  const DefaultAvatar: string := "https://i.imgur.com/nrhRy0b.png"

  /** `user` of `interfaces.ts`. */
  datatype ChatUser = ChatUser(user: string, message: string, profilePictureUrl: Option<string>)

  /** What the bot sees of a guild: its emojis and its text channels' ids. */
  datatype GuildView = GuildView(emojis: seq<Emoji>, textChannels: set<string>)

  /** How `sendWebhookMessage` is called. */
  datatype SendCall = FourArguments | WithTarget

  datatype Outcome = Sent(payload: Payload) | NoWebhook | Evicted | Uncaught

  /** `${guildId}-${channelId}`, the key of the webhook cache. */
  function Key(g: GuildRef): string {
    Webhooks.CacheKey(g.guildId, g.channelId)
  }

  predicate Reachable(g: GuildRef, discord: map<string, GuildView>) {
    g.guildId in discord && g.channelId in discord[g.guildId].textChannels
  }

  /** `streamer.channel.replace("#", "")`. */
  function StreamName(channel: string): string {
    ReplaceFirst(channel, "#", "")
  }

  /** The first record whose channel, less its first `#`, is the name. */
  function FindRecord(data: seq<StreamerEntry>, name: string): (r: Option<StreamerEntry>)
    ensures r.Some? ==> r.value in data && StreamName(r.value.channel) == name
    ensures r.None? <==> forall e :: e in data ==> StreamName(e.channel) != name
    ensures r.Some? ==> exists i :: 0 <= i < |data| && data[i] == r.value &&
                          forall j :: 0 <= j < i ==> StreamName(data[j].channel) != name
  {
    if |data| == 0 then None
    else if StreamName(data[0].channel) == name then
      assert data[0] in data;
      Some(data[0])
    else
      var tail := data[1..];
      assert forall e :: e in data <==> e == data[0] || e in tail;
      var r := FindRecord(tail, name);
      if r.Some? then
        var i :| 0 <= i < |tail| && tail[i] == r.value &&
                 forall j :: 0 <= j < i ==> StreamName(tail[j].channel) != name;
        assert data[i + 1] == r.value;
        assert forall j :: 0 <= j < i + 1 ==> StreamName(data[j].channel) != name by {
          forall j | 0 <= j < i + 1 ensures StreamName(data[j].channel) != name {
            if j > 0 {
              assert data[j] == tail[j - 1];
            }
          }
        }
        r
      else r
  }

  predicate PlainIds(guilds: seq<GuildRef>) {
    forall g :: g in guilds ==> '-' !in g.guildId && '-' !in g.channelId
  }

  /** `a` is `b` with some elements left out, the rest in their order. */
  predicate Subseq(a: seq<GuildRef>, b: seq<GuildRef>)
    decreases |b|
  {
    |a| == 0 || (|b| > 0 && ((a[0] == b[0] && Subseq(a[1..], b[1..])) || Subseq(a, b[1..])))
  }

  /** The destinations of one record that get a delivery, in the record's
      order: a key already processed is skipped (it is marked before the
      reachability check), then unreachable destinations are skipped. */
  function Targets(guilds: seq<GuildRef>, discord: map<string, GuildView>, processed: set<string>): (r: seq<GuildRef>)
    ensures Subseq(r, guilds)
    ensures forall t :: t in r ==> t in guilds && Reachable(t, discord) && Key(t) !in processed
    ensures forall i, j :: 0 <= i < j < |r| ==> Key(r[i]) != Key(r[j])
    ensures PlainIds(guilds) ==>
              forall g :: g in guilds && Reachable(g, discord) && Key(g) !in processed ==> g in r
    decreases |guilds|
  {
    if |guilds| == 0 then []
    else
      var g := guilds[0];
      assert forall h :: h in guilds[1..] ==> h in guilds;
      if Key(g) in processed then Targets(guilds[1..], discord, processed)
      else
        var rest := Targets(guilds[1..], discord, processed + {Key(g)});
        assert PlainIds(guilds) ==>
                 forall h :: h in guilds && Reachable(h, discord) && Key(h) !in processed && h != g ==> h in rest by {
          if PlainIds(guilds) {
            forall h | h in guilds && Reachable(h, discord) && Key(h) !in processed && h != g
              ensures h in rest
            {
              assert h in guilds[1..];
              Webhooks.CacheKeyInjective(g.guildId, g.channelId, h.guildId, h.channelId);
            }
          }
        }
        if Reachable(g, discord) then
          assert ([g] + rest)[1..] == rest;
          [g] + rest
        else rest
  }

  /** One delivery to make: the user and stream channel by index, and the
      destination. */
  datatype Job = Job(userIndex: nat, channelIndex: nat, dest: GuildRef)

  function Dests(jobs: seq<Job>): (r: seq<GuildRef>)
    ensures |r| == |jobs|
    ensures forall k :: 0 <= k < |jobs| ==> r[k] == jobs[k].dest
  {
    if |jobs| == 0 then [] else [jobs[0].dest] + Dests(jobs[1..])
  }

  /** `a` comes no later than `b` in the loops' order: users outermost,
      then stream channels. */
  predicate NoLater(a: Job, b: Job) {
    a.userIndex < b.userIndex || (a.userIndex == b.userIndex && a.channelIndex <= b.channelIndex)
  }

  predicate LoopOrdered(jobs: seq<Job>) {
    forall i, k :: 0 <= i < k < |jobs| ==> NoLater(jobs[i], jobs[k])
  }

  lemma OrderedConcat(a: seq<Job>, b: seq<Job>)
    requires LoopOrdered(a) && LoopOrdered(b)
    requires forall x, y :: x in a && y in b ==> NoLater(x, y)
    ensures LoopOrdered(a + b)
  {
    var c := a + b;
    forall i, k | 0 <= i < k < |c| ensures NoLater(c[i], c[k]) {
      if k < |a| {
        assert c[i] == a[i] && c[k] == a[k];
      } else if i >= |a| {
        assert c[i] == b[i - |a|] && c[k] == b[k - |a|];
      } else {
        assert c[i] == a[i] && c[k] == b[k - |a|];
        assert a[i] in a && b[k - |a|] in b;
      }
    }
  }

  /** No two deliveries for the same (user, stream channel) share a key. */
  predicate GroupDistinct(jobs: seq<Job>) {
    forall i, k ::
      (0 <= i < k < |jobs| && jobs[i].userIndex == jobs[k].userIndex && jobs[i].channelIndex == jobs[k].channelIndex)
      ==> Key(jobs[i].dest) != Key(jobs[k].dest)
  }

  lemma DistinctConcat(a: seq<Job>, b: seq<Job>)
    requires GroupDistinct(a) && GroupDistinct(b)
    requires forall x, y :: x in a && y in b ==> x.userIndex != y.userIndex || x.channelIndex != y.channelIndex
    ensures GroupDistinct(a + b)
  {
    var c := a + b;
    forall i, k | 0 <= i < k < |c| && c[i].userIndex == c[k].userIndex && c[i].channelIndex == c[k].channelIndex
      ensures Key(c[i].dest) != Key(c[k].dest)
    {
      if k < |a| {
        assert c[i] == a[i] && c[k] == a[k];
      } else if i >= |a| {
        assert c[i] == b[i - |a|] && c[k] == b[k - |a|];
      }
    }
  }

  /** The deliveries for one user and one stream channel, in the record's
      order. */
  function GroupJobs(ui: nat, ci: nat, name: string, data: seq<StreamerEntry>, discord: map<string, GuildView>): (r: seq<Job>)
    ensures forall j :: j in r ==> j.userIndex == ui && j.channelIndex == ci && Reachable(j.dest, discord) &&
                                   FindRecord(data, name).Some? && j.dest in FindRecord(data, name).value.guilds
    ensures GroupDistinct(r)
    ensures FindRecord(data, name).None? ==> r == []
    ensures FindRecord(data, name).Some? ==> Subseq(Dests(r), FindRecord(data, name).value.guilds)
  {
    match FindRecord(data, name)
    case None => []
    case Some(rec) =>
      var ts := Targets(rec.guilds, discord, {});
      var r := JobsTo(ui, ci, ts);
      assert forall j :: j in r ==> j.dest in ts by {
        forall j | j in r ensures j.dest in ts {
          var k :| 0 <= k < |r| && r[k] == j;
          assert ts[k] in ts;
        }
      }
      assert Dests(r) == ts;
      r
  }

  /** One delivery per destination, for one (user, stream channel). */
  function JobsTo(ui: nat, ci: nat, ts: seq<GuildRef>): (r: seq<Job>)
    ensures |r| == |ts|
    ensures forall k :: 0 <= k < |ts| ==> r[k] == Job(ui, ci, ts[k])
  {
    if |ts| == 0 then [] else [Job(ui, ci, ts[0])] + JobsTo(ui, ci, ts[1..])
  }

  /** Every reachable destination of the record gets a delivery. */
  lemma GroupJobsComplete(ui: nat, ci: nat, name: string, data: seq<StreamerEntry>, discord: map<string, GuildView>, g: GuildRef)
    requires FindRecord(data, name).Some? && PlainIds(FindRecord(data, name).value.guilds)
    requires g in FindRecord(data, name).value.guilds && Reachable(g, discord)
    ensures Job(ui, ci, g) in GroupJobs(ui, ci, name, data, discord)
  {
    var ts := Targets(FindRecord(data, name).value.guilds, discord, {});
    var k :| 0 <= k < |ts| && ts[k] == g;
    assert GroupJobs(ui, ci, name, data, discord)[k] == Job(ui, ci, g);
  }

  function ChannelJobs(ui: nat, channels: seq<string>, ci: nat, data: seq<StreamerEntry>, discord: map<string, GuildView>): (r: seq<Job>)
    requires ci <= |channels|
    ensures forall j :: j in r ==> j.userIndex == ui && ci <= j.channelIndex < |channels| && Reachable(j.dest, discord) &&
                                   FindRecord(data, channels[j.channelIndex]).Some? &&
                                   j.dest in FindRecord(data, channels[j.channelIndex]).value.guilds
    ensures GroupDistinct(r)
    ensures LoopOrdered(r)
    decreases |channels| - ci
  {
    if ci == |channels| then []
    else
      var here := GroupJobs(ui, ci, channels[ci], data, discord);
      var rest := ChannelJobs(ui, channels, ci + 1, data, discord);
      DistinctConcat(here, rest);
      OrderedConcat(here, rest);
      here + rest
  }

  function UserJobs(users: nat, channels: seq<string>, ui: nat, data: seq<StreamerEntry>, discord: map<string, GuildView>): (r: seq<Job>)
    requires ui <= users
    ensures forall j :: j in r ==> ui <= j.userIndex < users && j.channelIndex < |channels| && Reachable(j.dest, discord) &&
                                   FindRecord(data, channels[j.channelIndex]).Some? &&
                                   j.dest in FindRecord(data, channels[j.channelIndex]).value.guilds
    ensures GroupDistinct(r)
    ensures LoopOrdered(r)
    decreases users - ui
  {
    if ui == users then []
    else
      var here := ChannelJobs(ui, channels, 0, data, discord);
      var rest := UserJobs(users, channels, ui + 1, data, discord);
      DistinctConcat(here, rest);
      OrderedConcat(here, rest);
      here + rest
  }

  /** The deliveries of one `logAsUser` call, in the order the loops reach
      them: users outermost, then stream channels, then destinations. */
  function Plan(users: seq<ChatUser>, channels: seq<string>, data: seq<StreamerEntry>, discord: map<string, GuildView>): (r: seq<Job>)
    ensures forall j :: j in r ==> j.userIndex < |users| && j.channelIndex < |channels| && Reachable(j.dest, discord) &&
                                   FindRecord(data, channels[j.channelIndex]).Some? &&
                                   j.dest in FindRecord(data, channels[j.channelIndex]).value.guilds
    ensures GroupDistinct(r)
    ensures LoopOrdered(r)
  {
    UserJobs(|users|, channels, 0, data, discord)
  }

  lemma InConcat(x: Job, a: seq<Job>, b: seq<Job>)
    ensures x in a + b <==> x in a || x in b
  {
  }

  lemma {:induction false} ChannelJobsComplete(ui: nat, channels: seq<string>, c0: nat, ci: nat,
                                               data: seq<StreamerEntry>, discord: map<string, GuildView>, g: GuildRef)
    requires c0 <= ci < |channels|
    requires FindRecord(data, channels[ci]).Some? && PlainIds(FindRecord(data, channels[ci]).value.guilds)
    requires g in FindRecord(data, channels[ci]).value.guilds && Reachable(g, discord)
    ensures Job(ui, ci, g) in ChannelJobs(ui, channels, c0, data, discord)
    decreases ci - c0
  {
    var here := GroupJobs(ui, c0, channels[c0], data, discord);
    var rest := ChannelJobs(ui, channels, c0 + 1, data, discord);
    assert ChannelJobs(ui, channels, c0, data, discord) == here + rest;
    if c0 == ci {
      GroupJobsComplete(ui, ci, channels[ci], data, discord, g);
      InConcat(Job(ui, ci, g), here, rest);
    } else {
      ChannelJobsComplete(ui, channels, c0 + 1, ci, data, discord, g);
      InConcat(Job(ui, ci, g), here, rest);
    }
  }

  lemma {:induction false} UserJobsComplete(users: nat, channels: seq<string>, u0: nat, ui: nat, ci: nat,
                                            data: seq<StreamerEntry>, discord: map<string, GuildView>, g: GuildRef)
    requires u0 <= ui < users && ci < |channels|
    requires FindRecord(data, channels[ci]).Some? && PlainIds(FindRecord(data, channels[ci]).value.guilds)
    requires g in FindRecord(data, channels[ci]).value.guilds && Reachable(g, discord)
    ensures Job(ui, ci, g) in UserJobs(users, channels, u0, data, discord)
    decreases ui - u0
  {
    var here := ChannelJobs(u0, channels, 0, data, discord);
    var rest := UserJobs(users, channels, u0 + 1, data, discord);
    assert UserJobs(users, channels, u0, data, discord) == here + rest;
    if u0 == ui {
      ChannelJobsComplete(ui, channels, 0, ci, data, discord, g);
      InConcat(Job(ui, ci, g), here, rest);
    } else {
      UserJobsComplete(users, channels, u0 + 1, ui, ci, data, discord, g);
      InConcat(Job(ui, ci, g), here, rest);
    }
  }

  /** Every reachable destination of the record found for every stream
      channel gets a delivery for every user (destination ids without `-`,
      so that keys do not collide). */
  lemma PlanComplete(users: seq<ChatUser>, channels: seq<string>, data: seq<StreamerEntry>, discord: map<string, GuildView>,
                     ui: nat, ci: nat, g: GuildRef)
    requires ui < |users| && ci < |channels|
    requires FindRecord(data, channels[ci]).Some? && PlainIds(FindRecord(data, channels[ci]).value.guilds)
    requires g in FindRecord(data, channels[ci]).value.guilds && Reachable(g, discord)
    ensures Job(ui, ci, g) in Plan(users, channels, data, discord)
  {
    UserJobsComplete(|users|, channels, 0, ui, ci, data, discord, g);
  }

  /** A stream channel without a record gets no delivery. */
  lemma UnknownChannelSendsNothing(users: seq<ChatUser>, channels: seq<string>, data: seq<StreamerEntry>, discord: map<string, GuildView>, ci: nat)
    requires ci < |channels| && FindRecord(data, channels[ci]).None?
    ensures forall j :: j in Plan(users, channels, data, discord) ==> j.channelIndex != ci
  {
  }

  // The emote pipeline of logAsUser.ts --------------------------------------------------

  /** What the relay's environment answers in `logAsUser.ts`. */
  datatype Env = Env(
    discord: map<string, GuildView>,
    webhookFor: GuildRef -> Result<Option<ChannelHook>>,     // the uncached helper; a failure is not caught
    offsets: Option<seq<EmoteParse.OffsetEntry>>,              // `None`: no message, or offsets not a Map
    sevenTv: Option<seq<EmoteParse.SevenTvEmote>>,             // `None`: the 7TV fetch rejects
    upload: EmoteUpload.Uploader,
    existing: Option<seq<Emoji>>,                              // the fetch inside `loadEmotes`; `None`: it rejects
    refetched: Option<seq<Emoji>>)                             // the fetch per emote while inlining; `None`: it rejects

  /** Inlines each resolved emote whose 32-character name an application
      emoji carries, replacing the emote name on word boundaries. Without a
      matching application emoji the text is unchanged. */
  function InlineAll(text: string, resolved: seq<EmoteUpload.Resolved>, emojis: seq<Emoji>): (r: string)
    ensures (forall k :: 0 <= k < |resolved| ==> FindByName(emojis, EmoteUpload.EmojiName(resolved[k].emoteName)).None?)
            ==> r == text
    decreases |resolved|
  {
    if |resolved| == 0 then text
    else
      var name := resolved[0].emoteName;
      var next := match FindByName(emojis, EmoteUpload.EmojiName(name))
                  case Some(x) => if IsWord(name) then ReplaceWord(text, name, Render(x)) else text
                  case None => text;
      assert forall k :: 0 <= k < |resolved| - 1 ==> resolved[1..][k] == resolved[k + 1];
      InlineAll(next, resolved[1..], emojis)
  }

  /** A message that is just one emote's name becomes the emoji. */
  lemma InlineSingleWord(name: string, e: EmoteUpload.Resolved, emojis: seq<Emoji>)
    requires IsWord(name) && e.emoteName == name
    requires FindByName(emojis, EmoteUpload.EmojiName(name)).Some?
    ensures InlineAll(name, [e], emojis) == Render(FindByName(emojis, EmoteUpload.EmojiName(name)).value)
  {
    ReplaceWordBoundaries(name, Render(FindByName(emojis, EmoteUpload.EmojiName(name)).value));
    assert [e][1..] == [];
  }

  /** The body of the `try`: parse the emotes, upload them, inline them.
      A rejection anywhere is a failure: the 7TV fetch, the parse, the
      application-emoji fetch inside `loadEmotes`, an upload that fails
      twice, or the application-emoji fetch made for each resolved emote. */
  function EmotePipeline(formatted: string, env: Env): (r: Result<string>)
    ensures env.sevenTv.None? ==> r.Failure?
    ensures env.existing.None? ==> r.Failure?
    ensures r.Success? && (env.refetched.None? || env.refetched.value == []) ==> r.value == formatted
  {
    match env.sevenTv
    case None => Failure("7TV fetch rejected")
    case Some(list) =>
      var descriptor := EmoteParse.SerializeOffsets(env.offsets);
      match EmoteParse.ParseMessageWithEmotes(formatted, descriptor, EmoteParse.FetchEmotes(list))
      case Failure(e) => Failure(e)
      case Success(links) =>
        match env.existing
        case None => Failure("application emoji fetch rejected")
        case Some(existing) =>
          var load := EmoteUpload.LoadEmotes(EmoteUpload.LogAsUserCopy, env.upload, existing, links);
          match load.result
          case Failure(e) => Failure(e)
          case Success(resolved) =>
            if |resolved| > 0 && env.refetched.None? then Failure("application emoji fetch rejected")
            else Success(InlineAll(formatted, resolved, env.refetched.GetOr([])))
  }

  /** With the 7TV answer and well-formed emote offsets the parser never
      throws, so the pipeline fails exactly when the first application-emoji
      fetch rejects, an upload fails twice, or an emote was resolved and the
      fetch made while inlining it rejects. */
  lemma PipelineFailureCause(formatted: string, env: Env)
    requires env.sevenTv.Some? && (env.offsets.Some? ==> EmoteParse.WellFormed(env.offsets.value))
    ensures var parsed := EmoteParse.ParseMessageWithEmotes(
              formatted, EmoteParse.SerializeOffsets(env.offsets), EmoteParse.FetchEmotes(env.sevenTv.value));
            parsed.Success? &&
            (EmotePipeline(formatted, env).Failure? <==>
               env.existing.None? ||
               EmoteUpload.LoadEmotes(EmoteUpload.LogAsUserCopy, env.upload, env.existing.value, parsed.value).result.Failure? ||
               (env.refetched.None? &&
                |EmoteUpload.LoadEmotes(EmoteUpload.LogAsUserCopy, env.upload, env.existing.value, parsed.value).result.value| > 0))
  {
    EmoteParse.SerializedDescriptorParses(env.offsets, formatted, EmoteParse.FetchEmotes(env.sevenTv.value));
  }

  function TargetFor(call: SendCall, g: GuildRef): Option<Target> {
    if call == WithTarget then Some(Target(g.channelId, false)) else None
  }

  /** One delivery of `logAsUser.ts`; `rejected` is the platform's answer
      to its `webhook.send`. */
  function DeliverWithEmotes(user: ChatUser, g: GuildRef, env: Env, call: SendCall, rejected: bool): (o: Outcome)
    requires Reachable(g, env.discord)
    ensures call == FourArguments || rejected ==> !o.Sent?
    ensures o.Sent? ==> o.payload.username == user.user &&
                        o.payload.avatarURL == user.profilePictureUrl.GetOr(DefaultAvatar) &&
                        o.payload.threadId.None? &&
                        EmotePipeline(FormatMessageWithEmojis(user.message, env.discord[g.guildId].emojis), env)
                          == Success(o.payload.content)
  {
    var formatted := FormatMessageWithEmojis(user.message, env.discord[g.guildId].emojis);
    match env.webhookFor(g)
    case Failure(_) => Uncaught
    case Success(None) => NoWebhook
    case Success(Some(w)) =>
      match EmotePipeline(formatted, env)
      case Failure(_) => Evicted
      case Success(text) =>
        match SendWebhookMessage(Some(w), text, user.user, user.profilePictureUrl.GetOr(DefaultAvatar), false,
                                 TargetFor(call, g), rejected)
        case Failure(_) => Evicted
        case Success(None) => NoWebhook
        case Success(Some(p)) => Sent(p)
  }

  /** Any failure of the emote pipeline, a rejected emoji fetch included,
      lands in the `catch`: the key is evicted and nothing is sent. */
  lemma EmoteFailureEvicts(user: ChatUser, g: GuildRef, env: Env, w: ChannelHook, call: SendCall, rejected: bool)
    requires Reachable(g, env.discord) && env.webhookFor(g) == Success(Some(w))
    requires EmotePipeline(FormatMessageWithEmojis(user.message, env.discord[g.guildId].emojis), env).Failure?
    ensures DeliverWithEmotes(user, g, env, call, rejected) == Evicted
  {
  }

  /** With the call as written, every delivery whose webhook and emotes
      resolve ends in the `catch`: its key is evicted and nothing is sent. */
  lemma FourArgumentsNeverSends(user: ChatUser, g: GuildRef, env: Env, w: ChannelHook, rejected: bool)
    requires Reachable(g, env.discord) && env.webhookFor(g) == Success(Some(w))
    ensures DeliverWithEmotes(user, g, env, FourArguments, rejected) == Evicted
  {
  }

  /** With the target supplied, a delivery whose send the platform accepts
      is sent, carrying the text with its emotes inlined. */
  lemma WithTargetSends(user: ChatUser, g: GuildRef, env: Env, w: ChannelHook, text: string)
    requires Reachable(g, env.discord) && env.webhookFor(g) == Success(Some(w))
    requires EmotePipeline(FormatMessageWithEmojis(user.message, env.discord[g.guildId].emojis), env) == Success(text)
    ensures DeliverWithEmotes(user, g, env, WithTarget, false).Sent?
    ensures DeliverWithEmotes(user, g, env, WithTarget, false).payload.content == text
  {
    var sent := SendWebhookMessage(Some(w), text, user.user, user.profilePictureUrl.GetOr(DefaultAvatar), false,
                                   TargetFor(WithTarget, g), false);
    assert sent.Success? && sent.value.Some? && sent.value.value.content == text;
  }

  /** With the target supplied, a send the platform rejects lands in the
      `catch`, which evicts the key: the same as an emote failure. */
  lemma RejectedSendEvicts(user: ChatUser, g: GuildRef, env: Env, w: ChannelHook, text: string)
    requires Reachable(g, env.discord) && env.webhookFor(g) == Success(Some(w))
    requires EmotePipeline(FormatMessageWithEmojis(user.message, env.discord[g.guildId].emojis), env) == Success(text)
    ensures DeliverWithEmotes(user, g, env, WithTarget, true) == Evicted
  {
  }

  /** A null webhook sends nothing and evicts nothing; with a webhook and
      no profile picture the default avatar is used. */
  lemma NullWebhookAndDefaultAvatar(user: ChatUser, g: GuildRef, env: Env, call: SendCall, rejected: bool)
    requires Reachable(g, env.discord)
    ensures env.webhookFor(g) == Success(None) ==> DeliverWithEmotes(user, g, env, call, rejected) == NoWebhook
    ensures var o := DeliverWithEmotes(user, g, env, call, rejected);
            o.Sent? && user.profilePictureUrl.None? ==> o.payload.avatarURL == "https://i.imgur.com/nrhRy0b.png"
  {
  }

  /** Every planned delivery names a user that exists and a destination the
      bot can reach. */
  predicate Runnable(plan: seq<Job>, users: seq<ChatUser>, discord: map<string, GuildView>) {
    forall j :: j in plan ==> j.userIndex < |users| && Reachable(j.dest, discord)
  }

  /** No delivery among the first `n` failed for this key. */
  predicate NotEvicted(plan: seq<Job>, outcomes: seq<Outcome>, n: nat, key: string)
    requires n <= |plan| && n <= |outcomes|
  {
    forall k :: 0 <= k < n && outcomes[k].Evicted? ==> Key(plan[k].dest) != key
  }

  /** The outcomes of the first `n` planned deliveries, each on its own. */
  function OutcomesUpTo(plan: seq<Job>, users: seq<ChatUser>, env: Env, call: SendCall, rejects: nat -> bool, n: nat)
    : (r: seq<Outcome>)
    requires Runnable(plan, users, env.discord) && n <= |plan|
    ensures |r| == n
    ensures forall k :: 0 <= k < n ==>
              r[k] == DeliverWithEmotes(users[plan[k].userIndex], plan[k].dest, env, call, rejects(k))
    decreases n
  {
    if n == 0 then []
    else
      assert plan[n - 1] in plan;
      var prev := OutcomesUpTo(plan, users, env, call, rejects, n - 1);
      var last := DeliverWithEmotes(users[plan[n - 1].userIndex], plan[n - 1].dest, env, call, rejects(n - 1));
      assert forall k :: 0 <= k < n - 1 ==> (prev + [last])[k] == prev[k];
      prev + [last]
  }

  /** The outcome of every planned delivery, each on its own. */
  function Outcomes(plan: seq<Job>, users: seq<ChatUser>, env: Env, call: SendCall, rejects: nat -> bool): (r: seq<Outcome>)
    requires Runnable(plan, users, env.discord)
    ensures |r| == |plan|
    ensures forall k :: 0 <= k < |plan| ==>
              r[k] == DeliverWithEmotes(users[plan[k].userIndex], plan[k].dest, env, call, rejects(k))
  {
    OutcomesUpTo(plan, users, env, call, rejects, |plan|)
  }

  /** One more delivery: a key stays unevicted unless that delivery was
      evicted for it. */
  lemma NotEvictedNext(plan: seq<Job>, outcomes: seq<Outcome>, i: nat, key: string)
    requires i < |plan| && i < |outcomes|
    ensures NotEvicted(plan, outcomes, i + 1, key) <==>
            NotEvicted(plan, outcomes, i, key) && !(outcomes[i].Evicted? && Key(plan[i].dest) == key)
  {
  }

  /** The deliveries of `logAsUser.ts` in turn; the webhook cache only loses
      the keys of failed deliveries. */
  method RunWithEmotes(plan: seq<Job>, users: seq<ChatUser>, env: Env, call: SendCall, rejects: nat -> bool,
                       cache: Webhooks.Cache)
    returns (outcomes: seq<Outcome>, cacheOut: Webhooks.Cache)
    requires Runnable(plan, users, env.discord)
    ensures |outcomes| == |plan|
    ensures forall k :: 0 <= k < |plan| ==>
              outcomes[k] == DeliverWithEmotes(users[plan[k].userIndex], plan[k].dest, env, call, rejects(k))
    ensures forall key :: key in cacheOut <==> key in cache && NotEvicted(plan, outcomes, |plan|, key)
    ensures forall key :: key in cacheOut ==> cacheOut[key] == cache[key]
  {
    outcomes := Outcomes(plan, users, env, call, rejects);
    cacheOut := cache;
    var i := 0;
    while i < |plan|
      invariant 0 <= i <= |plan|
      invariant forall key :: key in cacheOut <==> key in cache && NotEvicted(plan, outcomes, i, key)
      invariant forall key :: key in cacheOut ==> cacheOut[key] == cache[key]
    {
      ghost var c0 := cacheOut;
      if outcomes[i].Evicted? {
        cacheOut := cacheOut - {Key(plan[i].dest)};
      }
      forall key ensures key in cacheOut <==> key in cache && NotEvicted(plan, outcomes, i + 1, key) {
        NotEvictedNext(plan, outcomes, i, key);
        assert key in cacheOut <==> key in c0 && !(outcomes[i].Evicted? && Key(plan[i].dest) == key);
      }
      i := i + 1;
    }
  }

  /** `logAsUser` of `logAsUser.ts`. With the call as written nothing is
      sent. */
  method LogAsUserWithEmotes(users: seq<ChatUser>, channels: seq<string>, data: seq<StreamerEntry>, env: Env,
                             call: SendCall, rejects: nat -> bool, cache: Webhooks.Cache)
    returns (outcomes: seq<Outcome>, cacheOut: Webhooks.Cache)
    ensures |outcomes| == |Plan(users, channels, data, env.discord)|
    ensures forall key :: key in cacheOut <==>
              key in cache && NotEvicted(Plan(users, channels, data, env.discord), outcomes, |outcomes|, key)
    ensures forall key :: key in cacheOut ==> cacheOut[key] == cache[key]
    ensures call == FourArguments ==> forall k :: 0 <= k < |outcomes| ==> !outcomes[k].Sent?
  {
    var plan := Plan(users, channels, data, env.discord);
    outcomes, cacheOut := RunWithEmotes(plan, users, env, call, rejects, cache);
  }

  // The DiscordBot.ts revision: cached webhooks, no emotes ------------------------------

  /** The relay's environment in `DiscordBot.ts`: the channels' webhooks
      (by cache key) and, per key, how the platform answers. */
  datatype BotEnv = BotEnv(
    discord: map<string, GuildView>,
    scripts: string -> Webhooks.Script)

  function HooksAt(hooks: map<string, seq<Webhooks.Webhook>>, key: string): seq<Webhooks.Webhook> {
    if key in hooks then hooks[key] else []
  }

  datatype Step = Step(outcome: Outcome, cache: Webhooks.Cache, hooks: map<string, seq<Webhooks.Webhook>>)

  /** One delivery of `DiscordBot.ts`: the cached lookup, then the send; a
      failed send evicts the key. `rejected` is the platform's answer to
      the `webhook.send`. */
  method BotDeliver(cache: Webhooks.Cache, hooks: map<string, seq<Webhooks.Webhook>>, user: ChatUser, g: GuildRef,
                    env: BotEnv, call: SendCall, rejected: bool) returns (s: Step)
    requires Reachable(g, env.discord)
    ensures forall k :: k != Key(g) ==> (k in s.cache <==> k in cache) && (k in cache ==> s.cache[k] == cache[k])
    ensures call == FourArguments || rejected ==> !s.outcome.Sent? && Key(g) !in s.cache
    ensures call == WithTarget && s.outcome.Sent? ==> Key(g) in s.cache
    ensures s.outcome.Evicted? ==> Key(g) !in s.cache
    ensures Key(g) in cache ==> (s.outcome.Evicted? <==> call == FourArguments || rejected)
    ensures call == WithTarget && !rejected && Key(g) in cache ==> s.outcome.Sent? && s.cache == cache
    ensures s.outcome.Sent? ==>
              s.outcome.payload.content == FormatMessageWithEmojis(user.message, env.discord[g.guildId].emojis) &&
              s.outcome.payload.username == user.user &&
              s.outcome.payload.avatarURL == user.profilePictureUrl.GetOr(DefaultAvatar)
  {
    var key := Key(g);
    var r := Webhooks.GetOrCreateWebhook(cache, g.guildId, g.channelId, HooksAt(hooks, key), BotName, env.scripts(key));
    var hooks2 := hooks[key := r.hooks];
    var formatted := FormatMessageWithEmojis(user.message, env.discord[g.guildId].emojis);
    match r.webhook {
      case None =>
        s := Step(NoWebhook, r.cache, hooks2);
      case Some(w) =>
        var hook := ChannelHook(w.id, w.name, g.channelId);
        var sent := SendWebhookMessage(Some(hook), formatted, user.user, user.profilePictureUrl.GetOr(DefaultAvatar),
                                       false, TargetFor(call, g), rejected);
        match sent {
          case Failure(_) => s := Step(Evicted, r.cache - {key}, hooks2);
          case Success(None) => s := Step(NoWebhook, r.cache, hooks2);
          case Success(Some(p)) => s := Step(Sent(p), r.cache, hooks2);
        }
    }
  }

  /** No delivery among the first `n` goes to this key. */
  predicate Untouched(plan: seq<Job>, n: nat, key: string)
    requires n <= |plan|
  {
    forall k :: 0 <= k < n ==> Key(plan[k].dest) != key
  }

  /** No delivery after the `k`-th and before the `n`-th to the same key is
      rejected. */
  predicate AcceptedAfter(plan: seq<Job>, rejects: nat -> bool, k: nat, n: nat)
    requires k < n <= |plan|
  {
    forall j :: k < j < n && Key(plan[j].dest) == Key(plan[k].dest) ==> !rejects(j)
  }

  /** No delivery after the `k`-th and before the `n`-th goes to the same
      key. */
  predicate LastForKey(plan: seq<Job>, k: nat, n: nat)
    requires k < n <= |plan|
  {
    forall j :: k < j < n ==> Key(plan[j].dest) != Key(plan[k].dest)
  }

  /** The cache after a delivery differs from the one before at most at
      that delivery's key. */
  ghost predicate KeyFrame(c0: Webhooks.Cache, c1: Webhooks.Cache, key: string) {
    forall k :: k != key ==> (k in c1 <==> k in c0)
  }

  /** One more delivery with the call as written: nothing has been sent and
      no touched key is cached. */
  lemma FourArgumentsStep(plan: seq<Job>, before: seq<Outcome>, o: Outcome, c0: Webhooks.Cache, c1: Webhooks.Cache, i: nat)
    requires i < |plan| && |before| == i
    requires forall k :: 0 <= k < i ==> !before[k].Sent? && Key(plan[k].dest) !in c0
    requires !o.Sent? && Key(plan[i].dest) !in c1 && KeyFrame(c0, c1, Key(plan[i].dest))
    ensures var after := before + [o];
            forall k :: 0 <= k < i + 1 ==> !after[k].Sent? && Key(plan[k].dest) !in c1
  {
    var after := before + [o];
    forall k | 0 <= k < i + 1 ensures !after[k].Sent? && Key(plan[k].dest) !in c1 {
      if k < i {
        assert after[k] == before[k];
      }
    }
  }

  /** One more delivery with the target supplied: a sent key whose later
      sends were all accepted stays cached. */
  lemma AcceptedStep(plan: seq<Job>, rejects: nat -> bool, before: seq<Outcome>, o: Outcome,
                     c0: Webhooks.Cache, c1: Webhooks.Cache, i: nat)
    requires i < |plan| && |before| == i
    requires forall k :: 0 <= k < i && before[k].Sent? && AcceptedAfter(plan, rejects, k, i) ==> Key(plan[k].dest) in c0
    requires o.Sent? ==> Key(plan[i].dest) in c1
    requires !rejects(i) && Key(plan[i].dest) in c0 ==> Key(plan[i].dest) in c1
    requires KeyFrame(c0, c1, Key(plan[i].dest))
    ensures var after := before + [o];
            forall k :: 0 <= k < i + 1 && after[k].Sent? && AcceptedAfter(plan, rejects, k, i + 1) ==>
              Key(plan[k].dest) in c1
  {
    var after := before + [o];
    forall k | 0 <= k < i + 1 && after[k].Sent? && AcceptedAfter(plan, rejects, k, i + 1)
      ensures Key(plan[k].dest) in c1
    {
      if k < i {
        assert after[k] == before[k];
        assert AcceptedAfter(plan, rejects, k, i);
        if Key(plan[k].dest) == Key(plan[i].dest) {
          assert !rejects(i);
        }
      }
    }
  }

  /** One more delivery: a rejected send that is the last to its key has
      sent nothing and left its key evicted. */
  lemma RejectedStep(plan: seq<Job>, rejects: nat -> bool, before: seq<Outcome>, o: Outcome,
                     c0: Webhooks.Cache, c1: Webhooks.Cache, i: nat)
    requires i < |plan| && |before| == i
    requires forall k :: 0 <= k < i && rejects(k) && LastForKey(plan, k, i) ==>
               !before[k].Sent? && Key(plan[k].dest) !in c0
    requires rejects(i) ==> !o.Sent? && Key(plan[i].dest) !in c1
    requires KeyFrame(c0, c1, Key(plan[i].dest))
    ensures var after := before + [o];
            forall k :: 0 <= k < i + 1 && rejects(k) && LastForKey(plan, k, i + 1) ==>
              !after[k].Sent? && Key(plan[k].dest) !in c1
  {
    var after := before + [o];
    forall k | 0 <= k < i + 1 && rejects(k) && LastForKey(plan, k, i + 1)
      ensures !after[k].Sent? && Key(plan[k].dest) !in c1
    {
      if k < i {
        assert after[k] == before[k];
        assert LastForKey(plan, k, i);
        assert Key(plan[i].dest) != Key(plan[k].dest);
      }
    }
  }

  /** The deliveries of `DiscordBot.ts` in turn, threading the webhook
      cache and the channels' webhooks. With the call as written nothing is
      sent and no key the relay touched stays cached. With the target
      supplied a sent delivery's key stays cached unless a later send to
      it is rejected; whatever the call, a rejected send that is the last
      to its key leaves the key evicted. Keys the relay does not touch keep
      their entries. */
  method RunCached(plan: seq<Job>, users: seq<ChatUser>, env: BotEnv, call: SendCall, rejects: nat -> bool,
                   cache: Webhooks.Cache, hooks: map<string, seq<Webhooks.Webhook>>)
    returns (outcomes: seq<Outcome>, cacheOut: Webhooks.Cache, hooksOut: map<string, seq<Webhooks.Webhook>>)
    requires Runnable(plan, users, env.discord)
    ensures |outcomes| == |plan|
    ensures call == FourArguments ==>
              forall k :: 0 <= k < |plan| ==> !outcomes[k].Sent? && Key(plan[k].dest) !in cacheOut
    ensures call == WithTarget ==>
              forall k :: 0 <= k < |plan| && outcomes[k].Sent? && AcceptedAfter(plan, rejects, k, |plan|) ==>
                Key(plan[k].dest) in cacheOut
    ensures forall k :: 0 <= k < |plan| && rejects(k) && LastForKey(plan, k, |plan|) ==>
              !outcomes[k].Sent? && Key(plan[k].dest) !in cacheOut
    ensures forall key :: Untouched(plan, |plan|, key) ==>
              (key in cacheOut <==> key in cache) && (key in cache ==> cacheOut[key] == cache[key])
    ensures forall k :: 0 <= k < |plan| && outcomes[k].Sent? ==>
              outcomes[k].payload.username == users[plan[k].userIndex].user
  {
    outcomes := [];
    cacheOut := cache;
    hooksOut := hooks;
    var i := 0;
    while i < |plan|
      invariant 0 <= i <= |plan| && |outcomes| == i
      invariant call == FourArguments ==>
                  forall k :: 0 <= k < i ==> !outcomes[k].Sent? && Key(plan[k].dest) !in cacheOut
      invariant call == WithTarget ==>
                  forall k :: 0 <= k < i && outcomes[k].Sent? && AcceptedAfter(plan, rejects, k, i) ==>
                    Key(plan[k].dest) in cacheOut
      invariant forall k :: 0 <= k < i && rejects(k) && LastForKey(plan, k, i) ==>
                  !outcomes[k].Sent? && Key(plan[k].dest) !in cacheOut
      invariant forall key :: Untouched(plan, i, key) ==>
                  (key in cacheOut <==> key in cache) && (key in cache ==> cacheOut[key] == cache[key])
      invariant forall k :: 0 <= k < i && outcomes[k].Sent? ==>
                  outcomes[k].payload.username == users[plan[k].userIndex].user
    {
      var job := plan[i];
      assert job in plan;
      var s;
      s := BotDeliver(cacheOut, hooksOut, users[job.userIndex], job.dest, env, call, rejects(i));
      ghost var before, c0 := outcomes, cacheOut;
      var key := Key(job.dest);
      assert KeyFrame(c0, s.cache, key);
      outcomes := outcomes + [s.outcome];
      cacheOut := s.cache;
      if call == FourArguments {
        FourArgumentsStep(plan, before, s.outcome, c0, cacheOut, i);
      } else {
        AcceptedStep(plan, rejects, before, s.outcome, c0, cacheOut, i);
      }
      RejectedStep(plan, rejects, before, s.outcome, c0, cacheOut, i);
      forall k | 0 <= k < i + 1 && outcomes[k].Sent?
        ensures outcomes[k].payload.username == users[plan[k].userIndex].user
      {
        if k < i {
          assert outcomes[k] == before[k];
        }
      }
      forall other | Untouched(plan, i + 1, other)
        ensures Untouched(plan, i, other) && other != key
      {
        assert Key(plan[i].dest) != other;
      }
      hooksOut := s.hooks;
      i := i + 1;
    }
  }

  /** `logAsUser` of `DiscordBot.ts`. */
  method LogAsUserCached(users: seq<ChatUser>, channels: seq<string>, data: seq<StreamerEntry>, env: BotEnv,
                         call: SendCall, rejects: nat -> bool,
                         cache: Webhooks.Cache, hooks: map<string, seq<Webhooks.Webhook>>)
    returns (outcomes: seq<Outcome>, cacheOut: Webhooks.Cache, hooksOut: map<string, seq<Webhooks.Webhook>>)
    ensures |outcomes| == |Plan(users, channels, data, env.discord)|
    ensures call == FourArguments ==>
              forall k :: 0 <= k < |outcomes| ==>
                (!outcomes[k].Sent? && Key(Plan(users, channels, data, env.discord)[k].dest) !in cacheOut)
    ensures forall key :: key in cache && Untouched(Plan(users, channels, data, env.discord), |outcomes|, key) ==>
              key in cacheOut && cacheOut[key] == cache[key]
  {
    var plan := Plan(users, channels, data, env.discord);
    outcomes, cacheOut, hooksOut := RunCached(plan, users, env, call, rejects, cache, hooks);
  }
}
