/** The moderation mirror of `handleTwitchEvents`: on a Twitch ban the
    relayed messages of the banned user are rewritten as `BANNED: ||…||`
    (a spoiler), on an unban the wrapper is stripped again. The channel's
    recent messages, the bot's permissions and the outcome of each edit are
    inputs; edits are returned in the order they are attempted. */
module Moderation {
  import opened Wrappers
  import opened Text

  const BannedMarker: string := "BANNED:"
  const BannedOpen: string := "BANNED: ||"
  const SpoilerClose: string := "||"

  datatype Permission = ViewChannel | ManageChannels | ManageMessages | SendMessages

  /** A message of the channel as `channel.messages.fetch()` lists it,
      newest first. */
  datatype ChannelMessage = ChannelMessage(id: string, authorUsername: string, content: string)

  datatype EditFlag = SuppressEmbeds

  /** One `webhook.editMessage(id, { content, flags })` call. */
  datatype Edit = Edit(messageId: string, content: string, flags: seq<EditFlag>)

  /** The redaction applied to one message on a ban. */
  function BanContent(c: string): (r: string)
    ensures StartsWith(r, BannedMarker)
    ensures r == c || r == BannedOpen + c + SpoilerClose
  {
    if StartsWith(c, BannedMarker) then c else BannedOpen + c + SpoilerClose
  }

  /** The restoration applied to one message on an unban: every
      `BANNED: ||` is deleted, then the last two characters are dropped. */
  function UnbanContent(c: string): (r: string)
    ensures !StartsWith(c, BannedMarker) ==> r == c
  {
    if StartsWith(c, BannedMarker) then Slice(RemoveAll(c, BannedOpen), 0, -2) else c
  }

  /** Redacting twice is redacting once. */
  lemma BanIdempotent(c: string)
    ensures BanContent(BanContent(c)) == BanContent(c)
  {
  }

  /** The unban rewrite undoes the ban rewrite, as long as the original text
      was not already marked and holds no `BANNED: ||` of its own (the global
      regex would delete that one too). */
  lemma UnbanAfterBan(c: string)
    requires !StartsWith(c, BannedMarker)
    requires !Contains(c + SpoilerClose, BannedOpen)
    ensures UnbanContent(BanContent(c)) == c
  {
    var b := BannedOpen + c + SpoilerClose;
    assert BanContent(c) == b;
    assert StartsWith(b, BannedMarker) by {
      assert b[..|BannedMarker|] == BannedMarker;
    }
    assert StartsWith(b, BannedOpen) by {
      assert b[..|BannedOpen|] == BannedOpen;
    }
    assert b[|BannedOpen|..] == c + SpoilerClose;
    RemoveAllAbsent(c + SpoilerClose, BannedOpen);
    assert RemoveAll(b, BannedOpen) == c + SpoilerClose;
    assert (c + SpoilerClose)[0..|c|] == c;
  }

  /** The counterexample to an unconditional round trip: a text that quotes
      the marker loses it. */
  lemma UnbanAfterBanLosesQuotedMarker()
    ensures UnbanContent(BanContent("xBANNED: ||")) == "x"
  {
    var c := "xBANNED: ||";
    assert c[0] != BannedMarker[0];
    var b := BannedOpen + c + SpoilerClose;
    assert BanContent(c) == b;
    assert b[..|BannedMarker|] == BannedMarker;
    assert b[..|BannedOpen|] == BannedOpen;
    var t := b[|BannedOpen|..];
    assert t == "xBANNED: ||||";
    assert t[0] != BannedOpen[0];
    var u := t[1..];
    assert u[..|BannedOpen|] == BannedOpen;
    var v := u[|BannedOpen|..];
    assert v == "||";
    assert v[1..][1..] == "";
    assert RemoveAll(v, BannedOpen) == "||";
    assert RemoveAll(u, BannedOpen) == "||";
    assert RemoveAll(t, BannedOpen) == "x||";
    assert RemoveAll(b, BannedOpen) == "x||";
  }

  /** `permissions?.has([ViewChannel, ManageChannels, ManageMessages])`;
      `permissionsFor` may return null. */
  predicate MayModerate(perms: Option<set<Permission>>) {
    perms.Some? && {ViewChannel, ManageChannels, ManageMessages} <= perms.value
  }

  /** The fetched messages written by `user`, in fetch order. */
  function Authored(msgs: seq<ChannelMessage>, user: string): (r: seq<ChannelMessage>)
    ensures forall m :: m in r <==> m in msgs && m.authorUsername == user
    ensures |r| <= |msgs|
  {
    if |msgs| == 0 then []
    else if msgs[0].authorUsername == user then [msgs[0]] + Authored(msgs[1..], user)
    else Authored(msgs[1..], user)
  }

  /** The id of `msgs.first()`, the newest fetched message. */
  function NewestId(msgs: seq<ChannelMessage>): Option<string> {
    if |msgs| == 0 then None else Some(msgs[0].id)
  }

  /** The messages the ban loop visits without `continue`: written by `user`
      and not sharing the newest message's id. */
  function BanTargets(msgs: seq<ChannelMessage>, user: string, newest: Option<string>): (r: seq<ChannelMessage>)
    ensures forall m :: m in r <==> m in msgs && m.authorUsername == user && Some(m.id) != newest
  {
    if |msgs| == 0 then []
    else if msgs[0].authorUsername == user && Some(msgs[0].id) != newest then
      [msgs[0]] + BanTargets(msgs[1..], user, newest)
    else BanTargets(msgs[1..], user, newest)
  }

  function RedactAll(ts: seq<ChannelMessage>): (r: seq<Edit>)
    ensures |r| == |ts|
    ensures forall k :: 0 <= k < |ts| ==> r[k] == Edit(ts[k].id, BanContent(ts[k].content), [SuppressEmbeds])
  {
    if |ts| == 0 then [] else [Edit(ts[0].id, BanContent(ts[0].content), [SuppressEmbeds])] + RedactAll(ts[1..])
  }

  /** The edits of an unban: every message restored, with the flags
      cleared. */
  function RestoreAll(ts: seq<ChannelMessage>): (r: seq<Edit>)
    ensures |r| == |ts|
    ensures forall k :: 0 <= k < |ts| ==> r[k] == Edit(ts[k].id, UnbanContent(ts[k].content), [])
  {
    if |ts| == 0 then [] else [Edit(ts[0].id, UnbanContent(ts[0].content), [])] + RestoreAll(ts[1..])
  }

  /** The messages once the `k`-th edit has been applied to the `k`-th
      message. */
  function ApplyEdits(ts: seq<ChannelMessage>, edits: seq<Edit>): (r: seq<ChannelMessage>)
    requires |edits| == |ts|
    ensures |r| == |ts|
    ensures forall k :: 0 <= k < |ts| ==> r[k] == ts[k].(content := edits[k].content)
  {
    if |ts| == 0 then [] else [ts[0].(content := edits[0].content)] + ApplyEdits(ts[1..], edits[1..])
  }

  /** An unban after a ban puts back every message's text, as long as no
      text was already marked or quotes `BANNED: ||` itself. */
  lemma RestoreAfterRedact(ts: seq<ChannelMessage>)
    requires forall k :: 0 <= k < |ts| ==>
               !StartsWith(ts[k].content, BannedMarker) && !Contains(ts[k].content + SpoilerClose, BannedOpen)
    ensures var restored := RestoreAll(ApplyEdits(ts, RedactAll(ts)));
            forall k :: 0 <= k < |ts| ==> restored[k] == Edit(ts[k].id, ts[k].content, [])
  {
    forall k | 0 <= k < |ts| ensures UnbanContent(BanContent(ts[k].content)) == ts[k].content {
      UnbanAfterBan(ts[k].content);
    }
  }

  /** How many edits the ban loop attempts: it awaits each edit in turn, so
      the first edit that rejects ends the loop (the rejection escapes the
      `.then` callback). */
  function BanCount(ts: seq<ChannelMessage>, failing: set<string>): (n: nat)
    ensures n <= |ts|
    ensures (forall m | m in ts :: m.id !in failing) ==> n == |ts|
    ensures n < |ts| ==> n > 0 && ts[n - 1].id in failing
    ensures forall k :: 0 <= k < n - 1 ==> ts[k].id !in failing
  {
    if |ts| == 0 then 0
    else if ts[0].id in failing then 1
    else
      assert forall m | m in ts[1..] :: m in ts;
      var n := BanCount(ts[1..], failing) + 1;
      assert forall k :: 1 <= k < n - 1 ==> ts[k] == ts[1..][k - 1];
      n
  }

  /** The edits the ban loop makes, in order. */
  function BanLoop(ts: seq<ChannelMessage>, failing: set<string>): (r: seq<Edit>)
    ensures r <= RedactAll(ts)
    ensures (forall m | m in ts :: m.id !in failing) ==> r == RedactAll(ts)
    ensures |r| < |ts| ==> |r| > 0 && r[|r| - 1].messageId in failing
  {
    RedactAll(ts)[..BanCount(ts, failing)]
  }

  /** `handleTwitchEvents`: the edits attempted for one event.
      `botPresent` is `channel.guild.members.me` being set, `fetched` is
      `None` when `channel.messages.fetch()` rejects, `failing` holds the ids
      whose edit rejects. */
  function HandleTwitchEvents(
    botPresent: bool, perms: Option<set<Permission>>, user: string,
    event: Option<string>, fetched: Option<seq<ChannelMessage>>, failing: set<string>
  ): (r: seq<Edit>)
    ensures !botPresent || !MayModerate(perms) ==> r == []
    ensures event != Some("onBan") && event != Some("onUnban") ==> r == []
    ensures fetched.None? ==> r == []
    ensures botPresent && MayModerate(perms) && event == Some("onUnban") && fetched.Some? ==>
              r == RestoreAll(Authored(fetched.value, user))
    ensures botPresent && MayModerate(perms) && event == Some("onBan") && fetched.Some? ==>
              r <= RedactAll(BanTargets(fetched.value, user, NewestId(fetched.value)))
  {
    if !botPresent || !MayModerate(perms) then []
    else if event == Some("onBan") then
      match fetched
      case None => []
      case Some(msgs) => BanLoop(BanTargets(msgs, user, NewestId(msgs)), failing)
    else if event == Some("onUnban") then
      // the second permission check of the unban branch is implied by the first
      if !({ManageChannels, ManageMessages} <= perms.value) then []
      else
        match fetched
        case None => []
        case Some(msgs) => RestoreAll(Authored(msgs, user))
    else []
  }

  /** A ban never edits the newest fetched message, only messages written by
      the banned user, and every edit is a redaction that suppresses embeds;
      when no edit fails, every other message of the user is redacted. */
  lemma BanEdits(
    botPresent: bool, perms: Option<set<Permission>>, user: string,
    msgs: seq<ChannelMessage>, failing: set<string>)
    requires |msgs| > 0
    ensures var r := HandleTwitchEvents(botPresent, perms, user, Some("onBan"), Some(msgs), failing);
            forall k | 0 <= k < |r| ::
              r[k].messageId != msgs[0].id && r[k].flags == [SuppressEmbeds] &&
              exists m :: m in msgs && m.authorUsername == user && m.id == r[k].messageId &&
                          r[k].content == BanContent(m.content)
    ensures botPresent && MayModerate(perms) && (forall m | m in msgs :: m.id !in failing) ==>
              HandleTwitchEvents(botPresent, perms, user, Some("onBan"), Some(msgs), failing)
                == RedactAll(BanTargets(msgs, user, Some(msgs[0].id)))
  {
    var r := HandleTwitchEvents(botPresent, perms, user, Some("onBan"), Some(msgs), failing);
    if botPresent && MayModerate(perms) {
      var ts := BanTargets(msgs, user, Some(msgs[0].id));
      var all := RedactAll(ts);
      assert r <= all;
      forall k | 0 <= k < |r|
        ensures r[k].messageId != msgs[0].id && r[k].flags == [SuppressEmbeds]
        ensures exists m :: m in msgs && m.authorUsername == user && m.id == r[k].messageId &&
                            r[k].content == BanContent(m.content)
      {
        assert r[k] == all[k];
        assert ts[k] in ts;
      }
    }
  }

  /** An unban restores every message of the user, the newest included, with
      an empty flag list. */
  lemma UnbanEditsNewest(botPresent: bool, perms: Option<set<Permission>>, user: string,
                         msgs: seq<ChannelMessage>, failing: set<string>)
    requires botPresent && MayModerate(perms)
    requires |msgs| > 0 && msgs[0].authorUsername == user
    ensures var r := HandleTwitchEvents(botPresent, perms, user, Some("onUnban"), Some(msgs), failing);
            |r| > 0 && r[0] == Edit(msgs[0].id, UnbanContent(msgs[0].content), [])
  {
  }
}
