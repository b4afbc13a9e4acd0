/** The delivery helpers of `helpers.ts`: the uncached webhook lookup, the
    option shaping of `sendWebhookMessage`, and the text of the streamer
    list reply. The platform's answers are inputs. */
module Delivery {
  import opened Wrappers
  import opened Text

  /** A webhook as the uncached lookup sees it: the channel it posts to. */
  datatype ChannelHook = ChannelHook(id: string, name: string, channelId: string)

  /** `getOrCreateWebhook` of `helpers.ts` (both the forum and the text
      branch): the first webhook bound to the channel, else a new one. A
      fetch or create rejection is not caught and rejects the call. */
  function FindOrCreateHook(
    fetched: Option<seq<ChannelHook>>, channelId: string, username: string, createdId: Option<string>
  ): (r: Result<ChannelHook>)
    ensures fetched.None? ==> r.Failure?
    ensures r.Success? ==> r.value.channelId == channelId
  {
    match fetched
    case None => Failure("fetchWebhooks rejected")
    case Some(hooks) =>
      match FirstForChannel(hooks, channelId)
      case Some(h) => Success(h)
      case None =>
        match createdId
        case None => Failure("createWebhook rejected")
        case Some(id) => Success(ChannelHook(id, username, channelId))
  }

  /** `webhooks.find((wh) => wh.channelId === channel.id)`. */
  function FirstForChannel(hooks: seq<ChannelHook>, channelId: string): (r: Option<ChannelHook>)
    ensures r.Some? ==> r.value in hooks && r.value.channelId == channelId
    ensures r.None? <==> forall h :: h in hooks ==> h.channelId != channelId
    ensures r.Some? ==> exists i :: 0 <= i < |hooks| && hooks[i] == r.value &&
                          forall j :: 0 <= j < i ==> hooks[j].channelId != channelId
  {
    if |hooks| == 0 then None
    else if hooks[0].channelId == channelId then Some(hooks[0])
    else
      var r := FirstForChannel(hooks[1..], channelId);
      if r.Some? then
        var i :| 0 <= i < |hooks[1..]| && hooks[1..][i] == r.value &&
                 forall j :: 0 <= j < i ==> hooks[1..][j].channelId != channelId;
        assert hooks[i + 1] == r.value;
        assert forall j :: 1 <= j < i + 1 ==> hooks[j] == hooks[1..][j - 1];
        r
      else r
  }

  /** The existing webhook is returned when the channel has one; a new one
      is made, under the given name, only when it has none. */
  lemma FindOrCreateReusesExisting(hooks: seq<ChannelHook>, channelId: string, username: string, createdId: Option<string>)
    ensures var r := FindOrCreateHook(Some(hooks), channelId, username, createdId);
            && ((exists h :: h in hooks && h.channelId == channelId) ==> r.Success? && r.value in hooks)
            && ((forall h :: h in hooks ==> h.channelId != channelId) ==>
                  r == (if createdId.Some? then Success(ChannelHook(createdId.value, username, channelId))
                        else Failure("createWebhook rejected")))
  {
  }

  // sendWebhookMessage --------------------------------------------------------------

  datatype MentionKind = Users
  datatype MessageFlag = SuppressNotifications

  /** The options object handed to `webhook.send`. */
  datatype Payload = Payload(
    webhookId: string, content: string, username: string, avatarURL: string,
    allowedMentions: seq<MentionKind>, flags: seq<MessageFlag>, threadId: Option<string>)

  /** The sixth argument, `[channelId, isThread]`. */
  datatype Target = Target(channelId: string, isThread: bool)

  /** `sendWebhookMessage(webhook, content, username, avatarUrl, permission,
      target)`. A missing sixth argument (`target == None`) cannot be
      destructured: the call rejects before its body runs. A null webhook
      sends nothing; otherwise the platform's answer to `webhook.send` is
      the input `sendRejects` (a deleted webhook, a missing permission),
      and a rejection rejects the call. `permission` is never read; the
      time-window duplicate check is commented out, so there is no state. */
  function SendWebhookMessage(
    webhook: Option<ChannelHook>, content: string, username: string, avatarUrl: string,
    permission: bool, target: Option<Target>, sendRejects: bool
  ): (r: Result<Option<Payload>>)
    ensures r.Failure? <==> target.None? || (webhook.Some? && sendRejects)
    ensures target.Some? && webhook.None? ==> r == Success(None)
    ensures target.Some? && webhook.Some? && !sendRejects ==> r.Success? && r.value.Some?
    ensures r.Success? && r.value.Some? ==>
              var p := r.value.value;
              && webhook.Some? && p.webhookId == webhook.value.id
              && p.content == content && p.username == username && p.avatarURL == avatarUrl
              && p.allowedMentions == [Users] && p.flags == [SuppressNotifications]
  {
    match target
    case None => Failure("TypeError: undefined is not iterable")
    case Some(t) =>
      match webhook
      case None => Success(None)
      case Some(w) =>
        if sendRejects then Failure("webhook.send rejected")
        else Success(Some(Payload(w.id, content, username, avatarUrl, [Users], [SuppressNotifications],
                             if t.isThread then Some(t.channelId) else None)))
  }

  /** The message goes to the thread exactly when the target says it is one,
      and `permission` makes no difference. */
  lemma ThreadIdIffThread(w: ChannelHook, content: string, username: string, avatarUrl: string,
                          permission: bool, t: Target)
    ensures var r := SendWebhookMessage(Some(w), content, username, avatarUrl, permission, Some(t), false);
            && r.Success? && r.value.Some?
            && (r.value.value.threadId.Some? <==> t.isThread)
            && (t.isThread ==> r.value.value.threadId == Some(t.channelId))
            && r == SendWebhookMessage(Some(w), content, username, avatarUrl, !permission, Some(t), false)
  {
  }

  /** With the duplicate check commented out, the same content sent twice
      in a row through one webhook is delivered twice, as equal payloads. */
  lemma IdenticalContentSentTwice(w: ChannelHook, c: string, username: string, avatarUrl: string, t: Target)
    ensures var first := SendWebhookMessage(Some(w), c, username, avatarUrl, true, Some(t), false);
            var second := SendWebhookMessage(Some(w), c, username, avatarUrl, true, Some(t), false);
            first.Success? && first.value.Some? && second.Success? && second.value.Some? &&
            first.value.value == second.value.value && second.value.value.content == c
  {
  }

  // handleListStreamers -------------------------------------------------------------

  const ListHeader: string := "Currently monitored streamers:\n"
  const EmptyListReply: string := "No streamers are currently monitored."

  /** `items.join(", ")`. */
  function JoinComma(items: seq<string>): string
    decreases |items|
  {
    if |items| == 0 then ""
    else if |items| == 1 then items[0]
    else items[0] + ", " + JoinComma(items[1..])
  }

  /** The reply to the list command, given each listed streamer as it is
      rendered into text. */
  function ListReply(items: seq<string>): (r: string)
    ensures |items| == 0 <==> r == EmptyListReply
    ensures |items| > 0 ==> StartsWith(r, ListHeader) && r[|ListHeader|..] == JoinComma(items)
  {
    if |items| > 0 then
      var r := ListHeader + JoinComma(items);
      assert r[..|ListHeader|] == ListHeader;
      assert r[0] == 'C' && EmptyListReply[0] == 'N';
      r
    else EmptyListReply
  }

  lemma {:induction false} ContainsAfter(a: string, b: string, c: string)
    ensures Contains(a + b + c, b)
    decreases |a|
  {
    if |a| == 0 {
      assert a + b + c == b + c;
      assert (b + c)[..|b|] == b;
    } else {
      ContainsAfter(a[1..], b, c);
      assert (a + b + c)[1..] == a[1..] + b + c;
    }
  }

  /** Every listed streamer occurs in the joined list. */
  lemma {:induction false} JoinCommaHoldsEach(items: seq<string>, k: nat)
    requires k < |items|
    ensures Contains(JoinComma(items), items[k])
    decreases |items|
  {
    if |items| == 1 {
      ContainsAfter("", items[0], "");
      assert "" + items[0] + "" == items[0];
    } else if k == 0 {
      ContainsAfter("", items[0], ", " + JoinComma(items[1..]));
      assert "" + items[0] + (", " + JoinComma(items[1..])) == JoinComma(items);
    } else {
      JoinCommaHoldsEach(items[1..], k - 1);
      ContainsSuffix(items[0] + ", ", JoinComma(items[1..]), items[k]);
    }
  }

  lemma {:induction false} ContainsSuffix(a: string, s: string, pat: string)
    requires Contains(s, pat)
    ensures Contains(a + s, pat)
    decreases |a|
  {
    if |a| > 0 {
      ContainsSuffix(a[1..], s, pat);
      assert (a + s)[1..] == a[1..] + s;
    } else {
      assert a + s == s;
    }
  }

  /** A non-empty reply names every streamer listed. */
  lemma ListReplyNamesAll(items: seq<string>)
    requires |items| > 0
    ensures forall k :: 0 <= k < |items| ==> Contains(ListReply(items), items[k])
  {
    forall k | 0 <= k < |items| ensures Contains(ListReply(items), items[k]) {
      JoinCommaHoldsEach(items, k);
      ContainsSuffix(ListHeader, JoinComma(items), items[k]);
    }
  }
}
