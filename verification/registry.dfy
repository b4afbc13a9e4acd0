/** The streamer registry: the `channels.json` records (`{channel, Guilds}`)
    that the relay, the command set and the JSON add/remove/list handlers
    work on, and the MongoDB documents that `handleAddStreamer.ts` writes.
    The store is an in-memory sequence; reading and writing it, the Twitch
    user lookup and the guild's channel list are inputs. */
module Registry {
  import opened Wrappers
  import opened Text
  import Delivery

  /** `guild` of `interfaces.ts`: one Discord destination. */
  datatype GuildRef = GuildRef(guildId: string, channelId: string)

  /** `streamer` of `interfaces.ts`: a `#name` channel and its destinations. */
  datatype StreamerEntry = StreamerEntry(channel: string, guilds: seq<GuildRef>)

  /** The `guildConfig` sub-document of `streamer.model.ts`. */
  datatype ChannelNames = ChannelNames(live: string, offline: string)
  datatype GuildConfig = GuildConfig(guildId: string, channelId: string, channelNames: ChannelNames)

  /** A `streamer` document (the fields the handlers touch). */
  datatype StreamerDoc = StreamerDoc(name: string, twitchId: string, guilds: seq<GuildConfig>)

  // handleAddStreamer.ts (MongoDB) ----------------------------------------------------

  const BothNamesReply: string := "Please provide both live and offline channel names."

  /** `Unsaved`: `streamer.save()` rejected, so nothing is stored and the
      handler's promise rejects before any reply. */
  datatype AddOutcome = Rejected(reply: string) | Unsaved | Saved(docs: seq<StreamerDoc>, reply: string)

  /** `docs.findIndex((d) => d.name === name)`, as `findOne({ name })`
      answers for a unique name. */
  function DocIndex(docs: seq<StreamerDoc>, name: string): (r: Option<nat>)
    ensures r.Some? ==> r.value < |docs| && docs[r.value].name == name
    ensures r.Some? ==> forall j :: 0 <= j < r.value ==> docs[j].name != name
    ensures r.None? <==> forall d :: d in docs ==> d.name != name
  {
    if |docs| == 0 then None
    else if docs[0].name == name then Some(0)
    else
      match DocIndex(docs[1..], name)
      case None => None
      case Some(i) =>
        assert forall j :: 1 <= j < i + 1 ==> docs[j] == docs[1..][j - 1];
        Some(i + 1)
  }

  /** The unique `twitchId` index of `streamer.model.ts`: a document under
      another name already holds the id, so saving the named one with it
      breaks the index. */
  predicate TwitchIdTaken(docs: seq<StreamerDoc>, name: string, twitchId: string) {
    exists d :: d in docs && d.name != name && d.twitchId == twitchId
  }

  /** The options' `|| ""` defaults: an absent or empty name is `""`. */
  function NameOption(o: Option<string>): string {
    o.GetOr("")
  }

  /** Exactly one of the two channel names was given. */
  predicate HalfNamed(live: string, offline: string) {
    (live != "" || offline != "") && (live == "" || offline == "")
  }

  /** `handleAddStreamer`: the name is lowercased; exactly one channel name,
      or an unknown Twitch user (`twitchId == None`), is rejected before
      anything is saved; otherwise the document of that name (or a new one)
      gets the Twitch id and one more guild entry, appended without any
      duplicate check. The save is refused when the Twitch id belongs to a
      document of another name. `updateChannel` is read and never used. */
  function AddStreamerDoc(
    docs: seq<StreamerDoc>, rawName: string, guildId: string, channelId: string,
    updateChannel: Option<bool>, liveOpt: Option<string>, offlineOpt: Option<string>,
    twitchId: Option<string>
  ): (r: AddOutcome)
    ensures r.Rejected? <==> HalfNamed(NameOption(liveOpt), NameOption(offlineOpt)) || twitchId.None?
    ensures r.Unsaved? <==> !HalfNamed(NameOption(liveOpt), NameOption(offlineOpt)) && twitchId.Some? &&
                            TwitchIdTaken(docs, ToLower(rawName), twitchId.value)
    ensures HalfNamed(NameOption(liveOpt), NameOption(offlineOpt)) ==> r == Rejected(BothNamesReply)
    ensures r.Saved? ==> |r.docs| == |docs| + (if DocIndex(docs, ToLower(rawName)).Some? then 0 else 1)
  {
    var name := ToLower(rawName);
    var live := NameOption(liveOpt);
    var offline := NameOption(offlineOpt);
    if HalfNamed(live, offline) then Rejected(BothNamesReply)
    else if twitchId.None? then Rejected("Streamer " + name + " not found.")
    else if TwitchIdTaken(docs, name, twitchId.value) then Unsaved
    else
      var entry := GuildConfig(guildId, channelId, ChannelNames(live, offline));
      var reply := "Added " + name + " to the list of monitored streamers.";
      match DocIndex(docs, name)
      case Some(i) =>
        Saved(docs[i := docs[i].(twitchId := twitchId.value, guilds := docs[i].guilds + [entry])], reply)
      case None =>
        Saved(docs + [StreamerDoc(name, twitchId.value, [entry])], reply)
  }

  /** A successful add changes one document, the one under the lowercased
      name: it ends with the new entry (stored names default to `""`), and
      every other document is untouched. */
  lemma AddStreamerDocEffect(
    docs: seq<StreamerDoc>, rawName: string, guildId: string, channelId: string,
    updateChannel: Option<bool>, liveOpt: Option<string>, offlineOpt: Option<string>, twitchId: Option<string>)
    requires !HalfNamed(NameOption(liveOpt), NameOption(offlineOpt)) && twitchId.Some?
    requires !TwitchIdTaken(docs, ToLower(rawName), twitchId.value)
    ensures var r := AddStreamerDoc(docs, rawName, guildId, channelId, updateChannel, liveOpt, offlineOpt, twitchId);
            var entry := GuildConfig(guildId, channelId, ChannelNames(NameOption(liveOpt), NameOption(offlineOpt)));
            && r.Saved?
            && (exists i :: 0 <= i < |r.docs| && r.docs[i].name == ToLower(rawName) &&
                  r.docs[i].twitchId == twitchId.value &&
                  |r.docs[i].guilds| > 0 && r.docs[i].guilds[|r.docs[i].guilds| - 1] == entry)
            && (forall j :: 0 <= j < |docs| && docs[j].name != ToLower(rawName) ==> r.docs[j] == docs[j])
  {
    var r := AddStreamerDoc(docs, rawName, guildId, channelId, updateChannel, liveOpt, offlineOpt, twitchId);
    var entry := GuildConfig(guildId, channelId, ChannelNames(NameOption(liveOpt), NameOption(offlineOpt)));
    match DocIndex(docs, ToLower(rawName))
    case Some(i) =>
      var g := r.docs[i].guilds;
      assert g == docs[i].guilds + [entry];
      assert g[|g| - 1] == entry;
      assert forall j :: 0 <= j < |docs| && j != i ==> r.docs[j] == docs[j];
    case None =>
      assert r.docs[|docs|].name == ToLower(rawName);
      assert r.docs[|docs|].guilds == [entry];
  }

  /** Adding the same destination twice to a stored streamer stores it
      twice: there is no duplicate check. */
  lemma AddTwiceKeepsBoth(docs: seq<StreamerDoc>, rawName: string, guildId: string, channelId: string, twitchId: string)
    requires DocIndex(docs, ToLower(rawName)).Some? && !TwitchIdTaken(docs, ToLower(rawName), twitchId)
    ensures var i := DocIndex(docs, ToLower(rawName)).value;
            var r1 := AddStreamerDoc(docs, rawName, guildId, channelId, None, None, None, Some(twitchId));
            var r2 := AddStreamerDoc(r1.docs, rawName, guildId, channelId, None, None, None, Some(twitchId));
            var entry := GuildConfig(guildId, channelId, ChannelNames("", ""));
            r2.Saved? && |r2.docs| == |docs| && r2.docs[i].guilds == docs[i].guilds + [entry, entry]
  {
    var name := ToLower(rawName);
    var i := DocIndex(docs, name).value;
    var entry := GuildConfig(guildId, channelId, ChannelNames("", ""));
    var d1 := docs[i].(twitchId := twitchId, guilds := docs[i].guilds + [entry]);
    var docs1 := docs[i := d1];
    var r1 := AddStreamerDoc(docs, rawName, guildId, channelId, None, None, None, Some(twitchId));
    assert r1.docs == docs1;
    DocIndexAt(docs1, name, i);
    assert !TwitchIdTaken(docs1, name, twitchId) by {
      forall d | d in docs1 && d.name != name ensures d.twitchId != twitchId {
        var j :| 0 <= j < |docs1| && docs1[j] == d;
        assert j != i && d == docs[j];
      }
    }
    var r2 := AddStreamerDoc(docs1, rawName, guildId, channelId, None, None, None, Some(twitchId));
    assert r2.docs == docs1[i := d1.(guilds := d1.guilds + [entry])];
    assert d1.guilds + [entry] == docs[i].guilds + [entry, entry];
  }

  /** A Twitch id that a document of another name holds is not saved a
      second time: the add stores nothing. */
  lemma DuplicateTwitchIdUnsaved(
    docs: seq<StreamerDoc>, rawName: string, guildId: string, channelId: string, other: StreamerDoc, twitchId: string)
    requires other in docs && other.name != ToLower(rawName) && other.twitchId == twitchId
    ensures AddStreamerDoc(docs, rawName, guildId, channelId, None, None, None, Some(twitchId)) == Unsaved
  {
  }

  /** The two unique indexes of `streamer.model.ts`: no two documents share
      a name or a Twitch id. */
  predicate Indexed(docs: seq<StreamerDoc>) {
    forall i, j :: 0 <= i < j < |docs| ==> docs[i].name != docs[j].name && docs[i].twitchId != docs[j].twitchId
  }

  /** A successful add keeps both unique indexes intact. */
  lemma AddKeepsIndexes(
    docs: seq<StreamerDoc>, rawName: string, guildId: string, channelId: string,
    updateChannel: Option<bool>, liveOpt: Option<string>, offlineOpt: Option<string>, twitchId: Option<string>)
    requires Indexed(docs)
    ensures var r := AddStreamerDoc(docs, rawName, guildId, channelId, updateChannel, liveOpt, offlineOpt, twitchId);
            r.Saved? ==> Indexed(r.docs)
  {
    var r := AddStreamerDoc(docs, rawName, guildId, channelId, updateChannel, liveOpt, offlineOpt, twitchId);
    if r.Saved? {
      var name := ToLower(rawName);
      var t := twitchId.value;
      assert !TwitchIdTaken(docs, name, t);
      match DocIndex(docs, name)
      case Some(i) =>
        forall a, b | 0 <= a < b < |r.docs|
          ensures r.docs[a].name != r.docs[b].name && r.docs[a].twitchId != r.docs[b].twitchId
        {
          if a == i || b == i {
            var o := if a == i then b else a;
            assert docs[o] in docs && docs[o].name != name;
          }
        }
      case None =>
        forall a, b | 0 <= a < b < |r.docs|
          ensures r.docs[a].name != r.docs[b].name && r.docs[a].twitchId != r.docs[b].twitchId
        {
          if b == |docs| {
            assert docs[a] in docs && docs[a].name != name;
          }
        }
    }
  }

  lemma DocIndexAt(docs: seq<StreamerDoc>, name: string, i: nat)
    requires i < |docs| && docs[i].name == name
    requires forall j :: 0 <= j < i ==> docs[j].name != name
    ensures DocIndex(docs, name) == Some(i)
  {
    assert docs[i] in docs;
  }

  /** The `updatechannel` option changes nothing. */
  lemma UpdateChannelIgnored(
    docs: seq<StreamerDoc>, rawName: string, guildId: string, channelId: string,
    u1: Option<bool>, u2: Option<bool>, liveOpt: Option<string>, offlineOpt: Option<string>, twitchId: Option<string>)
    ensures AddStreamerDoc(docs, rawName, guildId, channelId, u1, liveOpt, offlineOpt, twitchId)
         == AddStreamerDoc(docs, rawName, guildId, channelId, u2, liveOpt, offlineOpt, twitchId)
  {
  }

  // channels.json records (DiscordBot.ts) ------------------------------------------------

  /** `handleAddStreamer` of `DiscordBot.ts`: the first record whose channel
      is exactly `"#" + name` gets the destination appended, else a new
      record is appended. */
  function AddEntry(data: seq<StreamerEntry>, name: string, guildId: string, channelId: string): (r: seq<StreamerEntry>)
    ensures |r| == |data| || |r| == |data| + 1
    ensures |r| == |data| + 1 <==> forall e :: e in data ==> e.channel != "#" + name
    ensures |r| == |data| + 1 ==> r == data + [StreamerEntry("#" + name, [GuildRef(guildId, channelId)])]
    ensures |r| == |data| ==>
      (exists i :: 0 <= i < |data| && data[i].channel == "#" + name &&
                   r == data[i := data[i].(guilds := data[i].guilds + [GuildRef(guildId, channelId)])])
    decreases |data|
  {
    if |data| == 0 then [StreamerEntry("#" + name, [GuildRef(guildId, channelId)])]
    else if data[0].channel == "#" + name then
      data[0 := data[0].(guilds := data[0].guilds + [GuildRef(guildId, channelId)])]
    else
      var rest := AddEntry(data[1..], name, guildId, channelId);
      assert data == [data[0]] + data[1..];
      if |rest| == |data| - 1 + 1 then [data[0]] + rest
      else
        var i :| 0 <= i < |data[1..]| && data[1..][i].channel == "#" + name &&
                 rest == data[1..][i := data[1..][i].(guilds := data[1..][i].guilds + [GuildRef(guildId, channelId)])];
        assert [data[0]] + rest == data[i + 1 := data[i + 1].(guilds := data[i + 1].guilds + [GuildRef(guildId, channelId)])];
        [data[0]] + rest
  }

  /** `streamer.channel.toLowerCase() === target.toLowerCase()`. */
  predicate SameStreamer(channel: string, target: string) {
    ToLower(channel) == ToLower(target)
  }

  /** `guilds.filter((g) => g.channelId !== channelId)`; an unresolved
      channel (`None`, JavaScript's `undefined`) matches no entry. */
  function DropChannel(guilds: seq<GuildRef>, channelId: Option<string>): (r: seq<GuildRef>)
    ensures forall g :: g in r <==> g in guilds && Some(g.channelId) != channelId
    ensures |r| <= |guilds|
    ensures (forall g :: g in guilds ==> Some(g.channelId) != channelId) ==> r == guilds
  {
    if |guilds| == 0 then []
    else if Some(guilds[0].channelId) == channelId then DropChannel(guilds[1..], channelId)
    else
      assert guilds == [guilds[0]] + guilds[1..];
      [guilds[0]] + DropChannel(guilds[1..], channelId)
  }

  /** `data.filter((s) => s.Guilds.length > 0)`. */
  function NonEmpty(data: seq<StreamerEntry>): (r: seq<StreamerEntry>)
    ensures forall e :: e in r <==> e in data && |e.guilds| > 0
    ensures (forall e :: e in data ==> |e.guilds| > 0) ==> r == data
  {
    if |data| == 0 then []
    else if |data[0].guilds| == 0 then NonEmpty(data[1..])
    else
      assert data == [data[0]] + data[1..];
      [data[0]] + NonEmpty(data[1..])
  }

  /** One record after the remove loop has visited it. */
  function Visit(e: StreamerEntry, target: string, channelId: Option<string>): StreamerEntry {
    if SameStreamer(e.channel, target) then e.(guilds := DropChannel(e.guilds, channelId)) else e
  }

  function VisitAll(data: seq<StreamerEntry>, target: string, channelId: Option<string>): (r: seq<StreamerEntry>)
    ensures |r| == |data|
    ensures forall k :: 0 <= k < |data| ==> r[k] == Visit(data[k], target, channelId)
  {
    seq(|data|, k requires 0 <= k < |data| => Visit(data[k], target, channelId))
  }

  /** `removed` after the loop: whether the last matching record visited
      lost an entry (each match overwrites the flag). */
  function LastRemoved(data: seq<StreamerEntry>, target: string, channelId: Option<string>, removed: bool): bool
    decreases |data|
  {
    if |data| == 0 then removed
    else if SameStreamer(data[0].channel, target) then
      LastRemoved(data[1..], target, channelId, |DropChannel(data[0].guilds, channelId)| < |data[0].guilds|)
    else LastRemoved(data[1..], target, channelId, removed)
  }

  datatype Removal = Removal(data: seq<StreamerEntry>, removed: bool)

  /** Some entry of the list has the channel id. */
  ghost predicate HasChannel(guilds: seq<GuildRef>, channelId: Option<string>) {
    exists g :: g in guilds && Some(g.channelId) == channelId
  }

  /** The filter shortens the list exactly when some entry has the id. */
  lemma {:induction false} DropChannelShrinks(guilds: seq<GuildRef>, channelId: Option<string>)
    ensures |DropChannel(guilds, channelId)| < |guilds| <==> HasChannel(guilds, channelId)
    decreases |guilds|
  {
    if |guilds| > 0 {
      var tail := guilds[1..];
      DropChannelShrinks(tail, channelId);
      assert forall g :: g in guilds <==> g == guilds[0] || g in tail;
      if Some(guilds[0].channelId) == channelId {
        assert guilds[0] in guilds;
      }
    }
  }

  ghost predicate AnyMatch(data: seq<StreamerEntry>, target: string) {
    exists k :: 0 <= k < |data| && SameStreamer(data[k].channel, target)
  }

  /** The last record matching the target had an entry of the channel. */
  ghost predicate LastMatchHas(data: seq<StreamerEntry>, target: string, channelId: Option<string>) {
    exists k :: 0 <= k < |data| && SameStreamer(data[k].channel, target) && HasChannel(data[k].guilds, channelId) &&
                forall j :: k < j < |data| ==> !SameStreamer(data[j].channel, target)
  }

  lemma AnyMatchOfTail(data: seq<StreamerEntry>, target: string)
    requires |data| > 0
    ensures AnyMatch(data, target) <==> SameStreamer(data[0].channel, target) || AnyMatch(data[1..], target)
  {
    var tail := data[1..];
    if AnyMatch(data, target) && !SameStreamer(data[0].channel, target) {
      var k :| 0 <= k < |data| && SameStreamer(data[k].channel, target);
      assert tail[k - 1] == data[k];
    }
    if AnyMatch(tail, target) {
      var k :| 0 <= k < |tail| && SameStreamer(tail[k].channel, target);
      assert data[k + 1] == tail[k];
    }
  }

  /** A last match of the whole list is a last match of the tail, or the
      head when the tail has no match. */
  lemma LastMatchToTail(data: seq<StreamerEntry>, target: string, channelId: Option<string>)
    requires |data| > 0 && LastMatchHas(data, target, channelId)
    ensures LastMatchHas(data[1..], target, channelId) ||
            (SameStreamer(data[0].channel, target) && HasChannel(data[0].guilds, channelId) && !AnyMatch(data[1..], target))
  {
    var tail := data[1..];
    var k :| 0 <= k < |data| && SameStreamer(data[k].channel, target) && HasChannel(data[k].guilds, channelId) &&
             forall j :: k < j < |data| ==> !SameStreamer(data[j].channel, target);
    if k > 0 {
      assert tail[k - 1] == data[k];
      assert forall j :: k - 1 < j < |tail| ==> tail[j] == data[j + 1];
    } else {
      assert forall j :: 0 <= j < |tail| ==> tail[j] == data[j + 1];
    }
  }

  lemma LastMatchFromTail(data: seq<StreamerEntry>, target: string, channelId: Option<string>)
    requires |data| > 0
    requires LastMatchHas(data[1..], target, channelId) ||
             (SameStreamer(data[0].channel, target) && HasChannel(data[0].guilds, channelId) && !AnyMatch(data[1..], target))
    ensures LastMatchHas(data, target, channelId)
  {
    var tail := data[1..];
    if LastMatchHas(tail, target, channelId) {
      var k :| 0 <= k < |tail| && SameStreamer(tail[k].channel, target) && HasChannel(tail[k].guilds, channelId) &&
               forall j :: k < j < |tail| ==> !SameStreamer(tail[j].channel, target);
      assert data[k + 1] == tail[k];
      assert forall j :: k + 1 < j < |data| ==> data[j] == tail[j - 1];
    } else {
      assert forall j :: 0 < j < |data| ==> data[j] == tail[j - 1];
    }
  }

  /** The flag after the loop: the last matching record lost an entry, or
      no record matched and the flag was already set. */
  lemma {:induction false} LastRemovedIff(data: seq<StreamerEntry>, target: string, channelId: Option<string>, removed: bool)
    ensures LastRemoved(data, target, channelId, removed) <==>
            LastMatchHas(data, target, channelId) || (removed && !AnyMatch(data, target))
    decreases |data|
  {
    if |data| > 0 {
      AnyMatchOfTail(data, target);
      if LastMatchHas(data, target, channelId) {
        LastMatchToTail(data, target, channelId);
      }
      if LastMatchHas(data[1..], target, channelId) ||
         (SameStreamer(data[0].channel, target) && HasChannel(data[0].guilds, channelId) && !AnyMatch(data[1..], target)) {
        LastMatchFromTail(data, target, channelId);
      }
      if SameStreamer(data[0].channel, target) {
        DropChannelShrinks(data[0].guilds, channelId);
        LastRemovedIff(data[1..], target, channelId, |DropChannel(data[0].guilds, channelId)| < |data[0].guilds|);
      } else {
        LastRemovedIff(data[1..], target, channelId, removed);
      }
    }
  }

  /** `handleRemoveStreamer` of `DiscordBot.ts`: every matching record loses
      the entries of that channel, then records left without entries are
      dropped. The reply's flag is set when the last matching record had
      an entry of the channel. */
  function RemoveEntries(data: seq<StreamerEntry>, target: string, channelId: Option<string>): (r: Removal)
    ensures forall e :: e in r.data ==> |e.guilds| > 0
    ensures forall e :: e in r.data && SameStreamer(e.channel, target) ==>
              forall g :: g in e.guilds ==> Some(g.channelId) != channelId
    ensures forall e :: e in data && !SameStreamer(e.channel, target) && |e.guilds| > 0 ==> e in r.data
    ensures forall k :: 0 <= k < |data| && SameStreamer(data[k].channel, target) &&
                        |DropChannel(data[k].guilds, channelId)| > 0 ==>
              data[k].(guilds := DropChannel(data[k].guilds, channelId)) in r.data
    ensures forall e :: e in r.data ==> exists k :: 0 <= k < |data| && e == Visit(data[k], target, channelId)
    ensures r.removed <==> LastMatchHas(data, target, channelId)
  {
    var visited := VisitAll(data, target, channelId);
    var out := NonEmpty(visited);
    forall e | e in data && !SameStreamer(e.channel, target) && |e.guilds| > 0 ensures e in out {
      var k :| 0 <= k < |data| && data[k] == e;
      assert visited[k] == e;
    }
    forall k | 0 <= k < |data| && SameStreamer(data[k].channel, target) && |DropChannel(data[k].guilds, channelId)| > 0
      ensures data[k].(guilds := DropChannel(data[k].guilds, channelId)) in out
    {
      assert visited[k] in visited;
    }
    forall e | e in out ensures exists k :: 0 <= k < |data| && e == Visit(data[k], target, channelId) {
      var k :| 0 <= k < |visited| && visited[k] == e;
    }
    LastRemovedIff(data, target, channelId, false);
    Removal(out, LastRemoved(data, target, channelId, false))
  }

  /** An unresolved channel removes nothing and the reply reports failure;
      only records that were already empty disappear. */
  lemma RemoveUnresolvedChannel(data: seq<StreamerEntry>, target: string)
    ensures RemoveEntries(data, target, None).data == NonEmpty(data)
    ensures !RemoveEntries(data, target, None).removed
  {
    var visited := VisitAll(data, target, None);
    assert visited == data by {
      forall k | 0 <= k < |data| ensures visited[k] == data[k] {
        assert DropChannel(data[k].guilds, None) == data[k].guilds;
      }
    }
    NoneNeverRemoves(data, target);
  }

  lemma {:induction false} NoneNeverRemoves(data: seq<StreamerEntry>, target: string)
    ensures !LastRemoved(data, target, None, false)
    decreases |data|
  {
    if |data| > 0 {
      if SameStreamer(data[0].channel, target) {
        assert DropChannel(data[0].guilds, None) == data[0].guilds;
      }
      NoneNeverRemoves(data[1..], target);
    }
  }

  // handleRemoveStreamer.ts: the splice inside for-of ---------------------------------

  /** The `for…of` loop of `handleRemoveStreamer.ts` over the records not
      yet visited. A matching record that ends up empty is spliced out of
      the array being iterated: the record behind it moves into the current
      index and the iterator, moving on to the next index, never visits it,
      so that record is kept as it is. */
  function SpliceWalk(rest: seq<StreamerEntry>, target: string, channelId: Option<string>, removed: bool): (r: Removal)
    ensures |r.data| <= |rest|
    decreases |rest|
  {
    if |rest| == 0 then Removal([], removed)
    else if SameStreamer(rest[0].channel, target) then
      var kept := DropChannel(rest[0].guilds, channelId);
      var flag := |kept| < |rest[0].guilds|;
      if |kept| == 0 then
        if |rest| == 1 then Removal([], flag)
        else
          var r := SpliceWalk(rest[2..], target, channelId, flag);
          Removal([rest[1]] + r.data, r.removed)
      else
        var r := SpliceWalk(rest[1..], target, channelId, flag);
        Removal([rest[0].(guilds := kept)] + r.data, r.removed)
    else
      var r := SpliceWalk(rest[1..], target, channelId, removed);
      Removal([rest[0]] + r.data, r.removed)
  }

  /** `handleRemoveStreamer` of `handleRemoveStreamer.ts`, as written. */
  function RemoveSpliced(data: seq<StreamerEntry>, target: string, channelId: Option<string>): (r: Removal)
    ensures forall e :: e in r.data ==> |e.guilds| > 0
  {
    var r := SpliceWalk(data, target, channelId, false);
    Removal(NonEmpty(r.data), r.removed)
  }

  /** The skipped record: two records of the same streamer (the match
      ignores case) sharing the channel. The first is emptied and spliced
      out, the second slides into its index and is never visited, so it
      keeps the channel the command was to remove. */
  lemma SpliceSkipsNext()
    ensures var data := [StreamerEntry("#a", [GuildRef("g1", "c1")]), StreamerEntry("#A", [GuildRef("g2", "c1")])];
            && RemoveSpliced(data, "#a", Some("c1")).data == [StreamerEntry("#A", [GuildRef("g2", "c1")])]
            && RemoveEntries(data, "#a", Some("c1")).data == []
  {
    var e1 := StreamerEntry("#a", [GuildRef("g1", "c1")]);
    var e2 := StreamerEntry("#A", [GuildRef("g2", "c1")]);
    var data := [e1, e2];
    assert SameStreamer(e1.channel, "#a");
    assert ToLower("#A") == "#a";
    assert SameStreamer(e2.channel, "#a");
    assert DropChannel(e1.guilds, Some("c1")) == [];
    assert DropChannel(e2.guilds, Some("c1")) == [];
    assert data[2..] == [];
    assert SpliceWalk(data, "#a", Some("c1"), false).data == [e2];
    assert NonEmpty([e2]) == [e2];
    var visited := VisitAll(data, "#a", Some("c1"));
    assert visited == [e1.(guilds := []), e2.(guilds := [])];
    assert NonEmpty(visited) == [];
  }

  /** Without a splice (no matching record becomes empty) the as-written
      loop visits every record, as the filter-based removal does. */
  lemma {:induction false} SpliceWalkWithoutSplice(rest: seq<StreamerEntry>, target: string, channelId: Option<string>, removed: bool)
    requires forall k :: 0 <= k < |rest| && SameStreamer(rest[k].channel, target) ==> |DropChannel(rest[k].guilds, channelId)| > 0
    ensures SpliceWalk(rest, target, channelId, removed)
              == Removal(VisitAll(rest, target, channelId), LastRemoved(rest, target, channelId, removed))
    decreases |rest|
  {
    if |rest| > 0 {
      var tail := rest[1..];
      assert forall k :: 0 <= k < |tail| ==> tail[k] == rest[k + 1];
      VisitAllCons(rest, target, channelId);
      if SameStreamer(rest[0].channel, target) {
        var kept := DropChannel(rest[0].guilds, channelId);
        assert |kept| > 0;
        SpliceWalkWithoutSplice(tail, target, channelId, |kept| < |rest[0].guilds|);
      } else {
        SpliceWalkWithoutSplice(tail, target, channelId, removed);
      }
    }
  }

  lemma VisitAllCons(data: seq<StreamerEntry>, target: string, channelId: Option<string>)
    requires |data| > 0
    ensures VisitAll(data, target, channelId) == [Visit(data[0], target, channelId)] + VisitAll(data[1..], target, channelId)
  {
    var l := VisitAll(data, target, channelId);
    var r := [Visit(data[0], target, channelId)] + VisitAll(data[1..], target, channelId);
    assert |l| == |r|;
    forall k | 0 <= k < |l| ensures l[k] == r[k] {
      if k > 0 {
        assert data[1..][k - 1] == data[k];
      }
    }
  }

  lemma RemoveAgreesWithoutSplice(data: seq<StreamerEntry>, target: string, channelId: Option<string>)
    requires forall k :: 0 <= k < |data| && SameStreamer(data[k].channel, target) ==> |DropChannel(data[k].guilds, channelId)| > 0
    ensures RemoveSpliced(data, target, channelId) == RemoveEntries(data, target, channelId)
  {
    SpliceWalkWithoutSplice(data, target, channelId, false);
  }

  /** The reply of either remove handler; the channel's name is `None` when
      it did not resolve (or is empty). */
  function RemoveReply(removed: bool, target: string, channelName: Option<string>): (r: string)
    ensures StartsWith(r, if removed then "Successfully removed " else "Failed to remove ")
  {
    var name := if channelName.Some? && channelName.value != "" then channelName.value else "Unknown Channel";
    var head := if removed then "Successfully removed " else "Failed to remove ";
    var r := head + target + " from logging to " + name + ".";
    assert r[..|head|] == head;
    r
  }

  // Choices, command set, autocomplete and the list reply ------------------------------

  predicate InGuild(e: StreamerEntry, guildId: string) {
    exists g :: g in e.guilds && g.guildId == guildId
  }

  /** The records having a destination in the guild, in order. */
  function GuildRecords(data: seq<StreamerEntry>, guildId: string): (r: seq<StreamerEntry>)
    ensures forall e :: e in r <==> e in data && InGuild(e, guildId)
    ensures |r| <= |data|
  {
    if |data| == 0 then []
    else if InGuild(data[0], guildId) then [data[0]] + GuildRecords(data[1..], guildId)
    else GuildRecords(data[1..], guildId)
  }

  datatype Choice = Choice(name: string, value: string)

  /** `getStreamerChoices(guildId)`: per record of the guild, the channel
      without its first `#` as the name and the channel as the value. */
  function StreamerChoices(data: seq<StreamerEntry>, guildId: string): (r: seq<Choice>)
    ensures |r| == |GuildRecords(data, guildId)|
    ensures forall k :: 0 <= k < |r| ==>
              r[k].value == GuildRecords(data, guildId)[k].channel &&
              r[k].name == ReplaceFirst(r[k].value, "#", "")
    ensures forall c :: c in r <==>
              exists e :: e in data && InGuild(e, guildId) && c == Choice(ReplaceFirst(e.channel, "#", ""), e.channel)
  {
    var recs := GuildRecords(data, guildId);
    var r := seq(|recs|, k requires 0 <= k < |recs| => Choice(ReplaceFirst(recs[k].channel, "#", ""), recs[k].channel));
    forall c | c in r
      ensures exists e :: e in data && InGuild(e, guildId) && c == Choice(ReplaceFirst(e.channel, "#", ""), e.channel)
    {
      var k :| 0 <= k < |r| && r[k] == c;
      assert recs[k] in recs;
    }
    forall e | e in data && InGuild(e, guildId) ensures Choice(ReplaceFirst(e.channel, "#", ""), e.channel) in r {
      var k :| 0 <= k < |recs| && recs[k] == e;
      assert r[k] == Choice(ReplaceFirst(e.channel, "#", ""), e.channel);
    }
    r
  }

  /** A choice's name is its value with the leading `#` dropped. */
  lemma ChoiceNameDropsHash(name: string)
    requires '#' !in name
    ensures ReplaceFirst("#" + name, "#", "") == name
  {
    assert ("#" + name)[..1] == "#";
  }

  const HomeGuild: string := "1173586671451770880"

  /** The commands registered in a guild, in registration order. */
  function CommandSet(guildId: string, choices: seq<Choice>): (r: seq<string>)
    ensures "addstreamer" in r && "streamers" in r
    ensures "removestreamer" in r <==> |choices| > 0
    ensures ("raid" in r <==> guildId == HomeGuild) && ("unraid" in r <==> guildId == HomeGuild)
    ensures "clearchat" in r <==> guildId == HomeGuild
  {
    var base := ["addstreamer", "streamers"];
    var withRemove := if |choices| > 0 then base + ["removestreamer"] else base;
    if guildId == HomeGuild then withRemove + ["raid", "unraid", "clearchat"] else withRemove
  }

  /** The streamer autocomplete: choices whose lowercased name starts with
      the lowercased focused text. */
  function StreamerSuggestions(choices: seq<Choice>, focused: string): (r: seq<Choice>)
    ensures forall c :: c in r <==> c in choices && StartsWith(ToLower(c.name), ToLower(focused))
  {
    if |choices| == 0 then []
    else if StartsWith(ToLower(choices[0].name), ToLower(focused)) then [choices[0]] + StreamerSuggestions(choices[1..], focused)
    else StreamerSuggestions(choices[1..], focused)
  }

  /** The suggestions ignore case: the same text in any case suggests the
      same choices. */
  lemma StreamerSuggestionsIgnoreCase(choices: seq<Choice>, f1: string, f2: string)
    requires ToLower(f1) == ToLower(f2)
    ensures StreamerSuggestions(choices, f1) == StreamerSuggestions(choices, f2)
  {
  }

  /** The names of this guild's channels that the entries point at, in order;
      an entry whose channel the guild does not have is left out. */
  function ChannelNamesOf(guilds: seq<GuildRef>, channelNames: map<string, string>): (r: seq<string>)
    ensures forall n :: n in r ==> exists g :: g in guilds && g.channelId in channelNames && channelNames[g.channelId] == n
    ensures forall g :: g in guilds && g.channelId in channelNames ==> channelNames[g.channelId] in r
  {
    if |guilds| == 0 then []
    else
      var rest := ChannelNamesOf(guilds[1..], channelNames);
      if guilds[0].channelId in channelNames then [channelNames[guilds[0].channelId]] + rest else rest
  }

  function FlatChannelNames(recs: seq<StreamerEntry>, channelNames: map<string, string>): seq<string> {
    if |recs| == 0 then [] else ChannelNamesOf(recs[0].guilds, channelNames) + FlatChannelNames(recs[1..], channelNames)
  }

  function StartingWith(names: seq<string>, prefix: string): (r: seq<string>)
    ensures forall n :: n in r <==> n in names && StartsWith(n, prefix)
  {
    if |names| == 0 then []
    else if StartsWith(names[0], prefix) then [names[0]] + StartingWith(names[1..], prefix)
    else StartingWith(names[1..], prefix)
  }

  /** The channel autocomplete: for every record of the guild, the names of
      all its destinations (whatever their guild id) that this guild's
      channel cache resolves, kept when they start with the lowercased
      focused text; the names themselves are not lowercased. */
  function ChannelSuggestions(data: seq<StreamerEntry>, guildId: string, channelNames: map<string, string>, focused: string): (r: seq<string>)
    ensures forall n :: n in r ==> StartsWith(n, ToLower(focused)) && n in channelNames.Values
    ensures forall n :: n in r ==>
              exists e, g :: e in data && InGuild(e, guildId) && g in e.guilds && g.channelId in channelNames &&
                             channelNames[g.channelId] == n
    ensures forall e, g ::
              (e in data && InGuild(e, guildId) && g in e.guilds && g.channelId in channelNames &&
               StartsWith(channelNames[g.channelId], ToLower(focused))) ==> channelNames[g.channelId] in r
  {
    var names := FlatChannelNames(GuildRecords(data, guildId), channelNames);
    var r := StartingWith(names, ToLower(focused));
    FlatNamesResolved(GuildRecords(data, guildId), channelNames);
    FlatNamesSound(GuildRecords(data, guildId), channelNames);
    FlatNamesComplete(GuildRecords(data, guildId), channelNames);
    r
  }

  lemma {:induction false} FlatNamesComplete(recs: seq<StreamerEntry>, channelNames: map<string, string>)
    ensures forall e, g :: e in recs && g in e.guilds && g.channelId in channelNames ==>
              channelNames[g.channelId] in FlatChannelNames(recs, channelNames)
    decreases |recs|
  {
    if |recs| > 0 {
      FlatNamesComplete(recs[1..], channelNames);
      var here := ChannelNamesOf(recs[0].guilds, channelNames);
      var rest := FlatChannelNames(recs[1..], channelNames);
      assert FlatChannelNames(recs, channelNames) == here + rest;
      forall e, g | e in recs && g in e.guilds && g.channelId in channelNames
        ensures channelNames[g.channelId] in here + rest
      {
        if e != recs[0] {
          assert e in recs[1..];
        }
      }
    }
  }

  /** Every flattened name is the resolved name of some record's entry. */
  lemma {:induction false} FlatNamesSound(recs: seq<StreamerEntry>, channelNames: map<string, string>)
    ensures forall n :: n in FlatChannelNames(recs, channelNames) ==>
              exists e, g :: e in recs && g in e.guilds && g.channelId in channelNames && channelNames[g.channelId] == n
    decreases |recs|
  {
    if |recs| > 0 {
      FlatNamesSound(recs[1..], channelNames);
      var here := ChannelNamesOf(recs[0].guilds, channelNames);
      var rest := FlatChannelNames(recs[1..], channelNames);
      assert FlatChannelNames(recs, channelNames) == here + rest;
      forall n | n in here + rest
        ensures exists e, g :: e in recs && g in e.guilds && g.channelId in channelNames && channelNames[g.channelId] == n
      {
        if n in here {
          var g :| g in recs[0].guilds && g.channelId in channelNames && channelNames[g.channelId] == n;
          assert recs[0] in recs;
        } else {
          var e, g :| e in recs[1..] && g in e.guilds && g.channelId in channelNames && channelNames[g.channelId] == n;
          assert e in recs;
        }
      }
    }
  }

  lemma {:induction false} FlatNamesResolved(recs: seq<StreamerEntry>, channelNames: map<string, string>)
    ensures forall n :: n in FlatChannelNames(recs, channelNames) ==> n in channelNames.Values
    decreases |recs|
  {
    if |recs| > 0 {
      FlatNamesResolved(recs[1..], channelNames);
      forall n | n in ChannelNamesOf(recs[0].guilds, channelNames) ensures n in channelNames.Values {
        var g :| g in recs[0].guilds && g.channelId in channelNames && channelNames[g.channelId] == n;
      }
    }
  }

  /** `handleListStreamers` of `DiscordBot.ts`: the channels of the guild's
      records joined by ", " under a header, or the empty-list reply. */
  function ListEntries(data: seq<StreamerEntry>, guildId: string): (r: string)
    ensures GuildRecords(data, guildId) == [] <==> r == Delivery.EmptyListReply
  {
    var recs := GuildRecords(data, guildId);
    Delivery.ListReply(seq(|recs|, k requires 0 <= k < |recs| => recs[k].channel))
  }

  /** Every record of the guild is named in the list reply. */
  lemma ListEntriesNamesAll(data: seq<StreamerEntry>, guildId: string)
    ensures forall e :: e in data && InGuild(e, guildId) ==> Contains(ListEntries(data, guildId), e.channel)
  {
    var recs := GuildRecords(data, guildId);
    var items := seq(|recs|, k requires 0 <= k < |recs| => recs[k].channel);
    if |recs| > 0 {
      Delivery.ListReplyNamesAll(items);
      forall e | e in data && InGuild(e, guildId) ensures Contains(ListEntries(data, guildId), e.channel) {
        var k :| 0 <= k < |recs| && recs[k] == e;
        assert items[k] == e.channel;
      }
    }
  }

  /** `handleListStreamers` of `helpers.ts`: the documents with an entry in
      the guild, each rendered by `show` (`Array.prototype.join` calls the
      document's own `toString`). */
  function ListDocs(docs: seq<StreamerDoc>, guildId: string, show: StreamerDoc -> string): (r: string)
    ensures (forall d :: d in docs ==> forall g :: g in d.guilds ==> g.guildId != guildId) <==> r == Delivery.EmptyListReply
  {
    var mine := DocsInGuild(docs, guildId);
    assert (|mine| == 0) == (forall d :: d in docs ==> forall g :: g in d.guilds ==> g.guildId != guildId) by {
      if |mine| > 0 {
        assert mine[0] in mine;
      } else {
        forall d | d in docs ensures forall g :: g in d.guilds ==> g.guildId != guildId {
          assert d !in mine;
        }
      }
    }
    Delivery.ListReply(seq(|mine|, k requires 0 <= k < |mine| => show(mine[k])))
  }

  /** A non-empty reply starts with the header and names every document
      with an entry in the guild. */
  lemma ListDocsNamesAll(docs: seq<StreamerDoc>, guildId: string, show: StreamerDoc -> string)
    ensures forall d :: d in DocsInGuild(docs, guildId) ==>
              StartsWith(ListDocs(docs, guildId, show), Delivery.ListHeader) &&
              Contains(ListDocs(docs, guildId, show), show(d))
  {
    var mine := DocsInGuild(docs, guildId);
    var items := seq(|mine|, k requires 0 <= k < |mine| => show(mine[k]));
    if |mine| > 0 {
      Delivery.ListReplyNamesAll(items);
      forall d | d in mine
        ensures StartsWith(ListDocs(docs, guildId, show), Delivery.ListHeader) &&
                Contains(ListDocs(docs, guildId, show), show(d))
      {
        var k :| 0 <= k < |mine| && mine[k] == d;
        assert items[k] == show(d);
      }
    }
  }

  function DocsInGuild(docs: seq<StreamerDoc>, guildId: string): (r: seq<StreamerDoc>)
    ensures forall d :: d in r <==> d in docs && exists g :: g in d.guilds && g.guildId == guildId
  {
    if |docs| == 0 then []
    else if exists g :: g in docs[0].guilds && g.guildId == guildId then [docs[0]] + DocsInGuild(docs[1..], guildId)
    else DocsInGuild(docs[1..], guildId)
  }
}
