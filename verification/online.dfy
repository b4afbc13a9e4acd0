/** `setStreamersOnline`: renaming each registered Discord channel to its
    live or offline name. The store query, the channel cache and the
    rename call are inputs. */
module Online {
  import opened Registry

  /** What the bot finds for a channel id: no cached channel, no bot
      member in its guild, no ManageChannels permission, or a channel whose
      rename succeeds or fails. */
  datatype ChannelState = Missing | NoBotMember | NoManageChannels | Present(renameFails: bool)

  datatype RenameOutcome = Skipped | Renamed(channelId: string, name: string) | RenameFailed(channelId: string)

  /** The store query `"guilds.channelId": { $ne: "" }`: a document none of
      whose guild entries has an empty channel id. */
  predicate Queried(doc: StreamerDoc) {
    forall g :: g in doc.guilds ==> g.channelId != ""
  }

  predicate IsLive(doc: StreamerDoc, channels: seq<string>) {
    doc.name in channels
  }

  /** The name the channel should carry. */
  function TargetName(g: GuildConfig, live: bool): string {
    if live then g.channelNames.live else g.channelNames.offline
  }

  /** One guild entry of one streamer. */
  function Decide(doc: StreamerDoc, g: GuildConfig, channels: seq<string>, state: ChannelState): (r: RenameOutcome)
    ensures g.channelNames.live == "" ==> r == Skipped
    ensures !state.Present? ==> r == Skipped
    ensures r.Renamed? ==> r.channelId == g.channelId &&
                           (IsLive(doc, channels) ==> r.name == g.channelNames.live) &&
                           (!IsLive(doc, channels) ==> r.name == g.channelNames.offline)
    ensures g.channelNames.live != "" && state.Present? ==>
              (r.RenameFailed? <==> state.renameFails) && (r.Renamed? <==> !state.renameFails)
  {
    if g.channelNames.live == "" then Skipped
    else
      match state
      case Present(renameFails) =>
        if renameFails then RenameFailed(g.channelId)
        else Renamed(g.channelId, TargetName(g, IsLive(doc, channels)))
      case _ => Skipped
  }

  datatype Entry = Entry(doc: StreamerDoc, guild: GuildConfig)

  /** The guild entries of the queried documents, in order. */
  function Entries(docs: seq<StreamerDoc>): (r: seq<Entry>)
    ensures forall e :: e in r ==> e.doc in docs && Queried(e.doc) && e.guild in e.doc.guilds
    ensures forall d, g :: d in docs && Queried(d) && g in d.guilds ==> Entry(d, g) in r
  {
    if |docs| == 0 then []
    else
      var d := docs[0];
      var here := if Queried(d) then seq(|d.guilds|, k requires 0 <= k < |d.guilds| => Entry(d, d.guilds[k])) else [];
      assert forall g :: g in d.guilds && Queried(d) ==> Entry(d, g) in here by {
        forall g | g in d.guilds && Queried(d) ensures Entry(d, g) in here {
          var k :| 0 <= k < |d.guilds| && d.guilds[k] == g;
          assert here[k] == Entry(d, g);
        }
      }
      here + Entries(docs[1..])
  }

  /** Every entry of every queried document is decided on its own: one
      outcome each, so a failed rename does not stop the others. */
  method SetStreamersOnline(docs: seq<StreamerDoc>, channels: seq<string>, states: string -> ChannelState)
    returns (outcomes: seq<RenameOutcome>)
    ensures var es := Entries(docs);
            && |outcomes| == |es|
            && forall k :: 0 <= k < |es| ==>
                 outcomes[k] == Decide(es[k].doc, es[k].guild, channels, states(es[k].guild.channelId))
    ensures forall k :: 0 <= k < |outcomes| && outcomes[k].Renamed? ==>
              exists d, g :: d in docs && g in d.guilds && g.channelId == outcomes[k].channelId &&
                             outcomes[k].name == TargetName(g, d.name in channels)
  {
    var es := Entries(docs);
    outcomes := [];
    var i := 0;
    while i < |es|
      invariant 0 <= i <= |es| && |outcomes| == i
      invariant forall k :: 0 <= k < i ==>
                  outcomes[k] == Decide(es[k].doc, es[k].guild, channels, states(es[k].guild.channelId))
    {
      outcomes := outcomes + [Decide(es[i].doc, es[i].guild, channels, states(es[i].guild.channelId))];
      i := i + 1;
    }
    forall k | 0 <= k < |outcomes| && outcomes[k].Renamed?
      ensures exists d, g :: d in docs && g in d.guilds && g.channelId == outcomes[k].channelId &&
                             outcomes[k].name == TargetName(g, d.name in channels)
    {
      RenamedEntry(docs, es[k], channels, states(es[k].guild.channelId));
    }
  }

  /** A rename decided for an entry names a channel of a queried document
      and that document's target name. */
  lemma RenamedEntry(docs: seq<StreamerDoc>, e: Entry, channels: seq<string>, state: ChannelState)
    requires e in Entries(docs)
    ensures var out := Decide(e.doc, e.guild, channels, state);
            out.Renamed? ==>
              exists d, g :: d in docs && g in d.guilds && g.channelId == out.channelId &&
                             out.name == TargetName(g, d.name in channels)
  {
    var out := Decide(e.doc, e.guild, channels, state);
    if out.Renamed? {
      assert e.doc in docs && e.guild in e.doc.guilds;
      assert out.channelId == e.guild.channelId && out.name == TargetName(e.guild, e.doc.name in channels);
    }
  }

  /** A streamer in the list gets its live names, one not in it its
      offline names. */
  lemma LiveIffListed(doc: StreamerDoc, g: GuildConfig, channels: seq<string>)
    requires g.channelNames.live != ""
    ensures Decide(doc, g, channels, Present(false)) ==
            Renamed(g.channelId, if doc.name in channels then g.channelNames.live else g.channelNames.offline)
  {
  }

  /** A document with an entry whose channel id is empty is not queried,
      so none of its entries is renamed. */
  lemma EmptyChannelIdExcludesDocument(docs: seq<StreamerDoc>, d: StreamerDoc, g: GuildConfig)
    requires g in d.guilds && g.channelId == ""
    ensures forall e :: e in Entries(docs) ==> e.doc != d
  {
  }
}
