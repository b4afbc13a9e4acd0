# Crystal Socket: a Dafny model of the Twitch-to-Discord relay

Crystal Socket is a bot that relays Twitch chat into Discord. Each chat line goes to every Discord channel registered for the Twitch channel. It is posted through a per-channel webhook, under the chatter's name and avatar. Along the way, `:name:` tokens become guild emojis, and Twitch and 7TV emotes are uploaded as application emojis and inlined. Moderation on Twitch is mirrored as edits of messages already relayed: a ban wraps them in `BANNED: ||…||`, and an unban strips the wrapper again.

This project models that core as pure functions over immutable data, with the state made explicit and threaded through:

- the webhook cache (a map keyed by `guildId-channelId`);
- the webhooks installed in each channel;
- the event de-duplication slot;
- the streamer registry (a sequence of records).

Every platform call is an input: the Discord API, the Twitch API, the 7TV API, the pronoun service and MongoDB. Its answer is a parameter or a scripted outcome. Concurrent work (`Promise.all`, fire-and-forget `.then`) is run in sequence.

Modules, one per file, leaf first:

| module | file | concern |
|---|---|---|
| `Wrappers` | wrappers.dfy | `Option`, `Result` |
| `Text` | text.dfy | the JavaScript string operations the source relies on: single-character `split`/`join`, first-occurrence `replace`, global deletion, `slice` with negative indices, `parseInt`, ASCII `toLowerCase` |
| `Moderation` | moderation.dfy | `handleTwitchEvents`: the permission gate, target selection and the ban/unban rewrites |
| `EmoteParse` | emoteparse.dfy | the emote-offset descriptor and `parseMessageWithEmotes`, `fetchEmotes` |
| `Emojis` | emojis.dfy | `formatMessageWithEmojis` and whole-word emote replacement |
| `EmoteUpload` | emoteupload.dfy | `loadEmotes` (both revisions) |
| `Webhooks` | webhooks.dfy | `cleanupDuplicateWebhooks`, cached `getOrCreateWebhook` |
| `Delivery` | delivery.dfy | the uncached webhook helper, `sendWebhookMessage`, the list reply |
| `Registry` | registry.dfy | streamer records and documents: add, remove, choices, command set, autocomplete, list |
| `Relay` | relay.dfy | `logAsUser` (both revisions): fan-out plan, emote pipeline, delivery, cache eviction |
| `TwitchEvents` | twitchevents.dfy | `eventHandlers`: the shared slot and message shaping |
| `TwitchCommands` | twitchcommands.dfy | `handleTwitchCommands` |
| `Online` | online.dfy | `setStreamersOnline` |
| `Pronouns` | pronouns.dfy | `pronounIds`, `getPronouns` |

Several revisions of the same function exist side by side in the repository. Each is modelled as written:

- `Webhooks.GetOrCreateWebhook` covers `webhooks.ts` and its copy in `DiscordBot.ts`.
- `Relay` models both `logAsUser` revisions.
- `EmoteUpload` takes a `Revision`: `Emotes.ts` retries on 50035 and 50138, while the copy inside `logAsUser.ts` retries on 50035 only.
- `Registry` models both the JSON-record handlers and the MongoDB-document handlers.

The model follows the code as it stands, including these behaviours of it:

- Duplicate destinations are not rejected on add.
- Event de-duplication is a single slot holding the last key, not a set of recent keys.
- There is no mention resolution, pronoun decoration or emote-name escaping in the relay path.
- A cached-lookup failure returns `null` rather than raising an error.
- `logAsUser` evicts the cache key on any error inside its `try`, including errors in emote processing, not only on a failed send.

## Model

| member | source | states |
|---|---|---|
| Moderation.BanContent | src/DiscordBot/Helpers/handleTwitchEvents.ts:50-52 | the redacted content always starts with `BANNED:`; it is the content itself or `BANNED: \|\|` + content + `\|\|` |
| Moderation.UnbanContent | src/DiscordBot/Helpers/handleTwitchEvents.ts:75-77 | content that does not start with `BANNED:` is left unchanged |
| Moderation.BanIdempotent | src/DiscordBot/Helpers/handleTwitchEvents.ts:50-52 | redacting twice equals redacting once |
| Moderation.UnbanAfterBan | src/DiscordBot/Helpers/handleTwitchEvents.ts:50-77 | unban undoes ban for content that is not already marked and where content + `\|\|` holds no `BANNED: \|\|` |
| Moderation.UnbanAfterBanLosesQuotedMarker | src/DiscordBot/Helpers/handleTwitchEvents.ts:75-77 | the side condition is needed: `xBANNED: \|\|` comes back as `x`, because the global regex also deletes the quoted marker |
| Moderation.Authored | src/DiscordBot/Helpers/handleTwitchEvents.ts:71 | keeps exactly the fetched messages whose author is the user |
| Moderation.BanTargets | src/DiscordBot/Helpers/handleTwitchEvents.ts:40-48 | keeps exactly the user's messages whose id differs from the newest fetched message's |
| Moderation.RedactAll | src/DiscordBot/Helpers/handleTwitchEvents.ts:47-57 | one edit per target |
| Moderation.RestoreAll | src/DiscordBot/Helpers/handleTwitchEvents.ts:74-83 | the k-th edit targets the k-th matching message, carries its unbanned content and clears the flags |
| Moderation.ApplyEdits | src/DiscordBot/Helpers/handleTwitchEvents.ts:54-57 | applying the k-th edit changes only the k-th message's content, to the edit's content |
| Moderation.RestoreAfterRedact | src/DiscordBot/Helpers/handleTwitchEvents.ts:47-83 | an unban after a ban puts back every message's original text, for messages not already marked and holding no quoted marker |
| Moderation.BanCount | src/DiscordBot/Helpers/handleTwitchEvents.ts:47-58 | the loop attempts every edit when none rejects; otherwise it stops right after the first edit that rejects, having attempted all edits before it |
| Moderation.BanLoop | src/DiscordBot/Helpers/handleTwitchEvents.ts:47-58 | the awaited edits are a prefix of the full redaction list; all are made when none rejects; a shorter run ends at a rejected edit |
| Moderation.HandleTwitchEvents | src/DiscordBot/Helpers/handleTwitchEvents.ts:23-91 | no bot member or missing ViewChannel/ManageChannels/ManageMessages edits nothing; an event other than onBan/onUnban, or a failed fetch, edits nothing; onUnban restores every message of the user; onBan redacts a prefix of the non-newest messages of the user |
| Moderation.BanEdits | src/DiscordBot/Helpers/handleTwitchEvents.ts:40-58 | a ban never edits the newest message; every edit is of a message of the banned user, carries its redacted content and suppresses embeds; with no failing edit all such messages are redacted |
| Moderation.UnbanEditsNewest | src/DiscordBot/Helpers/handleTwitchEvents.ts:69-83 | an unban also restores the newest message, with an empty flag list |
| EmoteParse.FetchEmotes | src/DiscordBot/Helpers/7tv.ts:10-17 | the map's keys are exactly the names of the decoded emotes |
| EmoteParse.FetchEmotesLastWins | src/DiscordBot/Helpers/7tv.ts:12-15 | each name maps to the host url of its last occurrence, with `/1x` appended |
| EmoteParse.SerializeOffsets | src/DiscordBot/Helpers/logAsUser.ts:75-79 | the descriptor is empty exactly when the message carries no offsets or an empty offset map |
| EmoteParse.PartsPairs | src/DiscordBot/Helpers/7tv.ts:31-47 | the split parts parse exactly when every part holds a `:`; a part without one throws |
| EmoteParse.DescriptorPairs | src/DiscordBot/Helpers/7tv.ts:30-47 | the descriptor parses exactly when it is empty or every `/`-separated part holds a `:` |
| EmoteParse.ParseMessageWithEmotes | src/DiscordBot/Helpers/7tv.ts:21-66 | the parse rejects exactly on a non-empty descriptor with a part lacking `:`; the 7TV map cannot make it fail |
| EmoteParse.RangeName | src/DiscordBot/Helpers/7tv.ts:36-41 | a range without `-` names the empty string; every name is a piece of the message |
| EmoteParse.TwitchLinks | src/DiscordBot/Helpers/7tv.ts:35-46 | one link per `(id, range)` pair |
| EmoteParse.SevenTvLinks | src/DiscordBot/Helpers/7tv.ts:49-63 | at most one entry per word; every entry is a key of the 7TV map, linked to `https:` + its url + `.gif` |
| EmoteParse.SevenTvLinksCount | src/DiscordBot/Helpers/7tv.ts:49-63 | each key yields exactly as many entries as it occurs among the words; no other word yields any |
| EmoteParse.ParseLayout | src/DiscordBot/Helpers/7tv.ts:30-65 | all Twitch entries come first, in descriptor order, each named by its inclusive slice and linked to the Twitch CDN; the 7TV entries follow; the count is the number of ranges plus the number of matched words |
| EmoteParse.EmptyDescriptor | src/DiscordBot/Helpers/7tv.ts:30 | an empty descriptor yields only the 7TV entries |
| EmoteParse.PartWithoutColonThrows | src/DiscordBot/Helpers/7tv.ts:32-33 | a descriptor part without `:` makes the parse reject |
| EmoteParse.RangeNameInclusive | src/DiscordBot/Helpers/7tv.ts:36-41 | the range `s-e` names `message[s..e+1]`: the end offset is inclusive |
| EmoteParse.EntryTextParts | src/DiscordBot/Helpers/logAsUser.ts:76-77 | an entry's text splits back on `:` into its id and positions, and the positions split back on `,` |
| EmoteParse.PartsPairsOfEntries | src/DiscordBot/Helpers/7tv.ts:31-47 | parsing the rendered entries lists exactly their `(id, position)` pairs |
| EmoteParse.DescriptorRoundTrip | src/DiscordBot/Helpers/logAsUser.ts:75-79 | parsing the serialised offsets gives back exactly their `(id, position)` pairs, for ids without `:`/`/` and non-empty position lists without `,`/`:`/`/` |
| EmoteParse.SerializedDescriptorParses | src/DiscordBot/Helpers/logAsUser.ts:73-81 | the descriptor `logAsUser` builds from well-formed offsets never makes the parse throw |
| Emojis.FindByName | src/DiscordBot/Helpers/helpers.ts:27 | finds an emoji of exactly that name, or reports that none has it |
| Emojis.FormatMessageWithEmojis | src/DiscordBot/Helpers/helpers.ts:25-30 | with no guild emojis, or no `:` in the text, the text is unchanged |
| Emojis.FormatMatchedToken | src/DiscordBot/Helpers/helpers.ts:25-30 | a `:name:` token whose name a guild emoji carries becomes that emoji's rendering |
| Emojis.FormatUnmatchedToken | src/DiscordBot/Helpers/helpers.ts:25-30 | a `:name:` token no guild emoji carries is kept as it is |
| Emojis.ReplaceWordAbsent | src/DiscordBot/Helpers/logAsUser.ts:93-96 | text not containing the emote name is unchanged |
| Emojis.ReplaceWordBySelf | src/DiscordBot/Helpers/logAsUser.ts:93-96 | replacing a name by itself changes nothing |
| Emojis.ReplaceWordBoundaries | src/DiscordBot/Helpers/logAsUser.ts:93-96 | the text that is just the name becomes the replacement, while `_` + name, glued to a word character, is left as it is (the general case is `Emojis.ReplaceWordAt`) |
| Emojis.ReplaceWordAt | src/DiscordBot/Helpers/logAsUser.ts:93-96 | an occurrence of the name with a non-word character or the text's end on each side is replaced, and the text around it is rewritten on its own |
| Emojis.NoMatchInsideWord | src/DiscordBot/Helpers/logAsUser.ts:94 | inside a run of word characters there is no `\b`, so nothing is replaced |
| EmoteUpload.EmojiName | src/DiscordBot/Helpers/Emotes.ts:87-96 | the emoji name is the emote name's prefix of min(length, 32) characters (code points, see Left out) |
| EmoteUpload.ReplaceSuffix | src/DiscordBot/Helpers/Emotes.ts:106-115 | an anchored suffix replacement: it changes the trailing suffix only, and nothing when the suffix is absent |
| EmoteUpload.Materialize | src/DiscordBot/Helpers/Emotes.ts:93-122 | one or two calls, all under the truncated name, the first with the original link; a rejection escapes only after a retry |
| EmoteUpload.FirstNamed | src/DiscordBot/Helpers/Emotes.ts:76-81 | the first link of a name, or none of that name |
| EmoteUpload.UniqueByName | src/DiscordBot/Helpers/Emotes.ts:76-81 | names are distinct, in input order, each the first link of its name, and every input name is kept |
| EmoteUpload.Step | src/DiscordBot/Helpers/Emotes.ts:85-123 | an existing emoji makes no call; the step fails exactly when an upload is needed and fails twice; otherwise it yields the expected emoji |
| EmoteUpload.Assemble | src/DiscordBot/Helpers/Emotes.ts:85-98 | every upload call is for an emote whose truncated name no existing emoji carries |
| EmoteUpload.AssembleFails | src/DiscordBot/Helpers/Emotes.ts:92-123 | the whole load rejects exactly when some emote's upload and its retry both reject |
| EmoteUpload.AssembleOrder | src/DiscordBot/Helpers/Emotes.ts:125-137 | resolved names keep the order of the unique emotes |
| EmoteUpload.AssembleLookup | src/DiscordBot/Helpers/Emotes.ts:125-137 | each emote name looks up what that emote resolves to on its own |
| EmoteUpload.UniqueAreFirstNamed | src/DiscordBot/Helpers/Emotes.ts:76-81 | an emote is kept by the de-duplication exactly when it is the first link of its name |
| EmoteUpload.LoadFails | src/DiscordBot/Helpers/Emotes.ts:92-132 | the load rejects exactly when the first occurrence of some name needs an upload that fails twice |
| EmoteUpload.LoadResult | src/DiscordBot/Helpers/Emotes.ts:70-138 | a successful load has at most one entry per name, in first-occurrence order; each is the pre-existing emoji with its 32-character name if any, else that name's own upload |
| EmoteUpload.LoadEmotes | src/DiscordBot/Helpers/Emotes.ts:70-98 | every upload call is for an emote of the input, under its 32-character name, and only when no existing emoji carries that name |
| EmoteUpload.RetryOnInvalidForm | src/DiscordBot/Helpers/Emotes.ts:103-110 | error 50035 makes exactly one retry, with `.gif` turned into `.webp` |
| EmoteUpload.RetryOnAssetTooLarge | src/DiscordBot/Helpers/Emotes.ts:112-119 | error 50138 makes exactly one retry, with `3.0` turned into `2.0`; the copy in `logAsUser.ts` gives up instead |
| EmoteUpload.OtherErrorSkipsEmote | src/DiscordBot/Helpers/Emotes.ts:102-122 | any other error yields nothing for that emote, makes no retry and does not fail the load |
| EmoteUpload.SubsequenceMembers | src/DiscordBot/Helpers/Emotes.ts:125 | every element of the unique list comes from the input |
| Webhooks.CacheKeyInjective | src/DiscordBot/Helpers/webhooks.ts:44 | for ids without `-`, two channels share a key exactly when their guild and channel ids agree |
| Webhooks.Named | src/DiscordBot/Helpers/webhooks.ts:11 | keeps exactly the webhooks of the name |
| Webhooks.FirstNamed | src/DiscordBot/Helpers/webhooks.ts:57 | a webhook of the name, or none exists |
| Webhooks.Insert | src/DiscordBot/Helpers/webhooks.ts:18-20 | insertion adds exactly the one element and leads with it only when it is not newer than the current head |
| Webhooks.InsertSorted | src/DiscordBot/Helpers/webhooks.ts:18-20 | insertion keeps a sequence ordered by `createdTimestamp \|\| 0` |
| Webhooks.SortByCreated | src/DiscordBot/Helpers/webhooks.ts:18-20 | the sort result is ordered by timestamp (missing = 0) and is a permutation of its input |
| Webhooks.FirstOldest | src/DiscordBot/Helpers/webhooks.ts:18-22 | an element whose timestamp is minimal |
| Webhooks.SortHead | src/DiscordBot/Helpers/webhooks.ts:18-22 | the kept webhook, first after the sort, is the first of the oldest |
| Webhooks.RemoveDeleted | src/DiscordBot/Helpers/webhooks.ts:23-29 | only duplicates whose delete succeeds disappear |
| Webhooks.CleanupDeletesDuplicates | src/DiscordBot/Helpers/webhooks.ts:13-32 | with more than one webhook of the name and a successful fetch, the cache holds one of them; a delete is issued for every other webhook of the name and for no webhook of another name |
| Webhooks.Cleanup | src/DiscordBot/Helpers/webhooks.ts:5-37 | cleanup changes no other cache key, adds no webhook, removes no webhook of another name and never creates one |
| Webhooks.CleanupKeepsOne | src/DiscordBot/Helpers/webhooks.ts:22-29 | with unique ids a webhook of the name always survives |
| Webhooks.KeepSurvives | src/DiscordBot/Helpers/webhooks.ts:22 | the kept webhook is not among the duplicates |
| Webhooks.GetOrCreateWebhook | src/DiscordBot/Helpers/webhooks.ts:39-77 | a hit returns the cached webhook with no call; on success the key maps to the returned webhook of that name; on failure the key is absent; other keys are unchanged |
| Webhooks.CreateOnlyWhenAbsent | src/DiscordBot/Helpers/webhooks.ts:56-66 | with a same-named webhook present, an existing one is returned and nothing is created |
| Webhooks.FailureEvicts | src/DiscordBot/Helpers/webhooks.ts:71-76 | a failing lookup, or a failing creation when none exists, returns null and leaves the key absent |
| Webhooks.CleanupFailureSwallowed | src/DiscordBot/Helpers/webhooks.ts:34-36 | a cleanup failure never makes the lookup fail |
| Webhooks.OldestKept | src/DiscordBot/Helpers/webhooks.ts:18-69 | when every fetch and delete succeeds, the oldest same-named webhook is returned, cached, and the only one of its name left |
| Webhooks.CleanupLeavesOldest | src/DiscordBot/Helpers/webhooks.ts:18-32 | after a clean run every webhook of the name is the oldest |
| Webhooks.CacheHitMakesNoCall | src/DiscordBot/DiscordBot.ts:76-81 | a lookup makes no platform call exactly when the key is cached |
| Delivery.FindOrCreateHook | src/DiscordBot/Helpers/helpers.ts:50-72 | a failed fetch rejects; a returned webhook posts to the channel |
| Delivery.FirstForChannel | src/DiscordBot/Helpers/helpers.ts:66 | the first webhook bound to the channel, or none is |
| Delivery.FindOrCreateReusesExisting | src/DiscordBot/Helpers/helpers.ts:55-71 | an existing channel webhook is reused; one is created, under the given name, only when none exists |
| Delivery.SendWebhookMessage | src/DiscordBot/Helpers/helpers.ts:85-110 | rejects exactly when the sixth argument is missing or the platform rejects the send; a null webhook sends nothing; a send carries the content, name and avatar, allows only user mentions and suppresses notifications |
| Delivery.ThreadIdIffThread | src/DiscordBot/Helpers/helpers.ts:102-109 | threadId is the channel id exactly when isThread holds; `permission` makes no difference |
| Delivery.IdenticalContentSentTwice | src/DiscordBot/Helpers/helpers.ts:93-99 | the duplicate check is commented out: the same content twice is sent twice |
| Delivery.ListReply | src/DiscordBot/Helpers/helpers.ts:125-128 | empty exactly when the fixed empty reply; otherwise the header followed by the items joined by `, ` |
| Delivery.JoinCommaHoldsEach | src/DiscordBot/Helpers/helpers.ts:127 | every item occurs in the joined list |
| Delivery.ListReplyNamesAll | src/DiscordBot/Helpers/helpers.ts:125-128 | a non-empty reply names every listed item |
| Registry.DocIndex | src/DiscordBot/Helpers/handleAddStreamer.ts:36 | the first document of the name, or none has it |
| Registry.AddStreamerDoc | src/DiscordBot/Helpers/handleAddStreamer.ts:6-66 | rejected with a reply exactly when one channel name alone is given or the Twitch user is unknown (the half-named case with the fixed reply); otherwise unsaved exactly when a document of another name holds the Twitch id (the unique index of `streamer.model.ts`); a save adds a document only when none has the lowercased name |
| Registry.AddStreamerDocEffect | src/DiscordBot/Helpers/handleAddStreamer.ts:7-56 | when the Twitch id is free, the document under the lowercased name carries the id and ends with the new entry (omitted names stored as `""`); other documents are untouched |
| Registry.DuplicateTwitchIdUnsaved | src/DiscordBot/Helpers/handleAddStreamer.ts:36-56 | a Twitch id held by a document of another name is not saved again: the add stores nothing |
| Registry.AddKeepsIndexes | src/DiscordBot/Helpers/handleAddStreamer.ts:36-56 | a successful add keeps the store free of two documents with the same name or the same Twitch id |
| Registry.AddTwiceKeepsBoth | src/DiscordBot/Helpers/handleAddStreamer.ts:46-53 | adding the same destination twice stores it twice |
| Registry.DocIndexAt | src/DiscordBot/Helpers/handleAddStreamer.ts:36 | the lookup finds the first document of the name |
| Registry.UpdateChannelIgnored | src/DiscordBot/Helpers/handleAddStreamer.ts:13-14 | the `updatechannel` option changes nothing |
| Registry.AddEntry | src/DiscordBot/DiscordBot.ts:377-391 | appends the destination to the first record whose channel is `#`+name, else appends a new single-destination record; no duplicate check |
| Registry.DropChannel | src/DiscordBot/Helpers/handleRemoveStreamer.ts:25-27 | keeps exactly the entries with another channel id, whatever their guild; an unresolved channel keeps all |
| Registry.DropChannelShrinks | src/DiscordBot/DiscordBot.ts:425-429 | the filter shortens the entries exactly when one of them points at the channel |
| Registry.NonEmpty | src/DiscordBot/Helpers/handleRemoveStreamer.ts:36-38 | keeps exactly the records with entries |
| Registry.RemoveEntries | src/DiscordBot/DiscordBot.ts:423-436 | no empty record remains; matching records lose every entry of the channel and are kept when entries remain; non-matching non-empty records are kept; the flag holds exactly when the last matching record had an entry of the channel |
| Registry.LastRemovedIff | src/DiscordBot/DiscordBot.ts:423-431 | the flag after the walk is set exactly when the last matching record lost an entry, or no record matched and it was set before |
| Registry.RemoveUnresolvedChannel | src/DiscordBot/Helpers/handleRemoveStreamer.ts:12-54 | an unresolved channel removes nothing and reports failure |
| Registry.NoneNeverRemoves | src/DiscordBot/Helpers/handleRemoveStreamer.ts:24-31 | with an unresolved channel the `removed` flag stays false |
| Registry.SpliceWalk | src/DiscordBot/Helpers/handleRemoveStreamer.ts:22-33 | the walk never grows the records |
| Registry.RemoveSpliced | src/DiscordBot/Helpers/handleRemoveStreamer.ts:22-38 | no record with an empty entry list remains |
| Registry.SpliceSkipsNext | src/DiscordBot/Helpers/handleRemoveStreamer.ts:22-29 | the record right after a spliced one is never visited, so it keeps the channel |
| Registry.SpliceWalkWithoutSplice | src/DiscordBot/Helpers/handleRemoveStreamer.ts:22-33 | when no record becomes empty, the walk visits every record, and `removed` reflects the last match |
| Registry.RemoveAgreesWithoutSplice | src/DiscordBot/Helpers/handleRemoveStreamer.ts:22-38 | without a splice the two remove handlers agree |
| Registry.RemoveReply | src/DiscordBot/Helpers/handleRemoveStreamer.ts:49-56 | the reply starts with the success or the failure phrase, by the flag |
| Registry.GuildRecords | src/DiscordBot/Helpers/registerCommands.ts:165-169 | keeps, in order, the records having an entry in the guild |
| Registry.StreamerChoices | src/DiscordBot/Helpers/registerCommands.ts:158-178 | a choice is offered exactly for each record with an entry in the guild, named by its channel less the first `#`, in record order |
| Registry.ChoiceNameDropsHash | src/DiscordBot/Helpers/registerCommands.ts:173 | a `#name` channel's choice is named `name` |
| Registry.CommandSet | src/DiscordBot/Helpers/registerCommands.ts:26-139 | addstreamer and streamers always; removestreamer exactly when there are choices; raid, unraid and clearchat exactly in the home guild |
| Registry.StreamerSuggestions | src/DiscordBot/DiscordBot.ts:319-321 | keeps exactly the choices whose lowercased name starts with the lowercased focused text |
| Registry.StreamerSuggestionsIgnoreCase | src/DiscordBot/DiscordBot.ts:319-321 | the focused text's case makes no difference |
| Registry.ChannelNamesOf | src/DiscordBot/DiscordBot.ts:334-338 | the names are exactly those the channel cache resolves for the entries' channels |
| Registry.StartingWith | src/DiscordBot/DiscordBot.ts:340-342 | keeps exactly the names starting with the prefix |
| Registry.ChannelSuggestions | src/DiscordBot/DiscordBot.ts:324-345 | a name is suggested exactly when it resolves a channel of an entry of a guild record and starts with the lowercased focused text |
| Registry.FlatNamesResolved | src/DiscordBot/DiscordBot.ts:334-339 | every flattened name is one the guild's channel cache resolves |
| Registry.FlatNamesComplete | src/DiscordBot/DiscordBot.ts:334-339 | every resolvable channel of every record appears among the flattened names |
| Registry.FlatNamesSound | src/DiscordBot/DiscordBot.ts:334-339 | every flattened name is the resolved name of an entry of one of the records |
| Registry.ListEntries | src/DiscordBot/DiscordBot.ts:456-476 | the empty reply exactly when the guild has no record |
| Registry.ListEntriesNamesAll | src/DiscordBot/DiscordBot.ts:461-469 | every record of the guild is named in the reply |
| Registry.ListDocs | src/DiscordBot/Helpers/helpers.ts:116-128 | the empty reply exactly when no document has an entry in the guild |
| Registry.ListDocsNamesAll | src/DiscordBot/Helpers/helpers.ts:125-128 | when some document has an entry in the guild, the reply starts with the header and names every such document |
| Registry.DocsInGuild | src/DiscordBot/Helpers/helpers.ts:120-122 | keeps exactly the documents with an entry in the guild |
| Relay.FindRecord | src/DiscordBot/Helpers/logAsUser.ts:39-43 | the first record whose channel, less its first `#`, is the stream name; none when no record matches |
| Relay.Targets | src/DiscordBot/Helpers/logAsUser.ts:46-56 | reachable, not yet processed destinations of the record, in the record's order, with pairwise distinct keys; for `-`-free ids every such destination is included |
| Relay.DistinctConcat | src/DiscordBot/Helpers/logAsUser.ts:37-51 | the per-group distinctness survives concatenating different (user, stream channel) groups |
| Relay.GroupJobs | src/DiscordBot/Helpers/logAsUser.ts:39-56 | one (user, stream channel) group: reachable destinations of the found record, in its order, distinct keys, nothing without a record |
| Relay.GroupJobsComplete | src/DiscordBot/Helpers/logAsUser.ts:48-56 | every reachable destination of the record gets a delivery |
| Relay.ChannelJobs | src/DiscordBot/Helpers/logAsUser.ts:38-56 | the deliveries for one user over the stream channels from an index on, in channel order, for reachable destinations of the found records |
| Relay.UserJobs | src/DiscordBot/Helpers/logAsUser.ts:37-56 | the deliveries for the users from an index on, ordered by user and then by stream channel |
| Relay.Plan | src/DiscordBot/Helpers/logAsUser.ts:37-56 | every delivery names a real user and stream channel and a reachable destination of the found record; each key at most once per (user, stream channel); deliveries ordered by user, then stream channel |
| Relay.PlanComplete | src/DiscordBot/Helpers/logAsUser.ts:37-56 | for `-`-free ids, every reachable destination of every stream channel's record gets a delivery for every user |
| Relay.UnknownChannelSendsNothing | src/DiscordBot/Helpers/logAsUser.ts:43 | a stream channel without a record gets no delivery |
| Relay.InlineAll | src/DiscordBot/Helpers/logAsUser.ts:85-98 | when no application emoji carries any resolved emote's 32-character name, the text is unchanged |
| Relay.EmotePipeline | src/DiscordBot/Helpers/logAsUser.ts:72-98 | a failed 7TV fetch or a failed application-emoji fetch inside `loadEmotes` fails the delivery; with no application emojis, or no answer from the per-emote fetch, a successful pipeline sends the formatted text unchanged |
| Relay.PipelineFailureCause | src/DiscordBot/Helpers/logAsUser.ts:72-98 | with the 7TV answer and well-formed offsets the parse succeeds, and the pipeline fails exactly when the application-emoji fetch in `loadEmotes` rejects, an upload fails twice, or an emote was resolved and the per-emote fetch rejects |
| Relay.EmoteFailureEvicts | src/DiscordBot/Helpers/logAsUser.ts:72-107 | whenever the webhook resolves and the emote pipeline fails, the delivery ends in the `catch`: the key is evicted and nothing is sent |
| Relay.InlineSingleWord | src/DiscordBot/Helpers/logAsUser.ts:89-96 | a message that is one emote's name becomes that emoji |
| Relay.DeliverWithEmotes | src/DiscordBot/Helpers/logAsUser.ts:58-107 | with the four-argument call or a send the platform rejects nothing is sent; a send carries the chatter's name, the avatar or its default, no thread, and the emote pipeline's text |
| Relay.FourArgumentsNeverSends | src/DiscordBot/Helpers/logAsUser.ts:99-107 | as written, every delivery whose webhook resolves ends in the `catch`: the key is evicted and nothing is sent |
| Relay.RejectedSendEvicts | src/DiscordBot/Helpers/logAsUser.ts:99-107 | a send the platform rejects lands in the `catch`: the key is evicted, even with the target supplied |
| Relay.WithTargetSends | src/DiscordBot/Helpers/helpers.ts:85-110 | with the target supplied and the platform accepting, the delivery is sent with the inlined text |
| Relay.NullWebhookAndDefaultAvatar | src/DiscordBot/Helpers/logAsUser.ts:70-103 | a null webhook sends and evicts nothing; a missing profile picture falls back to the default avatar |
| Relay.Outcomes | src/DiscordBot/Helpers/logAsUser.ts:63-116 | one outcome per planned delivery, each the delivery of that job's user to that job's destination under that delivery's own platform answer |
| Relay.RunWithEmotes | src/DiscordBot/Helpers/logAsUser.ts:63-116 | one outcome per planned delivery; the cache loses exactly the keys of evicted deliveries and keeps the other entries as they were |
| Relay.LogAsUserWithEmotes | src/DiscordBot/Helpers/logAsUser.ts:20-116 | the cache loses exactly the keys of failed deliveries; as written nothing is sent |
| Relay.BotDeliver | src/DiscordBot/DiscordBot.ts:519-542 | other keys are unchanged; with the four-argument call or a rejected send nothing is sent and the key ends uncached; for a cached key the delivery is evicted exactly then; with the target, a sent delivery leaves the key cached, and a cached, accepted one sends and keeps the cache; a send carries the emoji-formatted text, the name and the avatar |
| Relay.RunCached | src/DiscordBot/DiscordBot.ts:498-551 | as written nothing is sent and no touched key stays cached; with the target a sent delivery's key stays cached unless a later delivery to that key is rejected; the last delivery to a key, if rejected, leaves it uncached; untouched keys keep their entries; sends carry the planned user's name |
| Relay.LogAsUserCached | src/DiscordBot/DiscordBot.ts:484-552 | as written nothing is sent and every touched key ends uncached; untouched cached keys keep their entries |
| TwitchEvents.Handle | src/Twitch/Helpers/eventHandlers.ts:15-42 | the event is dropped exactly when its key equals the slot; the slot then holds the key; a relayed event has its kind's shape |
| TwitchEvents.HandleAll | src/Twitch/Helpers/eventHandlers.ts:15-130 | an event is relayed exactly when its key differs from the previous event's key (the slot's initial value for the first), in order, with its shape; the slot ends with the last key |
| TwitchEvents.SameKeyTwiceRelaysOnce | src/Twitch/Helpers/eventHandlers.ts:39-42 | the same key twice in a row relays once |
| TwitchEvents.AlternatingKeysAllRelayed | src/Twitch/Helpers/eventHandlers.ts:15-42 | A, B, A with distinct keys relays all three |
| TwitchEvents.KindsShareTheSlot | src/Twitch/Helpers/eventHandlers.ts:39-120 | after a ban in a channel, a timeout of a user of that name, or a message with that id, is dropped |
| TwitchEvents.EmptyUnfollowsRelayOnce | src/Twitch/Helpers/eventHandlers.ts:21-24 | two empty unfollow batches in a row relay once (`undefined === undefined`) |
| TwitchEvents.ActionsAreStarred | src/Twitch/Helpers/eventHandlers.ts:54-66 | action and announcement text is wrapped in `*…*` |
| TwitchEvents.RedemptionShape | src/Twitch/Helpers/eventHandlers.ts:97-111 | the fixed redeem line with its avatar, then the starred input under the redeemer exactly when the input is not empty |
| TwitchEvents.UnfollowShape | src/Twitch/Helpers/eventHandlers.ts:25-30 | unfollows go to `mimi_py`, one fixed line per follower |
| TwitchEvents.ModerationGifs | src/Twitch/Helpers/eventHandlers.ts:69-129 | ban, unban and timeout each relay one fixed GIF under the affected user's name |
| TwitchCommands.HandleTwitchCommand | src/DiscordBot/Helpers/handleTwitchCommands.ts:27-89 | addnote is handled exactly with permission; vanish is handled exactly when the fetch succeeds and the webhook exists; anything else is not handled; a note needs permission and a webhook; a bulk delete takes exactly the user's messages |
| TwitchCommands.NoteShape | src/DiscordBot/Helpers/handleTwitchCommands.ts:35-51 | the description is the message less its first `!addnote`, plus ` \n`; the note is sent under 📝 with no mentions parsed and the avatar or its default |
| TwitchCommands.NoteKeepsSecondCommand | src/DiscordBot/Helpers/handleTwitchCommands.ts:37 | only the first `!addnote` is removed |
| TwitchCommands.AddNoteByPermission | src/DiscordBot/Helpers/handleTwitchCommands.ts:28-89 | a broadcaster or moderator's note is handled and sent, anyone else's is not handled; no message means no permission |
| TwitchCommands.VanishNeedsNoPermission | src/DiscordBot/Helpers/handleTwitchCommands.ts:60-78 | vanish is handled without any badge check |
| Online.Decide | src/DiscordBot/Helpers/setStreamerOnline.ts:14-45 | an empty live name or a missing channel, bot member or permission skips; otherwise a rename to the live or offline name by liveness, or a logged failure |
| Online.Entries | src/DiscordBot/Helpers/setStreamerOnline.ts:6-14 | exactly the guild entries of the documents the `$ne: ""` query returns |
| Online.SetStreamersOnline | src/DiscordBot/Helpers/setStreamerOnline.ts:5-48 | one decision per entry, so a failed rename does not stop the others; every rename targets a registered channel with its target name |
| Online.RenamedEntry | src/DiscordBot/Helpers/setStreamerOnline.ts:14-45 | a rename decided for a queried entry names a channel of a queried document and that document's live or offline name |
| Online.LiveIffListed | src/DiscordBot/Helpers/setStreamerOnline.ts:16-37 | a listed streamer gets the live name, an unlisted one the offline name |
| Online.EmptyChannelIdExcludesDocument | src/DiscordBot/Helpers/setStreamerOnline.ts:6-8 | a document with an empty channel id in any entry is not queried |
| Pronouns.LookupPronoun | src/DiscordBot/Helpers/pronouns.ts:31-35 | a table entry exactly for known ids |
| Pronouns.GetPronouns | src/DiscordBot/Helpers/pronouns.ts:23-44 | non-empty exactly for a successful, truthy answer with a known main id; a non-empty suffix has the form ` (…)` |
| Pronouns.TableKeyedByName | src/DiscordBot/Helpers/pronouns.ts:1-21 | every entry is keyed by its own name and has a subject and an object |
| Pronouns.SuffixShape | src/DiscordBot/Helpers/pronouns.ts:31-38 | the main subject over the alternative object, or over the main object when the alternative is absent or unknown |
| Pronouns.Examples | src/DiscordBot/Helpers/pronouns.ts:1-38 | `sheher` gives ` (She/Her)`; `hehim` with `theythem` gives ` (He/Them)` |
| Pronouns.UnknownIds | src/DiscordBot/Helpers/pronouns.ts:31-43 | an unknown alternative falls back to the main object (` (He/Him)`); an unknown main id gives `""` |

## Left out

- Client bootstrap, login, token refresh, configuration, the MongoDB connection and the reads and writes of `channels.json` and of the database. The store is an in-memory sequence passed in and returned.
- Network lookups are inputs: the 7TV fetch, the pronoun service, Twitch user and stream lookups, and the application-emoji listing.
- Concurrency: `Promise.all` fan-out, the per-guild command registration and fire-and-forget `.then` callbacks are run in sequence. The unban edits are independent and never stop each other; the awaited ban edits stop at the first rejection (`Moderation.BanLoop`).
- Pinning the note, the result of `bulkDelete`, interaction replies other than their text, embeds, bot presence, and `registerCommands`/`initializeClients` re-runs after add and remove.
- `bulkDelete`'s 14-day filter: the messages handed to it are modelled, not which of them Discord deletes.
- Full regular expressions. Emoji and emote names are restricted to ASCII word characters. `logAsUser.ts:93-96` builds its regex from an unescaped name; `Relay.InlineAll` leaves the text unchanged for a name that is not a word.
- Relay.EmotePipeline: one snapshot of the platform answers (`Env`) serves every delivery and every emote of a chat line: the 7TV answer, the existing application emojis, the upload answers and the re-fetched emoji list (`Env.refetched`). The code fetches these again for each delivery (`logAsUser.ts:73-82`) and re-fetches the emojis for each emote (`logAsUser.ts:87`), so two deliveries, or two emotes, may see different answers; the model does not cover that. Whether a send is rejected is an answer per delivery (`rejects(k)` in `Relay.Outcomes` and `Relay.RunCached`).
- JavaScript prototype keys (`constructor`, `toString`, …) as pronoun ids. The lookup covers only the table's own keys.
- `toDateString` of a redemption date: the rendered string is an input.
- The class at `DiscordBot.ts:557-569` lacks the `getClient` and `webhookCache` members that other files call. The client and the cache are parameters here.
- The forum branch of the uncached `getOrCreateWebhook` (`helpers.ts:55-63`) behaves like the text branch and is covered by `Delivery.FindOrCreateHook`.
- Relay.Targets: completeness (every reachable, unprocessed destination is delivered) is stated only for ids without `-`, because `${guildId}-${channelId}` can collide otherwise; Discord ids are decimal.
- Relay.DeliverWithEmotes: a failure of the uncached webhook lookup is reported as `Uncaught` and changes no cache entry; the rejection of the outer promise is not followed further.
- EmoteParse.RangeName: JavaScript `slice` and `length` count UTF-16 code units, while the model's strings are sequences of code points. The two agree only on text without characters outside the Basic Multilingual Plane. For example, with the message `😀 Kappa` and the offsets `25:2-6`, the code names the emote ` Kapp` (the emoji takes two units), while the model names it `Kappa`.
- EmoteParse.ParseLayout: the Twitch entries' names are stated in code points, for the reason given for `EmoteParse.RangeName`.
- EmoteParse.RangeNameInclusive: the inclusive end offset is stated in code points, for the reason given for `EmoteParse.RangeName`.
- EmoteUpload.EmojiName: `slice(0, 32)` (`Emotes.ts:87-96`, `logAsUser.ts:90`) keeps 32 UTF-16 code units; the model keeps 32 code points, so a name with astral characters is cut differently.
- Moderation.UnbanContent: `slice(0, -2)` (`handleTwitchEvents.ts:76`) drops two UTF-16 code units; the model drops two code points, which differs when the text ends in an astral character.
- Text.ToLower: lowercases ASCII letters only. JavaScript's `toLowerCase` (`DiscordBot.ts:320`, `DiscordBot.ts:424`, `handleAddStreamer.ts:8`) folds every Unicode letter, so names that differ only in the case of a non-ASCII letter are treated as equal by the code and as different by the model.
- Registry.StreamerSuggestions: the case-insensitive match is stated for ASCII case only, for the reason given for `Text.ToLower`.
- Registry.StreamerSuggestionsIgnoreCase: holds for ASCII case only, for the reason given for `Text.ToLower`.
- Registry.RemoveEntries: the streamer name comparison (`DiscordBot.ts:424`) ignores ASCII case only, for the reason given for `Text.ToLower`.
- Text.ParseInt: skips ASCII whitespace (space, tab, line feed, vertical tab, form feed, carriage return) before the digits. JavaScript's `parseInt` also skips the other Unicode white space and line terminators (U+00A0, U+FEFF, U+2028, …), so for a start offset written as U+00A0 followed by `2` the code reads 2 while the model reads `NaN`. The descriptors `logAsUser` builds itself hold no white space.
- Relay.EmotePipeline: a missing client, for which `loadEmotes` returns `[]` before any fetch (`logAsUser.ts:119-120`), is not modelled; the client is always present.
- Moderation.UnbanContent: the restoration is not the inverse of the redaction for every input; `Moderation.UnbanAfterBan` states the conditions and `Moderation.UnbanAfterBanLosesQuotedMarker` shows one that fails.

## Findings

| source | as written | input that shows it | evidently intended | confidence | as-written member | corrected member |
|---|---|---|---|---|---|---|
| src/DiscordBot/Helpers/logAsUser.ts:99-104 | `sendWebhookMessage` is called with four arguments, but `helpers.ts:85-92` destructures a sixth `[channelId, isThread]`; destructuring `undefined` rejects the call, the `catch` evicts the cache key, and no message is ever sent (likewise `DiscordBot.ts:534-539`) | any chat line to a reachable channel whose webhook resolves | pass `[channel.id, false]` so that the message is sent | high; not executed | Relay.FourArgumentsNeverSends | Relay.WithTargetSends |
| src/DiscordBot/Helpers/handleRemoveStreamer.ts:22-29 | a record emptied by the filter is spliced out of the array the `for…of` is iterating, so the record behind it is never visited | records `#a → [(g1, c1)]` and `#A → [(g2, c1)]`, removing `#a` from channel `c1`: `#A` keeps `c1` | remove the channel from every matching record, then drop the empty ones (as `DiscordBot.ts:423-436` does) | high; not executed | Registry.SpliceSkipsNext | Registry.RemoveEntries |
