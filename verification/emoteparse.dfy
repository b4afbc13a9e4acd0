/** The emote descriptor and its parser: `logAsUser` flattens the Twitch
    chat message's emote offsets into `id:s-e,s-e/id:…`, and
    `parseMessageWithEmotes` (identical in `7tv.ts` and `Emotes.ts`) reads it
    back, slicing each emote's name out of the message by inclusive offsets,
    then appends one entry per message word that names a 7TV emote. */
module EmoteParse {
  import opened Wrappers
  import opened Text

  /** `{ emoteName, link }` as pushed onto `emoteLinkMap`. */
  datatype EmoteLink = EmoteLink(emoteName: string, link: string)

  /** One 7TV emote of the decoded `emote_set.emotes` list. */
  datatype SevenTvEmote = SevenTvEmote(name: string, hostUrl: string)

  /** One entry of twurple's `emoteOffsets` map: an emote id and its
      positions, each written `start-end`. */
  datatype OffsetEntry = OffsetEntry(id: string, positions: seq<string>)

  function TwitchEmoteLink(id: string): string {
    "https://static-cdn.jtvnw.net/emoticons/v2/" + id + "/default/dark/3.0"
  }

  function SevenTvLink(url: string): string {
    "https:" + url + ".gif"
  }

  // fetchEmotes ---------------------------------------------------------------

  predicate LastNamed(emotes: seq<SevenTvEmote>, k: int)
    requires 0 <= k < |emotes|
  {
    forall j :: k < j < |emotes| ==> emotes[j].name != emotes[k].name
  }

  /** `fetchEmotes` after the network call: `emoteMap.set(name, url + "/1x")`
      for each decoded emote in turn. */
  function FetchEmotes(emotes: seq<SevenTvEmote>): (m: map<string, string>)
    ensures forall k :: 0 <= k < |emotes| ==> emotes[k].name in m
    ensures forall n :: n in m ==> exists k :: 0 <= k < |emotes| && emotes[k].name == n
    decreases |emotes|
  {
    if |emotes| == 0 then map[]
    else
      var init := emotes[..|emotes| - 1];
      var last := emotes[|emotes| - 1];
      FetchEmotes(init)[last.name := last.hostUrl + "/1x"]
  }

  /** A later emote of the same name overwrites an earlier one: each name
      maps to the url of its last occurrence, with `/1x` appended. */
  lemma {:induction false} FetchEmotesLastWins(emotes: seq<SevenTvEmote>, k: int)
    requires 0 <= k < |emotes| && LastNamed(emotes, k)
    ensures FetchEmotes(emotes)[emotes[k].name] == emotes[k].hostUrl + "/1x"
    decreases |emotes|
  {
    var init := emotes[..|emotes| - 1];
    if k < |emotes| - 1 {
      assert LastNamed(init, k);
      assert init[k] == emotes[k];
      FetchEmotesLastWins(init, k);
    }
  }

  // The descriptor ---------------------------------------------------------------

  function EntryText(e: OffsetEntry): string {
    e.id + ":" + Join(e.positions, ',')
  }

  function EntryTexts(entries: seq<OffsetEntry>): (r: seq<string>)
    ensures |r| == |entries|
    ensures forall k :: 0 <= k < |entries| ==> r[k] == EntryText(entries[k])
  {
    seq(|entries|, k requires 0 <= k < |entries| => EntryText(entries[k]))
  }

  /** `logAsUser.ts` lines 75-79: `${key}:${value.join(",")}` per map entry,
      joined by `/`; a missing message or offsets that are not a `Map`
      (`None`) give the empty descriptor. */
  function SerializeOffsets(offsets: Option<seq<OffsetEntry>>): (r: string)
    ensures r == "" <==> offsets.None? || offsets.value == []
  {
    match offsets
    case None => ""
    case Some(entries) =>
      var texts := EntryTexts(entries);
      if |texts| == 0 then ""
      else
        assert texts[0] == entries[0].id + ":" + Join(entries[0].positions, ',');
        assert |Join(texts, '/')| >= |texts[0]|;
        Join(texts, '/')
  }

  /** One id paired with each of its ranges, in order. */
  function IdPairs(id: string, ranges: seq<string>): (r: seq<(string, string)>)
    ensures |r| == |ranges|
    ensures forall k :: 0 <= k < |ranges| ==> r[k] == (id, ranges[k])
  {
    seq(|ranges|, k requires 0 <= k < |ranges| => (id, ranges[k]))
  }

  /** The `(id, range)` pairs a descriptor lists, in order. */
  function Flatten(entries: seq<OffsetEntry>): seq<(string, string)>
    decreases |entries|
  {
    if |entries| == 0 then []
    else IdPairs(entries[0].id, entries[0].positions) + Flatten(entries[1..])
  }

  /** The pairs of the `/`-separated parts: each part is split on `:` into
      id and ranges, the ranges on `,`. A part without `:` leaves `range`
      undefined, and `range.split` throws. */
  /** Every part has a `:`, so each one has a `range` to split. */
  predicate AllHaveColon(parts: seq<string>) {
    forall k :: 0 <= k < |parts| ==> ':' in parts[k]
  }

  function PartsPairs(parts: seq<string>): (r: Result<seq<(string, string)>>)
    ensures r.Success? <==> AllHaveColon(parts)
    decreases |parts|
  {
    if |parts| == 0 then Success([])
    else
      var fields := Split(parts[0], ':');
      if |fields| < 2 then Failure("TypeError: cannot read 'split' of undefined")
      else
        var ranges := Split(fields[1], ',');
        var head := IdPairs(fields[0], ranges);
        match PartsPairs(parts[1..])
        case Failure(err) => Failure(err)
        case Success(tail) => Success(head + tail)
  }

  /** The descriptor half of `parseMessageWithEmotes`: `if (twitchEmotes)`
      skips the empty string. */
  function DescriptorPairs(descriptor: string): (r: Result<seq<(string, string)>>)
    ensures r.Success? <==> descriptor == "" || AllHaveColon(Split(descriptor, '/'))
  {
    if descriptor == "" then Success([]) else PartsPairs(Split(descriptor, '/'))
  }

  // Slicing names ------------------------------------------------------------

  /** `parseInt(x, 10)` used as a `slice` argument: `NaN` acts as 0. */
  function IndexOrZero(v: Option<int>): int {
    match v
    case None => 0
    case Some(n) => n
  }

  /** `message.slice(parseInt(start), parseInt(end) + 1)` for one `start-end`
      range; a missing end is `parseInt(undefined)`, which is `NaN`, and so
      is `NaN + 1`. */
  function RangeName(message: string, range: string): (r: string)
    ensures '-' !in range ==> r == ""
    ensures exists i :: 0 <= i <= |message| && r <= message[i..]
  {
    var bounds := Split(range, '-');
    assert '-' !in range ==> |bounds| == 1;
    var start := ParseInt(bounds[0]);
    var end := if |bounds| >= 2 then ParseInt(bounds[1]) else None;
    var endExclusive := match end case None => None case Some(n) => Some(n + 1);
    Slice(message, IndexOrZero(start), IndexOrZero(endExclusive))
  }

  function TwitchLinks(message: string, pairs: seq<(string, string)>): (r: seq<EmoteLink>)
    ensures |r| == |pairs|
  {
    seq(|pairs|, k requires 0 <= k < |pairs| =>
      EmoteLink(RangeName(message, pairs[k].1), TwitchEmoteLink(pairs[k].0)))
  }

  // 7TV words ------------------------------------------------------------------

  function Names(links: seq<EmoteLink>): (r: seq<string>)
    ensures |r| == |links|
    ensures forall k :: 0 <= k < |links| ==> r[k] == links[k].emoteName
  {
    if |links| == 0 then [] else [links[0].emoteName] + Names(links[1..])
  }

  /** The words of the message (split on single spaces) that are keys of the
      7TV map, each yielding one entry linked to its animated image. */
  function SevenTvLinks(words: seq<string>, emoteMap: map<string, string>): (r: seq<EmoteLink>)
    ensures |r| <= |words|
    ensures forall k :: 0 <= k < |r| ==>
              r[k].emoteName in emoteMap && r[k].link == SevenTvLink(emoteMap[r[k].emoteName])
    decreases |words|
  {
    if |words| == 0 then []
    else
      var rest := SevenTvLinks(words[1..], emoteMap);
      if words[0] in emoteMap then [EmoteLink(words[0], SevenTvLink(emoteMap[words[0]]))] + rest
      else rest
  }

  /** The entries named by one word: one per occurrence when it is a key,
      none otherwise. */
  lemma {:induction false} SevenTvLinksCountOf(words: seq<string>, emoteMap: map<string, string>, w: string)
    ensures multiset(Names(SevenTvLinks(words, emoteMap)))[w] == if w in emoteMap then multiset(words)[w] else 0
    decreases |words|
  {
    if |words| > 0 {
      var rest := SevenTvLinks(words[1..], emoteMap);
      SevenTvLinksCountOf(words[1..], emoteMap, w);
      assert multiset(words) == multiset{words[0]} + multiset(words[1..]) by {
        assert words == [words[0]] + words[1..];
      }
      var r := SevenTvLinks(words, emoteMap);
      if words[0] in emoteMap {
        assert multiset(Names(r)) == multiset{words[0]} + multiset(Names(rest)) by {
          assert r[1..] == rest;
        }
      } else {
        assert r == rest;
      }
    }
  }

  /** Every word that is a key yields exactly one entry per occurrence, so a
      repeated word yields repeated entries; no other word yields any. */
  lemma SevenTvLinksCount(words: seq<string>, emoteMap: map<string, string>)
    ensures forall w :: w in emoteMap ==> multiset(Names(SevenTvLinks(words, emoteMap)))[w] == multiset(words)[w]
    ensures forall w :: w !in emoteMap ==> multiset(Names(SevenTvLinks(words, emoteMap)))[w] == 0
  {
    forall w {
      SevenTvLinksCountOf(words, emoteMap, w);
    }
  }

  /** `parseMessageWithEmotes(message, descriptor)` with the 7TV map that its
      own `fetchEmotes` call returns passed in. */
  function ParseMessageWithEmotes(message: string, descriptor: string, emoteMap: map<string, string>)
    : (r: Result<seq<EmoteLink>>)
    ensures r.Success? <==> descriptor == "" || AllHaveColon(Split(descriptor, '/'))
  {
    match DescriptorPairs(descriptor)
    case Failure(err) => Failure(err)
    case Success(pairs) => Success(TwitchLinks(message, pairs) + SevenTvLinks(Split(message, ' '), emoteMap))
  }

  // Properties -------------------------------------------------------------------

  /** All Twitch entries come first, in descriptor order, one per range, each
      named by the inclusive slice and linked to the Twitch CDN; the 7TV
      entries follow in word order. */
  lemma ParseLayout(message: string, descriptor: string, emoteMap: map<string, string>)
    requires DescriptorPairs(descriptor).Success?
    ensures var pairs := DescriptorPairs(descriptor).value;
            var r := ParseMessageWithEmotes(message, descriptor, emoteMap);
            && r.Success?
            && |r.value| == |pairs| + |SevenTvLinks(Split(message, ' '), emoteMap)|
            && (forall k :: 0 <= k < |pairs| ==>
                  r.value[k] == EmoteLink(RangeName(message, pairs[k].1), TwitchEmoteLink(pairs[k].0)))
            && r.value[|pairs|..] == SevenTvLinks(Split(message, ' '), emoteMap)
  {
  }

  /** An empty descriptor produces no Twitch entries. */
  lemma EmptyDescriptor(message: string, emoteMap: map<string, string>)
    ensures ParseMessageWithEmotes(message, "", emoteMap) == Success(SevenTvLinks(Split(message, ' '), emoteMap))
  {
    assert DescriptorPairs("") == Success([]);
    var t := TwitchLinks(message, []);
    assert t == [];
    var s := SevenTvLinks(Split(message, ' '), emoteMap);
    assert ParseMessageWithEmotes(message, "", emoteMap) == Success(t + s);
    assert t + s == s;
  }

  /** A part without `:` makes the parser throw. */
  lemma PartWithoutColonThrows(message: string, emoteMap: map<string, string>)
    ensures ParseMessageWithEmotes(message, "25", emoteMap).Failure?
  {
    assert Split("25", '/') == ["25"];
    assert Split("25", ':') == ["25"];
  }

  /** Two digit strings joined by `-` split back into the two. */
  lemma SplitRange(a: string, b: string)
    requires AllDigits(a) && AllDigits(b)
    ensures Split(a + "-" + b, '-') == [a, b]
  {
    assert Join([a, b], '-') == a + "-" + b;
    assert Free([a, b], '-') by {
      assert forall k :: 0 <= k < |a| ==> IsDigit(a[k]);
      assert forall k :: 0 <= k < |b| ==> IsDigit(b[k]);
    }
    SplitJoin([a, b], '-');
  }

  /** The end offset is inclusive: the range `s-e` names `message[s..e+1]`. */
  lemma RangeNameInclusive(message: string, s: nat, e: nat)
    requires s <= e < |message|
    ensures RangeName(message, NatToString(s) + "-" + NatToString(e)) == message[s..e + 1]
  {
    var a := NatToString(s);
    var b := NatToString(e);
    var bounds := Split(a + "-" + b, '-');
    SplitRange(a, b);
    assert ParseInt(bounds[0]) == Some(s) by { ParseIntOfNat(s); }
    assert ParseInt(bounds[1]) == Some(e) by { ParseIntOfNat(e); }
    assert RangeName(message, a + "-" + b) == Slice(message, s, e + 1);
  }

  predicate WellFormed(entries: seq<OffsetEntry>) {
    forall k :: 0 <= k < |entries| ==>
      && ':' !in entries[k].id && '/' !in entries[k].id
      && |entries[k].positions| >= 1
      && Free(entries[k].positions, ',')
      && Free(entries[k].positions, ':')
      && Free(entries[k].positions, '/')
  }

  lemma EntryTextParts(e: OffsetEntry)
    requires WellFormed([e])
    ensures Split(EntryText(e), ':') == [e.id, Join(e.positions, ',')]
    ensures Split(Join(e.positions, ','), ',') == e.positions
    ensures '/' !in EntryText(e)
  {
    assert [e][0] == e;
    var j := Join(e.positions, ',');
    JoinFree(e.positions, ',', ':');
    JoinFree(e.positions, ',', '/');
    assert Join([e.id, j], ':') == EntryText(e);
    SplitJoin([e.id, j], ':');
    SplitJoin(e.positions, ',');
  }

  /** One step of `PartsPairs` over a part that splits as an entry does. */
  lemma PartsPairsStep(part: string, rest: seq<string>, e: OffsetEntry)
    requires Split(part, ':') == [e.id, Join(e.positions, ',')]
    requires Split(Join(e.positions, ','), ',') == e.positions
    requires PartsPairs(rest).Success?
    ensures PartsPairs([part] + rest) ==
            Success(IdPairs(e.id, e.positions) + PartsPairs(rest).value)
  {
    var parts := [part] + rest;
    assert parts[0] == part && parts[1..] == rest;
  }

  lemma {:induction false} PartsPairsOfEntries(entries: seq<OffsetEntry>)
    requires WellFormed(entries)
    ensures PartsPairs(EntryTexts(entries)) == Success(Flatten(entries))
    decreases |entries|
  {
    var texts := EntryTexts(entries);
    if |entries| > 0 {
      var e := entries[0];
      var tail := entries[1..];
      assert PartsPairs(texts[1..]) == Success(Flatten(tail)) by {
        assert WellFormed(tail) by {
          forall k | 0 <= k < |tail| ensures tail[k] == entries[k + 1] {}
        }
        PartsPairsOfEntries(tail);
        assert texts[1..] == EntryTexts(tail);
      }
      assert WellFormed([e]) by { assert [e][0] == entries[0]; }
      EntryTextParts(e);
      assert texts[0] == EntryText(e);
      PartsPairsStep(texts[0], texts[1..], e);
      assert texts == [texts[0]] + texts[1..];
      assert Flatten(entries) == IdPairs(e.id, e.positions) + Flatten(tail);
    }
  }

  /** The serialiser and the parser agree: parsing the descriptor of a map
      whose ids hold no `:` or `/` and whose positions are non-empty lists of
      `,`/`:`/`/`-free strings lists exactly its `(id, position)` pairs. */
  lemma {:induction false} DescriptorRoundTrip(entries: seq<OffsetEntry>)
    requires WellFormed(entries)
    ensures DescriptorPairs(SerializeOffsets(Some(entries))) == Success(Flatten(entries))
  {
    var texts := EntryTexts(entries);
    if |entries| > 0 {
      assert Free(texts, '/') by {
        forall k | 0 <= k < |texts| ensures '/' !in texts[k] {
          assert WellFormed([entries[k]]);
          EntryTextParts(entries[k]);
        }
      }
      SplitJoin(texts, '/');
      var d := Join(texts, '/');
      assert d != "" by {
        if |texts| == 1 {
          assert d == texts[0];
        } else {
          assert d == texts[0] + ['/'] + Join(texts[1..], '/');
        }
        assert |texts[0]| > 0 by { assert texts[0] == entries[0].id + ":" + Join(entries[0].positions, ','); }
      }
      PartsPairsOfEntries(entries);
    }
  }

  /** The descriptor `logAsUser` serialises from well-formed offsets, or
      from none, never makes the parser throw. */
  lemma SerializedDescriptorParses(offsets: Option<seq<OffsetEntry>>, message: string, emoteMap: map<string, string>)
    ensures (offsets.Some? ==> WellFormed(offsets.value)) ==>
            ParseMessageWithEmotes(message, SerializeOffsets(offsets), emoteMap).Success?
  {
    if offsets.Some? && WellFormed(offsets.value) {
      DescriptorRoundTrip(offsets.value);
    }
  }
}
