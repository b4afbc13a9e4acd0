/** The per-channel webhook cache of `webhooks.ts` (and its copy at the top
    of `DiscordBot.ts`): a cache hit returns at once; a miss first deletes
    same-named duplicates (keeping the oldest), then finds or creates the
    webhook, caches it and returns it; any error evicts the key and yields
    `null`. The channel's webhooks are the state the platform keeps; which
    platform calls fail is an input. */
module Webhooks {
  import opened Wrappers
  import opened Text

  datatype Webhook = Webhook(id: string, name: string, createdTimestamp: Option<nat>)

  /** A platform call, in the order made. */
  datatype Call = FetchWebhooks | DeleteWebhook(id: string) | CreateWebhook(name: string)

  /** What `createWebhook` gives when it succeeds. */
  datatype Creation = Creation(id: string, timestamp: nat)

  /** The platform's answers during one `getOrCreateWebhook` call. */
  datatype Script = Script(
    cleanupFetchFails: bool,   // the fetch inside `cleanupDuplicateWebhooks` rejects
    lookupFetchFails: bool,    // the second `fetchWebhooks` rejects
    undeletable: set<string>,  // ids whose `delete` rejects
    created: Option<Creation>) // `None` when `createWebhook` rejects

  type Cache = map<string, Webhook>

  /** `${guildId}-${channelId}`. */
  function CacheKey(guildId: string, channelId: string): string {
    guildId + "-" + channelId
  }

  /** Distinct channels have distinct keys as long as the ids hold no `-`
      (Discord ids are decimal numbers). */
  lemma CacheKeyInjective(g1: string, c1: string, g2: string, c2: string)
    requires '-' !in g1 && '-' !in c1 && '-' !in g2 && '-' !in c2
    ensures CacheKey(g1, c1) == CacheKey(g2, c2) <==> g1 == g2 && c1 == c2
  {
    assert Join([g1, c1], '-') == CacheKey(g1, c1);
    assert Join([g2, c2], '-') == CacheKey(g2, c2);
    SplitJoin([g1, c1], '-');
    SplitJoin([g2, c2], '-');
  }

  predicate UniqueIds(hooks: seq<Webhook>) {
    forall i, j :: 0 <= i < j < |hooks| ==> hooks[i].id != hooks[j].id
  }

  /** `webhooks.filter((wh) => wh.name === name)`. */
  function Named(hooks: seq<Webhook>, name: string): (r: seq<Webhook>)
    ensures forall w :: w in r <==> w in hooks && w.name == name
    ensures |r| <= |hooks|
  {
    if |hooks| == 0 then []
    else if hooks[0].name == name then [hooks[0]] + Named(hooks[1..], name)
    else Named(hooks[1..], name)
  }

  /** `webhooks.find((wh) => wh.name === name)`. */
  function FirstNamed(hooks: seq<Webhook>, name: string): (r: Option<Webhook>)
    ensures r.Some? ==> r.value in hooks && r.value.name == name
    ensures r.None? <==> forall w :: w in hooks ==> w.name != name
  {
    if |hooks| == 0 then None
    else if hooks[0].name == name then Some(hooks[0])
    else FirstNamed(hooks[1..], name)
  }

  // Keeping the oldest --------------------------------------------------------------

  /** `a.createdTimestamp || 0`. */
  function CreatedKey(w: Webhook): nat {
    w.createdTimestamp.GetOr(0)
  }

  predicate SortedByCreated(s: seq<Webhook>) {
    forall i, j :: 0 <= i < j < |s| ==> CreatedKey(s[i]) <= CreatedKey(s[j])
  }

  /** Inserts `x`, which preceded every element of `s` in the input, before
      the first element not older than it: equal timestamps keep their input
      order, as `Array.prototype.sort` does. */
  function Insert(x: Webhook, s: seq<Webhook>): (r: seq<Webhook>)
    ensures multiset(r) == multiset(s) + multiset{x}
    ensures |r| == |s| + 1
    ensures r[0] == (if |s| == 0 || CreatedKey(x) <= CreatedKey(s[0]) then x else s[0])
    decreases |s|
  {
    if |s| == 0 || CreatedKey(x) <= CreatedKey(s[0]) then [x] + s
    else
      var rest := Insert(x, s[1..]);
      assert s == [s[0]] + s[1..];
      [s[0]] + rest
  }

  /** A webhook not newer than any element of a sorted sequence may lead it. */
  lemma ConsSorted(h: Webhook, t: seq<Webhook>)
    requires SortedByCreated(t)
    requires forall y :: y in t ==> CreatedKey(h) <= CreatedKey(y)
    ensures SortedByCreated([h] + t)
  {
    var r := [h] + t;
    forall i, j | 0 <= i < j < |r| ensures CreatedKey(r[i]) <= CreatedKey(r[j]) {
      assert r[j] == t[j - 1];
      if i > 0 { assert r[i] == t[i - 1]; }
    }
  }

  /** The head of a sorted sequence is not newer than any element. */
  lemma HeadBound(s: seq<Webhook>)
    requires SortedByCreated(s) && |s| > 0
    ensures forall y :: y in s ==> CreatedKey(s[0]) <= CreatedKey(y)
    ensures SortedByCreated(s[1..])
  {
    forall y | y in s ensures CreatedKey(s[0]) <= CreatedKey(y) {
      var i :| 0 <= i < |s| && s[i] == y;
    }
    var tail := s[1..];
    forall i, j | 0 <= i < j < |tail| ensures CreatedKey(tail[i]) <= CreatedKey(tail[j]) {
      assert tail[i] == s[i + 1] && tail[j] == s[j + 1];
    }
  }

  /** Inserting into a sorted sequence keeps it sorted. */
  lemma {:induction false} InsertSorted(x: Webhook, s: seq<Webhook>)
    requires SortedByCreated(s)
    ensures SortedByCreated(Insert(x, s))
    decreases |s|
  {
    if |s| == 0 || CreatedKey(x) <= CreatedKey(s[0]) {
      if |s| > 0 {
        HeadBound(s);
      }
      ConsSorted(x, s);
    } else {
      var tail := s[1..];
      HeadBound(s);
      InsertSorted(x, tail);
      var rest := Insert(x, tail);
      forall y | y in rest ensures CreatedKey(s[0]) <= CreatedKey(y) {
        assert y in multiset(rest);
        assert y == x || y in multiset(tail);
      }
      ConsSorted(s[0], rest);
    }
  }

  function SortByCreated(s: seq<Webhook>): (r: seq<Webhook>)
    ensures SortedByCreated(r)
    ensures multiset(r) == multiset(s)
    ensures |r| == |s|
    decreases |s|
  {
    if |s| == 0 then []
    else
      assert s == [s[0]] + s[1..];
      var t := SortByCreated(s[1..]);
      InsertSorted(s[0], t);
      Insert(s[0], t)
  }

  /** The first of the oldest webhooks, independently of any sort. */
  function FirstOldest(s: seq<Webhook>): (r: Webhook)
    requires |s| > 0
    ensures r in s
    ensures forall w :: w in s ==> CreatedKey(r) <= CreatedKey(w)
    decreases |s|
  {
    if |s| == 1 then s[0]
    else
      var m := FirstOldest(s[1..]);
      if CreatedKey(s[0]) <= CreatedKey(m) then s[0] else m
  }

  /** The webhook the sort puts first is the first of the oldest. */
  lemma {:induction false} SortHead(s: seq<Webhook>)
    requires |s| > 0
    ensures SortByCreated(s)[0] == FirstOldest(s)
    decreases |s|
  {
    if |s| > 1 {
      SortHead(s[1..]);
    }
  }

  // cleanupDuplicateWebhooks --------------------------------------------------------

  datatype Cleaned = Cleaned(hooks: seq<Webhook>, cache: Cache, calls: seq<Call>)

  /** The channel's webhooks once the deletions that succeed are done. */
  function RemoveDeleted(hooks: seq<Webhook>, dups: seq<Webhook>, undeletable: set<string>): (r: seq<Webhook>)
    ensures forall w :: w in r <==> w in hooks && (w !in dups || w.id in undeletable)
    ensures |r| <= |hooks|
  {
    if |hooks| == 0 then []
    else if hooks[0] in dups && hooks[0].id !in undeletable then RemoveDeleted(hooks[1..], dups, undeletable)
    else [hooks[0]] + RemoveDeleted(hooks[1..], dups, undeletable)
  }

  function DeleteCalls(dups: seq<Webhook>): (r: seq<Call>)
    ensures |r| == |dups|
    ensures forall k :: 0 <= k < |dups| ==> r[k] == DeleteWebhook(dups[k].id)
    ensures forall x :: x in r ==> x.DeleteWebhook?
  {
    seq(|dups|, k requires 0 <= k < |dups| => DeleteWebhook(dups[k].id))
  }

  /** All same-named webhooks but the oldest are deleted (a failed delete is
      only logged) and the oldest is cached; a failed fetch is swallowed. */
  function Cleanup(hooks: seq<Webhook>, name: string, key: string, cache: Cache, script: Script): (c: Cleaned)
    ensures forall k :: k != key ==> (k in c.cache <==> k in cache) && (k in cache ==> c.cache[k] == cache[k])
    ensures forall w :: w in c.hooks ==> w in hooks
    ensures forall w :: w in hooks && w.name != name ==> w in c.hooks
    ensures forall x :: x in c.calls ==> !x.CreateWebhook?
  {
    if script.cleanupFetchFails then Cleaned(hooks, cache, [FetchWebhooks])
    else
      var matching := Named(hooks, name);
      if |matching| <= 1 then Cleaned(hooks, cache, [FetchWebhooks])
      else
        var sorted := SortByCreated(matching);
        var dups := sorted[1..];
        SortedNamed(hooks, name);
        var calls := [FetchWebhooks] + DeleteCalls(dups);
        assert forall x :: x in calls ==> x == FetchWebhooks || x in DeleteCalls(dups);
        Cleaned(RemoveDeleted(hooks, dups, script.undeletable), cache[key := sorted[0]], calls)
  }

  /** Sorting the webhooks of one name keeps only webhooks of that name. */
  lemma SortedNamed(hooks: seq<Webhook>, name: string)
    ensures forall w :: w in SortByCreated(Named(hooks, name)) ==> w in hooks && w.name == name
  {
    var matching := Named(hooks, name);
    var sorted := SortByCreated(matching);
    forall w | w in sorted ensures w in hooks && w.name == name {
      assert w in multiset(sorted);
      assert w in multiset(matching);
    }
  }

  /** With unique ids, cleanup never removes the last webhook of the name:
      the oldest one survives. */
  lemma CleanupKeepsOne(hooks: seq<Webhook>, name: string, key: string, cache: Cache, script: Script)
    requires UniqueIds(hooks)
    requires Named(hooks, name) != []
    ensures Named(Cleanup(hooks, name, key, cache, script).hooks, name) != []
  {
    var c := Cleanup(hooks, name, key, cache, script);
    var matching := Named(hooks, name);
    var w: Webhook;
    if !script.cleanupFetchFails && |matching| > 1 {
      w := SortByCreated(matching)[0];
      KeepSurvives(hooks, name);
      assert w in multiset(matching);
    } else {
      w := matching[0];
      assert w in matching;
    }
    assert w in c.hooks && w.name == name;
    assert w in Named(c.hooks, name);
  }

  /** With unique ids, a webhook of the list is determined by its id. */
  lemma SameIdSame(hooks: seq<Webhook>, a: Webhook, b: Webhook)
    requires UniqueIds(hooks) && a in hooks && b in hooks && a.id == b.id
    ensures a == b
  {
    var i :| 0 <= i < |hooks| && hooks[i] == a;
    var j :| 0 <= j < |hooks| && hooks[j] == b;
    assert i == j;
  }

  /** The deletes issued for the tail of a list of webhooks with distinct
      ids name exactly the tail's webhooks. */
  lemma DeletesOfTail(hooks: seq<Webhook>, sorted: seq<Webhook>, w: Webhook)
    requires UniqueIds(hooks) && w in hooks
    requires |sorted| > 0 && sorted[0] !in sorted[1..]
    requires forall x :: x in sorted ==> x in hooks
    ensures DeleteWebhook(w.id) in DeleteCalls(sorted[1..]) <==> w in sorted && w != sorted[0]
  {
    var dups := sorted[1..];
    assert sorted == [sorted[0]] + dups;
    if DeleteWebhook(w.id) in DeleteCalls(dups) {
      var k :| 0 <= k < |dups| && DeleteCalls(dups)[k] == DeleteWebhook(w.id);
      assert dups[k] in sorted;
      SameIdSame(hooks, dups[k], w);
    }
    if w in sorted && w != sorted[0] {
      assert w in dups;
      var k :| 0 <= k < |dups| && dups[k] == w;
      assert DeleteCalls(dups)[k] == DeleteWebhook(w.id);
    }
  }

  /** When the fetch succeeds and several webhooks share the name, a delete
      is issued for exactly those of the name other than the cached oldest
      one, and for no webhook of another name. */
  lemma CleanupDeletesDuplicates(hooks: seq<Webhook>, name: string, key: string, cache: Cache, script: Script)
    requires UniqueIds(hooks)
    requires !script.cleanupFetchFails && |Named(hooks, name)| > 1
    ensures var c := Cleanup(hooks, name, key, cache, script);
            && key in c.cache && c.cache[key] in hooks && c.cache[key].name == name
            && (forall w :: w in hooks && w.name == name ==> (DeleteWebhook(w.id) in c.calls <==> w != c.cache[key]))
            && (forall w :: w in hooks && w.name != name ==> DeleteWebhook(w.id) !in c.calls)
  {
    var c := Cleanup(hooks, name, key, cache, script);
    var matching := Named(hooks, name);
    var sorted := SortByCreated(matching);
    SortedNamed(hooks, name);
    KeepSurvives(hooks, name);
    assert c.calls == [FetchWebhooks] + DeleteCalls(sorted[1..]);
    assert c.cache[key] == sorted[0] && sorted[0] in sorted;
    forall w | w in hooks
      ensures DeleteWebhook(w.id) in c.calls <==> w.name == name && w != sorted[0]
    {
      DeletesOfTail(hooks, sorted, w);
      assert w in sorted <==> w in multiset(matching);
    }
  }

  /** With unique ids, the kept webhook is not among the duplicates. */
  lemma KeepSurvives(hooks: seq<Webhook>, name: string)
    requires UniqueIds(hooks)
    requires |Named(hooks, name)| > 1
    ensures SortByCreated(Named(hooks, name))[0] !in SortByCreated(Named(hooks, name))[1..]
  {
    var matching := Named(hooks, name);
    var sorted := SortByCreated(matching);
    assert sorted == [sorted[0]] + sorted[1..];
    UniqueNamed(hooks, name);
    DistinctCount(matching, sorted[0]);
    assert multiset(sorted) == multiset{sorted[0]} + multiset(sorted[1..]);
  }

  /** Dropping the first webhook keeps the ids distinct, and no later
      webhook shares the first one's id. */
  lemma UniqueTail(s: seq<Webhook>)
    requires UniqueIds(s) && |s| > 0
    ensures UniqueIds(s[1..])
    ensures forall w :: w in s[1..] ==> w.id != s[0].id
  {
    var tail := s[1..];
    forall i, j | 0 <= i < j < |tail| ensures tail[i].id != tail[j].id {
      assert tail[i] == s[i + 1] && tail[j] == s[j + 1];
    }
    forall w | w in tail ensures w.id != s[0].id {
      var j :| 0 <= j < |tail| && tail[j] == w;
      assert tail[j] == s[j + 1];
    }
  }

  /** Putting a webhook with a fresh id in front keeps the ids distinct. */
  lemma UniqueCons(h: Webhook, t: seq<Webhook>)
    requires UniqueIds(t)
    requires forall w :: w in t ==> w.id != h.id
    ensures UniqueIds([h] + t)
  {
    var r := [h] + t;
    forall i, j | 0 <= i < j < |r| ensures r[i].id != r[j].id {
      assert r[j] == t[j - 1];
      if i == 0 {
        assert t[j - 1] in t;
      } else {
        assert r[i] == t[i - 1];
      }
    }
  }

  lemma {:induction false} UniqueNamed(hooks: seq<Webhook>, name: string)
    requires UniqueIds(hooks)
    ensures UniqueIds(Named(hooks, name))
    decreases |hooks|
  {
    if |hooks| > 0 {
      UniqueTail(hooks);
      UniqueNamed(hooks[1..], name);
      if hooks[0].name == name {
        UniqueCons(hooks[0], Named(hooks[1..], name));
      }
    }
  }

  lemma {:induction false} DistinctCount(s: seq<Webhook>, x: Webhook)
    requires UniqueIds(s)
    ensures multiset(s)[x] <= 1
    decreases |s|
  {
    if |s| > 0 {
      assert s == [s[0]] + s[1..];
      UniqueTail(s);
      DistinctCount(s[1..], x);
    }
  }

  // getOrCreateWebhook --------------------------------------------------------------

  datatype Outcome = Outcome(webhook: Option<Webhook>, cache: Cache, hooks: seq<Webhook>, calls: seq<Call>)

  function GetOrCreateWebhook(
    cache: Cache, guildId: string, channelId: string, hooks: seq<Webhook>, name: string, script: Script
  ): (r: Outcome)
    ensures CacheKey(guildId, channelId) in cache ==>
              r == Outcome(Some(cache[CacheKey(guildId, channelId)]), cache, hooks, [])
    ensures r.webhook.None? ==> CacheKey(guildId, channelId) !in r.cache
    ensures r.webhook.Some? ==>
              CacheKey(guildId, channelId) in r.cache && r.cache[CacheKey(guildId, channelId)] == r.webhook.value
    ensures CacheKey(guildId, channelId) !in cache && r.webhook.Some? ==>
              r.webhook.value.name == name && r.webhook.value in r.hooks
    ensures forall k :: k != CacheKey(guildId, channelId) ==>
              (k in r.cache <==> k in cache) && (k in cache ==> r.cache[k] == cache[k])
  {
    var key := CacheKey(guildId, channelId);
    if key in cache then Outcome(Some(cache[key]), cache, hooks, [])
    else
      var c := Cleanup(hooks, name, key, cache, script);
      var calls := c.calls + [FetchWebhooks];
      if script.lookupFetchFails then Outcome(None, c.cache - {key}, c.hooks, calls)
      else
        match FirstNamed(c.hooks, name)
        case Some(w) => Outcome(Some(w), c.cache[key := w], c.hooks, calls)
        case None =>
          match script.created
          case None => Outcome(None, c.cache - {key}, c.hooks, calls + [CreateWebhook(name)])
          case Some(cr) =>
            var w := Webhook(cr.id, name, Some(cr.timestamp));
            Outcome(Some(w), c.cache[key := w], c.hooks + [w], calls + [CreateWebhook(name)])
  }

  /** A webhook is created only when the channel holds none of that name:
      when one exists and the lookup succeeds, an existing one is returned
      and no creation is attempted. */
  lemma CreateOnlyWhenAbsent(cache: Cache, guildId: string, channelId: string, hooks: seq<Webhook>, name: string, script: Script)
    requires CacheKey(guildId, channelId) !in cache && !script.lookupFetchFails
    requires UniqueIds(hooks) && Named(hooks, name) != []
    ensures var r := GetOrCreateWebhook(cache, guildId, channelId, hooks, name, script);
            r.webhook.Some? && r.webhook.value in hooks && CreateWebhook(name) !in r.calls
  {
    var key := CacheKey(guildId, channelId);
    var c := Cleanup(hooks, name, key, cache, script);
    CleanupKeepsOne(hooks, name, key, cache, script);
    var found := FirstNamed(c.hooks, name);
    assert found.Some? by {
      assert Named(c.hooks, name)[0] in Named(c.hooks, name);
    }
    var r := GetOrCreateWebhook(cache, guildId, channelId, hooks, name, script);
    assert r == Outcome(found, c.cache[key := found.value], c.hooks, c.calls + [FetchWebhooks]);
    assert CreateWebhook(name) !in c.calls;
  }

  /** Every failure evicts the key and returns nothing: a failing lookup, or
      no webhook of that name and a failing creation. */
  lemma FailureEvicts(cache: Cache, guildId: string, channelId: string, hooks: seq<Webhook>, name: string, script: Script)
    requires CacheKey(guildId, channelId) !in cache
    requires script.lookupFetchFails || (Named(hooks, name) == [] && script.created.None?)
    ensures var r := GetOrCreateWebhook(cache, guildId, channelId, hooks, name, script);
            r.webhook.None? && CacheKey(guildId, channelId) !in r.cache
  {
    var c := Cleanup(hooks, name, CacheKey(guildId, channelId), cache, script);
    if !script.lookupFetchFails {
      assert forall w :: w in c.hooks ==> w.name != name by {
        forall w | w in c.hooks ensures w.name != name {
          assert w in hooks && w !in Named(hooks, name);
        }
      }
    }
  }

  /** A failure during cleanup is swallowed: it never makes the call fail. */
  lemma CleanupFailureSwallowed(cache: Cache, guildId: string, channelId: string, hooks: seq<Webhook>, name: string, script: Script)
    requires script.cleanupFetchFails && !script.lookupFetchFails && script.created.Some?
    ensures GetOrCreateWebhook(cache, guildId, channelId, hooks, name, script).webhook.Some?
  {
  }

  /** When every fetch and delete succeeds and the channel already holds
      webhooks of that name, the oldest one (the first among equals) is the
      only one left, and it is returned and cached. */
  lemma OldestKept(cache: Cache, guildId: string, channelId: string, hooks: seq<Webhook>, name: string, script: Script)
    requires CacheKey(guildId, channelId) !in cache
    requires !script.cleanupFetchFails && !script.lookupFetchFails && script.undeletable == {}
    requires UniqueIds(hooks) && Named(hooks, name) != []
    ensures var r := GetOrCreateWebhook(cache, guildId, channelId, hooks, name, script);
            var oldest := FirstOldest(Named(hooks, name));
            && r.webhook == Some(oldest)
            && r.cache[CacheKey(guildId, channelId)] == oldest
            && forall w :: w in r.hooks && w.name == name ==> w == oldest
  {
    var key := CacheKey(guildId, channelId);
    var c := Cleanup(hooks, name, key, cache, script);
    var oldest := FirstOldest(Named(hooks, name));
    CleanupLeavesOldest(hooks, name, key, cache, script);
    CleanupKeepsOne(hooks, name, key, cache, script);
    var found := FirstNamed(c.hooks, name);
    assert found.Some? by {
      assert Named(c.hooks, name)[0] in Named(c.hooks, name);
    }
    assert found.value == oldest;
  }

  /** After a clean run of the cleanup every webhook of the name is the
      oldest one. */
  lemma CleanupLeavesOldest(hooks: seq<Webhook>, name: string, key: string, cache: Cache, script: Script)
    requires !script.cleanupFetchFails && script.undeletable == {}
    requires UniqueIds(hooks) && Named(hooks, name) != []
    ensures forall w :: w in Cleanup(hooks, name, key, cache, script).hooks && w.name == name ==>
              w == FirstOldest(Named(hooks, name))
  {
    var matching := Named(hooks, name);
    var c := Cleanup(hooks, name, key, cache, script);
    SortHead(matching);
    if |matching| > 1 {
      var sorted := SortByCreated(matching);
      KeepSurvives(hooks, name);
      assert sorted == [sorted[0]] + sorted[1..];
      forall w | w in c.hooks && w.name == name ensures w == sorted[0] {
        assert w in matching;
        assert w in multiset(sorted);
        assert w !in sorted[1..];
      }
    } else {
      forall w | w in c.hooks && w.name == name ensures w == matching[0] {
        assert w in matching;
      }
    }
  }

  /** The copy in `DiscordBot.ts` behaves alike: a cache hit makes no
      platform call, and a miss always ends with a lookup fetch. */
  lemma CacheHitMakesNoCall(cache: Cache, guildId: string, channelId: string, hooks: seq<Webhook>, name: string, script: Script)
    ensures var r := GetOrCreateWebhook(cache, guildId, channelId, hooks, name, script);
            (r.calls == [] <==> CacheKey(guildId, channelId) in cache)
  {
  }
}
