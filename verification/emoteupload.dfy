/** `loadEmotes`: de-duplicate the parsed emote links by name (first one
    wins), upload as application emojis those whose 32-character name no
    existing emoji carries, retry once on the two error codes the source
    knows, and assemble one `(emoteName, emoji)` per resolved emote.
    Two revisions exist: `Emotes.ts` retries on 50035 and 50138, the copy
    local to `logAsUser.ts` only on 50035. The Discord API is an input:
    `upload` answers each `emojis.create` call. */
module EmoteUpload {
  import opened Wrappers
  import opened Text
  import opened Emojis
  import opened EmoteParse

  /** Discord's "Invalid Form Body". */
  const InvalidFormBody: int := 50035
  /** Discord's "Unable to resize asset below the maximum size". */
  const AssetTooLarge: int := 50138

  datatype Revision = EmotesModule | LogAsUserCopy

  /** One `client.application?.emojis.create({ name, attachment })` call. */
  datatype UploadCall = UploadCall(name: string, attachment: string)

  /** What a call gives: an emoji, `undefined` (no application), or a
      rejection carrying `err.rawError?.code`. */
  datatype CreateOutcome = Created(emoji: Emoji) | NoApplication | Thrown(code: Option<int>)

  /** The API's answer to a call; the flag says whether it is the retry. */
  type Uploader = (UploadCall, bool) -> CreateOutcome

  datatype Resolved = Resolved(emoteName: string, emoji: Emoji)

  /** One emote's upload: its outcome (a failure is a rejection that escapes
      the `catch`) and the calls made, in order. */
  datatype Attempt = Attempt(outcome: Result<Option<Emoji>>, calls: seq<UploadCall>)

  /** The whole of `loadEmotes`: its result (a failure is the rejection of
      `Promise.all`) and every upload call made. */
  datatype Load = Load(result: Result<seq<Resolved>>, calls: seq<UploadCall>)

  /** `emoteName.slice(0, 32)`. */
  function EmojiName(emoteName: string): (r: string)
    ensures |r| == (if |emoteName| <= 32 then |emoteName| else 32)
    ensures r == emoteName[..|r|]
  {
    Slice(emoteName, 0, 32)
  }

  predicate EndsWith(s: string, suffix: string) {
    |suffix| <= |s| && s[|s| - |suffix|..] == suffix
  }

  /** `s.replace(/suffix$/, rep)`. */
  function ReplaceSuffix(s: string, suffix: string, rep: string): (r: string)
    ensures EndsWith(s, suffix) ==> r == s[..|s| - |suffix|] + rep && EndsWith(r, rep)
    ensures !EndsWith(s, suffix) ==> r == s
  {
    if EndsWith(s, suffix) then s[..|s| - |suffix|] + rep else s
  }

  /** The attachment of the single retry the `catch` block makes, if any. */
  function RetryAttachment(rev: Revision, code: Option<int>, link: string): Option<string> {
    if code == Some(InvalidFormBody) then Some(ReplaceSuffix(link, ".gif", ".webp"))
    else if code == Some(AssetTooLarge) && rev == EmotesModule then Some(ReplaceSuffix(link, "3.0", "2.0"))
    else None
  }

  function Materialize(rev: Revision, upload: Uploader, e: EmoteLink): (a: Attempt)
    ensures 1 <= |a.calls| <= 2
    ensures forall c :: c in a.calls ==> c.name == EmojiName(e.emoteName)
    ensures a.calls[0] == UploadCall(EmojiName(e.emoteName), e.link)
    ensures a.outcome.Failure? ==> |a.calls| == 2
  {
    var first := UploadCall(EmojiName(e.emoteName), e.link);
    match upload(first, false)
    case Created(x) => Attempt(Success(Some(x)), [first])
    case NoApplication => Attempt(Success(None), [first])
    case Thrown(code) =>
      match RetryAttachment(rev, code, e.link)
      case None => Attempt(Success(None), [first])
      case Some(url) =>
        var second := UploadCall(EmojiName(e.emoteName), url);
        match upload(second, true)
        case Created(x) => Attempt(Success(Some(x)), [first, second])
        case NoApplication => Attempt(Success(None), [first, second])
        case Thrown(_) => Attempt(Failure("emoji upload rejected twice"), [first, second])
  }

  // De-duplication -------------------------------------------------------------------

  function NameSet(links: seq<EmoteLink>): set<string> {
    set e | e in links :: e.emoteName
  }

  predicate DistinctNames(links: seq<EmoteLink>) {
    forall i, j :: 0 <= i < j < |links| ==> links[i].emoteName != links[j].emoteName
  }

  /** The first link of the given name. */
  function FirstNamed(links: seq<EmoteLink>, name: string): (r: Option<EmoteLink>)
    ensures r.Some? ==> r.value in links && r.value.emoteName == name
    ensures r.None? ==> forall e :: e in links ==> e.emoteName != name
  {
    if |links| == 0 then None
    else if links[0].emoteName == name then Some(links[0])
    else FirstNamed(links[1..], name)
  }

  predicate IsSubsequence<T(==)>(a: seq<T>, b: seq<T>)
    decreases |b|
  {
    |a| == 0 || (|b| > 0 && ((a[0] == b[0] && IsSubsequence(a[1..], b[1..])) || IsSubsequence(a, b[1..])))
  }

  lemma {:induction false} SubsequenceMembers<T>(a: seq<T>, b: seq<T>)
    requires IsSubsequence(a, b)
    ensures forall x :: x in a ==> x in b
    decreases |b|
  {
    if |a| > 0 && |b| > 0 {
      if a[0] == b[0] && IsSubsequence(a[1..], b[1..]) {
        SubsequenceMembers(a[1..], b[1..]);
        assert a == [a[0]] + a[1..];
        assert b == [b[0]] + b[1..];
      } else {
        SubsequenceMembers(a, b[1..]);
        assert b == [b[0]] + b[1..];
      }
    }
  }

  /** The `uniqueEmotes` map's values: the first link of each name, in order
      of first occurrence; `seen` holds the names already taken. */
  function UniqueFrom(links: seq<EmoteLink>, seen: set<string>): (r: seq<EmoteLink>)
    ensures DistinctNames(r)
    ensures IsSubsequence(r, links)
    ensures forall k :: 0 <= k < |r| ==> r[k].emoteName !in seen && FirstNamed(links, r[k].emoteName) == Some(r[k])
    ensures forall e :: e in links ==> e.emoteName in seen || e.emoteName in NameSet(r)
    decreases |links|
  {
    if |links| == 0 then []
    else if links[0].emoteName in seen then
      UniqueFrom(links[1..], seen)
    else
      var rest := UniqueFrom(links[1..], seen + {links[0].emoteName});
      var r := [links[0]] + rest;
      assert r[1..] == rest;
      assert forall k :: 1 <= k < |r| ==> r[k] == rest[k - 1];
      assert forall e :: e in links ==> e == links[0] || e in links[1..];
      r
  }

  function UniqueByName(links: seq<EmoteLink>): (r: seq<EmoteLink>)
    ensures DistinctNames(r)
    ensures IsSubsequence(r, links)
    ensures forall k :: 0 <= k < |r| ==> FirstNamed(links, r[k].emoteName) == Some(r[k])
    ensures NameSet(r) == NameSet(links)
  {
    var r := UniqueFrom(links, {});
    SubsequenceMembers(r, links);
    r
  }

  // Assembly -------------------------------------------------------------------------

  function ResolvedNames(rs: seq<Resolved>): (r: seq<string>)
    ensures |r| == |rs|
    ensures forall k :: 0 <= k < |rs| ==> r[k] == rs[k].emoteName
  {
    seq(|rs|, k requires 0 <= k < |rs| => rs[k].emoteName)
  }

  /** The emoji the result pairs with `name`, if any. */
  function Lookup(rs: seq<Resolved>, name: string): Option<Emoji> {
    if |rs| == 0 then None
    else if rs[0].emoteName == name then Some(rs[0].emoji)
    else Lookup(rs[1..], name)
  }

  /** What one unique emote should resolve to: the existing emoji that
      carries its 32-character name, else what its own upload produced. */
  function Expected(rev: Revision, upload: Uploader, existing: seq<Emoji>, e: EmoteLink): Option<Emoji> {
    match FindByName(existing, EmojiName(e.emoteName))
    case Some(x) => Some(x)
    case None =>
      var a := Materialize(rev, upload, e);
      if a.outcome.Success? then a.outcome.value else None
  }

  /** Whether an emote needs an upload, and that upload failed outright. */
  predicate UploadFails(rev: Revision, upload: Uploader, existing: seq<Emoji>, e: EmoteLink) {
    FindByName(existing, EmojiName(e.emoteName)).None? && Materialize(rev, upload, e).outcome.Failure?
  }

  /** The promise `Promise.all` maps one unique emote to: the existing emoji,
      or an upload. */
  function Step(rev: Revision, upload: Uploader, existing: seq<Emoji>, e: EmoteLink): (a: Attempt)
    ensures a.outcome.Failure? <==> UploadFails(rev, upload, existing, e)
    ensures a.outcome.Success? ==> a.outcome.value == Expected(rev, upload, existing, e)
    ensures FindByName(existing, EmojiName(e.emoteName)).Some? ==> a.calls == []
  {
    match FindByName(existing, EmojiName(e.emoteName))
    case Some(x) => Attempt(Success(Some(x)), [])
    case None => Materialize(rev, upload, e)
  }

  /** `Promise.all` followed by `filter(Boolean)`: one promise's value joins
      the rest, a rejection rejects the whole. */
  function Combine(name: string, o: Result<Option<Emoji>>, rest: Result<seq<Resolved>>): Result<seq<Resolved>> {
    if o.Failure? then Failure(o.error)
    else if rest.Failure? then rest
    else if o.value.Some? then Success([Resolved(name, o.value.value)] + rest.value)
    else rest
  }

  function Assemble(rev: Revision, upload: Uploader, existing: seq<Emoji>, unique: seq<EmoteLink>): (r: Load)
    ensures forall c :: c in r.calls ==>
              exists k :: 0 <= k < |unique| && c.name == EmojiName(unique[k].emoteName) &&
                          FindByName(existing, EmojiName(unique[k].emoteName)).None?
    decreases |unique|
  {
    if |unique| == 0 then Load(Success([]), [])
    else
      var a := Step(rev, upload, existing, unique[0]);
      var rest := Assemble(rev, upload, existing, unique[1..]);
      assert forall k :: 1 <= k < |unique| ==> unique[k] == unique[1..][k - 1];
      assert forall c :: c in a.calls + rest.calls ==> c in a.calls || c in rest.calls;
      Load(Combine(unique[0].emoteName, a.outcome, rest.result), a.calls + rest.calls)
  }

  /** `loadEmotes(links)` with the application's existing emojis as fetched.
      An upload is attempted only for an emote whose 32-character name no
      existing emoji carries, and it is made under that truncated name. */
  function LoadEmotes(rev: Revision, upload: Uploader, existing: seq<Emoji>, links: seq<EmoteLink>): (r: Load)
    ensures forall c :: c in r.calls ==>
              exists e :: e in links && c.name == EmojiName(e.emoteName) &&
                          forall x :: x in existing ==> x.name != EmojiName(e.emoteName)
  {
    var u := UniqueByName(links);
    var r := Assemble(rev, upload, existing, u);
    SubsequenceMembers(u, links);
    forall c | c in r.calls
      ensures exists e :: e in links && c.name == EmojiName(e.emoteName) &&
                          forall x :: x in existing ==> x.name != EmojiName(e.emoteName)
    {
      var k :| 0 <= k < |u| && c.name == EmojiName(u[k].emoteName) &&
               FindByName(existing, EmojiName(u[k].emoteName)).None?;
      assert u[k] in u;
    }
    r
  }

  // Properties of the assembly -------------------------------------------------------

  /** The whole load rejects exactly when some emote's upload and its retry
      both reject. */
  lemma {:induction false} AssembleFails(rev: Revision, upload: Uploader, existing: seq<Emoji>, unique: seq<EmoteLink>)
    ensures (Assemble(rev, upload, existing, unique).result.Failure? <==>
             exists k :: 0 <= k < |unique| && UploadFails(rev, upload, existing, unique[k]))
    decreases |unique|
  {
    if |unique| > 0 {
      AssembleFails(rev, upload, existing, unique[1..]);
      assert forall k :: 1 <= k < |unique| ==> unique[k] == unique[1..][k - 1];
      if exists k :: 1 <= k < |unique| && UploadFails(rev, upload, existing, unique[k]) {
        var k :| 1 <= k < |unique| && UploadFails(rev, upload, existing, unique[k]);
        assert UploadFails(rev, upload, existing, unique[1..][k - 1]);
      }
    }
  }

  /** The resolved names appear in the order of the unique emotes. */
  lemma {:induction false} AssembleOrder(rev: Revision, upload: Uploader, existing: seq<Emoji>, unique: seq<EmoteLink>)
    ensures var r := Assemble(rev, upload, existing, unique).result;
            r.Success? ==> IsSubsequence(ResolvedNames(r.value), Names(unique))
    decreases |unique|
  {
    var r := Assemble(rev, upload, existing, unique).result;
    if |unique| > 0 && r.Success? {
      AssembleOrder(rev, upload, existing, unique[1..]);
      var rest := Assemble(rev, upload, existing, unique[1..]).result;
      var ns := Names(unique);
      assert ns[1..] == Names(unique[1..]);
      var o := Step(rev, upload, existing, unique[0]).outcome;
      if o.value.Some? {
        assert ResolvedNames(r.value)[1..] == ResolvedNames(rest.value);
      }
    }
  }

  lemma {:induction false} LookupAbsent(rs: seq<Resolved>, name: string)
    requires name !in ResolvedNames(rs)
    ensures Lookup(rs, name).None?
    decreases |rs|
  {
    if |rs| > 0 {
      assert ResolvedNames(rs)[0] == rs[0].emoteName;
      assert ResolvedNames(rs[1..]) == ResolvedNames(rs)[1..];
      LookupAbsent(rs[1..], name);
    }
  }

  /** Each unique emote's name looks up exactly what that emote resolves to
      on its own: the other emotes do not interfere. */
  lemma {:induction false} AssembleLookup(rev: Revision, upload: Uploader, existing: seq<Emoji>, unique: seq<EmoteLink>)
    requires DistinctNames(unique)
    ensures var r := Assemble(rev, upload, existing, unique).result;
            r.Success? ==> forall k :: 0 <= k < |unique| ==>
              Lookup(r.value, unique[k].emoteName) == Expected(rev, upload, existing, unique[k])
    decreases |unique|
  {
    var r := Assemble(rev, upload, existing, unique).result;
    if |unique| > 0 && r.Success? {
      var tail := unique[1..];
      assert forall k :: 1 <= k < |unique| ==> unique[k] == tail[k - 1];
      assert DistinctNames(tail);
      AssembleLookup(rev, upload, existing, tail);
      AssembleOrder(rev, upload, existing, tail);
      var rest := Assemble(rev, upload, existing, tail).result;
      var o := Step(rev, upload, existing, unique[0]).outcome;
      var n := unique[0].emoteName;
      forall k | 0 <= k < |unique|
        ensures Lookup(r.value, unique[k].emoteName) == Expected(rev, upload, existing, unique[k])
      {
        if k == 0 {
          if o.value.None? {
            SubsequenceMembers(ResolvedNames(rest.value), Names(tail));
            assert n !in Names(tail);
            LookupAbsent(rest.value, n);
          }
        } else {
          assert unique[k].emoteName != n;
          assert Lookup(r.value, unique[k].emoteName) == Lookup(rest.value, tail[k - 1].emoteName);
        }
      }
    }
  }

  lemma {:induction false} SubsequenceDistinct(a: seq<string>, b: seq<string>)
    requires IsSubsequence(a, b)
    requires forall i, j :: 0 <= i < j < |b| ==> b[i] != b[j]
    ensures forall i, j :: 0 <= i < j < |a| ==> a[i] != a[j]
    decreases |b|
  {
    if |a| > 0 && |b| > 0 {
      assert forall i, j :: 0 <= i < j < |b| - 1 ==> b[1..][i] != b[1..][j];
      if a[0] == b[0] && IsSubsequence(a[1..], b[1..]) {
        SubsequenceDistinct(a[1..], b[1..]);
        SubsequenceMembers(a[1..], b[1..]);
        forall j | 0 < j < |a| ensures a[0] != a[j] {
          assert a[1..][j - 1] == a[j];
          assert a[j] in b[1..];
        }
        assert forall i, j :: 1 <= i < j < |a| ==> a[1..][i - 1] == a[i] && a[1..][j - 1] == a[j];
      } else {
        SubsequenceDistinct(a, b[1..]);
      }
    }
  }

  // Properties of loadEmotes ----------------------------------------------------------

  /** The unique emotes are exactly the first link of each name. */
  lemma UniqueAreFirstNamed(links: seq<EmoteLink>)
    ensures forall e :: e in UniqueByName(links) <==> e in links && FirstNamed(links, e.emoteName) == Some(e)
  {
    var u := UniqueByName(links);
    SubsequenceMembers(u, links);
    forall e | e in links && FirstNamed(links, e.emoteName) == Some(e)
      ensures e in u
    {
      assert e.emoteName in NameSet(links);
      var k :| 0 <= k < |u| && u[k].emoteName == e.emoteName;
      assert u[k] == e;
    }
  }

  /** The load rejects exactly when the upload of one name's first
      occurrence fails twice. */
  lemma LoadFails(rev: Revision, upload: Uploader, existing: seq<Emoji>, links: seq<EmoteLink>)
    ensures LoadEmotes(rev, upload, existing, links).result.Failure? <==>
            exists e :: e in links && FirstNamed(links, e.emoteName) == Some(e) && UploadFails(rev, upload, existing, e)
  {
    var u := UniqueByName(links);
    AssembleFails(rev, upload, existing, u);
    UniqueAreFirstNamed(links);
    assert (exists k :: 0 <= k < |u| && UploadFails(rev, upload, existing, u[k])) <==>
           (exists e :: e in u && UploadFails(rev, upload, existing, e));
  }

  /** A successful load holds at most one entry per emote name, in order of
      first occurrence, and each name's entry is the pre-existing emoji
      carrying its 32-character prefix when there is one, else its own
      upload. */
  lemma LoadResult(rev: Revision, upload: Uploader, existing: seq<Emoji>, links: seq<EmoteLink>)
    ensures var r := LoadEmotes(rev, upload, existing, links).result;
            r.Success? ==>
              && (forall i, j :: 0 <= i < j < |r.value| ==> r.value[i].emoteName != r.value[j].emoteName)
              && IsSubsequence(ResolvedNames(r.value), Names(UniqueByName(links)))
              && forall e :: e in links && FirstNamed(links, e.emoteName) == Some(e) ==>
                   Lookup(r.value, e.emoteName) == Expected(rev, upload, existing, e)
  {
    var u := UniqueByName(links);
    var a := Assemble(rev, upload, existing, u);
    assert LoadEmotes(rev, upload, existing, links).result == a.result;
    if a.result.Success? {
      AssembleOrder(rev, upload, existing, u);
      AssembleLookup(rev, upload, existing, u);
      DistinctResolved(a.result.value, u);
      FirstNamedLookup(a.result.value, links, rev, upload, existing);
    }
  }

  /** Entries whose names follow distinct names in order have distinct names. */
  lemma DistinctResolved(rs: seq<Resolved>, u: seq<EmoteLink>)
    requires DistinctNames(u) && IsSubsequence(ResolvedNames(rs), Names(u))
    ensures forall i, j :: 0 <= i < j < |rs| ==> rs[i].emoteName != rs[j].emoteName
  {
    assert forall i, j :: 0 <= i < j < |u| ==> Names(u)[i] != Names(u)[j];
    SubsequenceDistinct(ResolvedNames(rs), Names(u));
    assert forall i, j :: 0 <= i < j < |rs| ==> ResolvedNames(rs)[i] != ResolvedNames(rs)[j];
  }

  /** What holds for every de-duplicated emote holds for every first link of
      a name. */
  lemma FirstNamedLookup(rs: seq<Resolved>, links: seq<EmoteLink>, rev: Revision, upload: Uploader, existing: seq<Emoji>)
    requires var u := UniqueByName(links);
             forall k :: 0 <= k < |u| ==> Lookup(rs, u[k].emoteName) == Expected(rev, upload, existing, u[k])
    ensures forall e :: e in links && FirstNamed(links, e.emoteName) == Some(e) ==>
              Lookup(rs, e.emoteName) == Expected(rev, upload, existing, e)
  {
    var u := UniqueByName(links);
    forall e | e in links && FirstNamed(links, e.emoteName) == Some(e)
      ensures Lookup(rs, e.emoteName) == Expected(rev, upload, existing, e)
    {
      assert e.emoteName in NameSet(links);
      var k :| 0 <= k < |u| && u[k].emoteName == e.emoteName;
      assert u[k] == e;
    }
  }

  /** Error 50035 makes exactly one retry, with a trailing `.gif` turned into
      `.webp`. */
  lemma RetryOnInvalidForm(rev: Revision, upload: Uploader, e: EmoteLink)
    requires upload(UploadCall(EmojiName(e.emoteName), e.link), false) == Thrown(Some(InvalidFormBody))
    ensures Materialize(rev, upload, e).calls
              == [UploadCall(EmojiName(e.emoteName), e.link),
                  UploadCall(EmojiName(e.emoteName), ReplaceSuffix(e.link, ".gif", ".webp"))]
  {
  }

  /** Error 50138 makes exactly one retry, with a trailing `3.0` turned into
      `2.0`, in `Emotes.ts`; the copy in `logAsUser.ts` gives up. */
  lemma RetryOnAssetTooLarge(upload: Uploader, e: EmoteLink)
    requires upload(UploadCall(EmojiName(e.emoteName), e.link), false) == Thrown(Some(AssetTooLarge))
    ensures Materialize(EmotesModule, upload, e).calls
              == [UploadCall(EmojiName(e.emoteName), e.link),
                  UploadCall(EmojiName(e.emoteName), ReplaceSuffix(e.link, "3.0", "2.0"))]
    ensures Materialize(LogAsUserCopy, upload, e) == Attempt(Success(None), [UploadCall(EmojiName(e.emoteName), e.link)])
  {
  }

  /** Any other rejection of the first call yields nothing for that emote and
      no retry; the emote is simply missing from the result. */
  lemma OtherErrorSkipsEmote(rev: Revision, upload: Uploader, existing: seq<Emoji>, e: EmoteLink, code: Option<int>)
    requires code != Some(InvalidFormBody) && code != Some(AssetTooLarge)
    requires upload(UploadCall(EmojiName(e.emoteName), e.link), false) == Thrown(code)
    requires FindByName(existing, EmojiName(e.emoteName)).None?
    ensures Materialize(rev, upload, e) == Attempt(Success(None), [UploadCall(EmojiName(e.emoteName), e.link)])
    ensures Expected(rev, upload, existing, e).None?
    ensures !UploadFails(rev, upload, existing, e)
  {
  }
}
