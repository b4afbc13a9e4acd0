/** Discord emojis and the two text rewrites that insert them:
    `formatMessageWithEmojis` (`:name:` tokens → guild emoji) and the
    whole-word emote inlining of `logAsUser` (`\bname\b` → emoji). Both are
    global regular-expression replacements, written here as left-to-right
    scans. Word characters are those of JavaScript's `\w` without the `u`
    flag: ASCII letters, digits and `_`. */
module Emojis {
  import opened Wrappers
  import opened Text

  /** A guild or application emoji. */
  datatype Emoji = Emoji(name: string, id: string, animated: bool)

  /** `emoji.toString()`: `<:name:id>`, or `<a:name:id>` when animated. */
  function Render(e: Emoji): string {
    (if e.animated then "<a:" else "<:") + e.name + ":" + e.id + ">"
  }

  /** `emojis.find((e) => e.name === name)`. */
  function FindByName(emojis: seq<Emoji>, name: string): (r: Option<Emoji>)
    ensures r.Some? ==> r.value in emojis && r.value.name == name
    ensures r.None? ==> forall e :: e in emojis ==> e.name != name
  {
    if |emojis| == 0 then None
    else if emojis[0].name == name then Some(emojis[0])
    else FindByName(emojis[1..], name)
  }

  predicate IsWordChar(c: char) {
    ('a' <= c <= 'z') || ('A' <= c <= 'Z') || ('0' <= c <= '9') || c == '_'
  }

  /** A non-empty run of word characters: the names this model admits for
      emotes and emojis. */
  predicate IsWord(s: string) {
    |s| > 0 && forall k :: 0 <= k < |s| ==> IsWordChar(s[k])
  }

  /** Length of the longest prefix of word characters. */
  function WordRun(s: string): (k: nat)
    ensures k <= |s|
    ensures forall j :: 0 <= j < k ==> IsWordChar(s[j])
    ensures k < |s| ==> !IsWordChar(s[k])
    decreases |s|
  {
    if |s| == 0 || !IsWordChar(s[0]) then 0 else WordRun(s[1..]) + 1
  }

  // formatMessageWithEmojis --------------------------------------------------------

  /** `message.replace(/:(\w+):/g, …)`: at a `:` followed by a word run and
      another `:` the token is replaced by the guild emoji of that exact name,
      or kept as it is; scanning resumes after the closing `:`. With no guild
      emoji, or no `:` in the text, nothing changes. */
  function FormatMessageWithEmojis(s: string, guildEmojis: seq<Emoji>): (r: string)
    ensures guildEmojis == [] ==> r == s
    ensures ':' !in s ==> r == s
    decreases |s|
  {
    if |s| == 0 then ""
    else if s[0] == ':' && 0 < WordRun(s[1..]) && WordRun(s[1..]) + 1 < |s| && s[WordRun(s[1..]) + 1] == ':' then
      var k := WordRun(s[1..]);
      var replacement := match FindByName(guildEmojis, s[1..k + 1])
                         case Some(e) => Render(e)
                         case None => s[..k + 2];
      var r := replacement + FormatMessageWithEmojis(s[k + 2..], guildEmojis);
      assert guildEmojis == [] ==> r == s by {
        if guildEmojis == [] {
          assert s == s[..k + 2] + s[k + 2..];
        }
      }
      r
    else
      var r := [s[0]] + FormatMessageWithEmojis(s[1..], guildEmojis);
      assert ':' !in s ==> ':' !in s[1..] by {
        assert forall j :: 0 <= j < |s| - 1 ==> s[1..][j] == s[j + 1];
      }
      assert s == [s[0]] + s[1..];
      r
  }

  lemma TokenShape(name: string, rest: string)
    requires IsWord(name)
    ensures var s := ":" + name + ":" + rest;
            WordRun(s[1..]) == |name| && s[|name| + 1] == ':' &&
            s[1..|name| + 1] == name && s[..|name| + 2] == ":" + name + ":" && s[|name| + 2..] == rest
  {
    var s := ":" + name + ":" + rest;
    var t := s[1..];
    assert t == name + (":" + rest);
    WordRunOfWord(name, ":" + rest);
  }

  lemma {:induction false} WordRunOfWord(name: string, rest: string)
    requires forall k :: 0 <= k < |name| ==> IsWordChar(name[k])
    requires |rest| > 0 && !IsWordChar(rest[0])
    ensures WordRun(name + rest) == |name|
    decreases |name|
  {
    if |name| > 0 {
      assert (name + rest)[1..] == name[1..] + rest;
      WordRunOfWord(name[1..], rest);
    } else {
      assert name + rest == rest;
    }
  }

  /** A `:name:` token whose name a guild emoji carries becomes that emoji. */
  lemma FormatMatchedToken(name: string, rest: string, guildEmojis: seq<Emoji>)
    requires IsWord(name)
    requires FindByName(guildEmojis, name).Some?
    ensures FormatMessageWithEmojis(":" + name + ":" + rest, guildEmojis)
              == Render(FindByName(guildEmojis, name).value) + FormatMessageWithEmojis(rest, guildEmojis)
  {
    TokenShape(name, rest);
  }

  /** A `:name:` token no guild emoji carries is left as it is. */
  lemma FormatUnmatchedToken(name: string, rest: string, guildEmojis: seq<Emoji>)
    requires IsWord(name)
    requires FindByName(guildEmojis, name).None?
    ensures FormatMessageWithEmojis(":" + name + ":" + rest, guildEmojis)
              == ":" + name + ":" + FormatMessageWithEmojis(rest, guildEmojis)
  {
    TokenShape(name, rest);
  }

  // Whole-word replacement -------------------------------------------------------

  /** `text.replace(new RegExp("\\b" + name + "\\b", "g"), rep)` for a name
      made of word characters: an occurrence is replaced when it neither
      follows nor precedes a word character. `afterWord` says whether the
      character before `s` is a word character. */
  function ReplaceWordFrom(s: string, name: string, rep: string, afterWord: bool): (r: string)
    requires IsWord(name)
    decreases |s|
  {
    if MatchesHere(s, name, afterWord) then rep + ReplaceWordFrom(s[|name|..], name, rep, true)
    else if |s| == 0 then ""
    else [s[0]] + ReplaceWordFrom(s[1..], name, rep, IsWordChar(s[0]))
  }

  function ReplaceWord(s: string, name: string, rep: string): string
    requires IsWord(name)
  {
    ReplaceWordFrom(s, name, rep, false)
  }

  /** Text that does not contain the name is left unchanged. */
  lemma {:induction false} ReplaceWordAbsent(s: string, name: string, rep: string, afterWord: bool)
    requires IsWord(name) && !Contains(s, name)
    ensures ReplaceWordFrom(s, name, rep, afterWord) == s
    decreases |s|
  {
    if |s| > 0 {
      ReplaceWordAbsent(s[1..], name, rep, IsWordChar(s[0]));
      assert s == [s[0]] + s[1..];
    }
  }

  /** Replacing a word by itself changes nothing. */
  lemma {:induction false} ReplaceWordBySelf(s: string, name: string, afterWord: bool)
    requires IsWord(name)
    ensures ReplaceWordFrom(s, name, name, afterWord) == s
    decreases |s|
  {
    if MatchesHere(s, name, afterWord) {
      ReplaceWordBySelf(s[|name|..], name, true);
      assert s == s[..|name|] + s[|name|..];
    } else if |s| > 0 {
      ReplaceWordBySelf(s[1..], name, IsWordChar(s[0]));
      assert s == [s[0]] + s[1..];
    }
  }

  /** A name standing between non-word characters (or the ends of the text)
      is replaced, and the text on either side is rewritten on its own. */
  lemma {:induction false} ReplaceWordAt(a: string, name: string, b: string, rep: string)
    requires IsWord(name)
    requires |a| == 0 || !IsWordChar(a[|a| - 1])
    requires |b| == 0 || !IsWordChar(b[0])
    ensures ReplaceWord(a + name + b, name, rep) == ReplaceWord(a, name, rep) + rep + ReplaceWord(b, name, rep)
  {
    var t := name + b;
    assert a + name + b == a + t;
    assert ReplaceWordFrom(a + t, name, rep, false) ==
           ReplaceWordFrom(a, name, rep, false) + ReplaceWordFrom(t, name, rep, false) by {
      ScanPrefix(a, t, name, rep, false);
    }
    assert ReplaceWordFrom(t, name, rep, false) == rep + ReplaceWordFrom(b, name, rep, false) by {
      MatchAtStart(name, b, rep);
      FromBoundary(b, name, rep);
    }
    ConcatAssoc(ReplaceWordFrom(a, name, rep, false), rep, ReplaceWordFrom(b, name, rep, false));
    calc {
      ReplaceWord(a + name + b, name, rep);
    ==
      ReplaceWordFrom(a, name, rep, false) + ReplaceWordFrom(t, name, rep, false);
    ==
      ReplaceWordFrom(a, name, rep, false) + (rep + ReplaceWordFrom(b, name, rep, false));
    ==
      ReplaceWord(a, name, rep) + rep + ReplaceWord(b, name, rep);
    }
  }

  /** Whether the scan replaces the name at the start of `s`. */
  predicate MatchesHere(s: string, name: string, afterWord: bool) {
    StartsWith(s, name) && !afterWord && (|s| == |name| || !IsWordChar(s[|name|]))
  }

  lemma {:induction false} ScanMatch(s: string, name: string, rep: string, afterWord: bool)
    requires IsWord(name) && MatchesHere(s, name, afterWord)
    ensures ReplaceWordFrom(s, name, rep, afterWord) == rep + ReplaceWordFrom(s[|name|..], name, rep, true)
  {
  }

  lemma {:induction false} ScanChar(s: string, name: string, rep: string, afterWord: bool)
    requires IsWord(name) && !MatchesHere(s, name, afterWord) && |s| > 0
    ensures ReplaceWordFrom(s, name, rep, afterWord) == [s[0]] + ReplaceWordFrom(s[1..], name, rep, IsWordChar(s[0]))
  {
  }

  /** The name at the start, followed by a non-word character or nothing,
      is replaced. */
  lemma {:induction false} MatchAtStart(name: string, b: string, rep: string)
    requires IsWord(name)
    requires |b| == 0 || !IsWordChar(b[0])
    ensures ReplaceWordFrom(name + b, name, rep, false) == rep + ReplaceWordFrom(b, name, rep, true)
  {
    var t := name + b;
    assert t[..|name|] == name && t[|name|..] == b;
    if |b| > 0 {
      assert t[|name|] == b[0];
    }
    ScanMatch(t, name, rep, false);
  }

  /** Before a non-word character, whether a word character came before
      makes no difference. */
  lemma {:induction false} FromBoundary(b: string, name: string, rep: string)
    requires IsWord(name)
    requires |b| == 0 || !IsWordChar(b[0])
    ensures ReplaceWordFrom(b, name, rep, true) == ReplaceWordFrom(b, name, rep, false)
  {
    if |b| > 0 {
      assert IsWordChar(name[0]);
      assert !StartsWith(b, name);
      ScanChar(b, name, rep, true);
      ScanChar(b, name, rep, false);
    }
  }

  /** A prefix ending with a non-word character cannot start a match that
      reaches its end, and matches inside it are judged alike. */
  lemma {:induction false} PrefixBranch(a: string, t: string, name: string, afterWord: bool)
    requires IsWord(name)
    requires |a| > 0 && !IsWordChar(a[|a| - 1])
    ensures MatchesHere(a + t, name, afterWord) <==> MatchesHere(a, name, afterWord)
    ensures MatchesHere(a, name, afterWord) ==> |name| < |a|
  {
    var s := a + t;
    if |name| >= |a| {
      assert IsWordChar(name[|a| - 1]);
      assert s[|a| - 1] == a[|a| - 1];
    } else {
      assert s[..|name|] == a[..|name|];
      assert s[|name|] == a[|name|];
    }
  }

  lemma ConcatAssoc(x: string, y: string, z: string)
    ensures (x + y) + z == x + (y + z)
  {
  }

  /** Scanning a prefix that ends with a non-word character: no match
      straddles its end, so the prefix is rewritten on its own and the rest
      is scanned from a word boundary. */
  lemma {:induction false} ScanPrefix(a: string, t: string, name: string, rep: string, afterWord: bool)
    requires IsWord(name)
    requires |a| == 0 ==> !afterWord
    requires |a| > 0 ==> !IsWordChar(a[|a| - 1])
    ensures ReplaceWordFrom(a + t, name, rep, afterWord) ==
            ReplaceWordFrom(a, name, rep, afterWord) + ReplaceWordFrom(t, name, rep, false)
    decreases |a|
  {
    var s := a + t;
    if |a| == 0 {
      assert s == t;
      assert !MatchesHere(a, name, afterWord);
      assert ReplaceWordFrom(a, name, rep, afterWord) == "";
      assert "" + ReplaceWordFrom(t, name, rep, false) == ReplaceWordFrom(t, name, rep, false);
    } else {
      PrefixBranch(a, t, name, afterWord);
      var tailT := ReplaceWordFrom(t, name, rep, false);
      if MatchesHere(a, name, afterWord) {
        var rest := a[|name|..];
        assert |rest| > 0 && rest[|rest| - 1] == a[|a| - 1];
        assert s[|name|..] == rest + t;
        ScanMatch(s, name, rep, afterWord);
        ScanMatch(a, name, rep, afterWord);
        ScanPrefix(rest, t, name, rep, true);
        var x := ReplaceWordFrom(rest, name, rep, true);
        ConcatAssoc(rep, x, tailT);
        calc {
          ReplaceWordFrom(s, name, rep, afterWord);
        ==
          rep + (x + tailT);
        ==
          (rep + x) + tailT;
        ==
          ReplaceWordFrom(a, name, rep, afterWord) + tailT;
        }
      } else {
        var rest := a[1..];
        assert |rest| > 0 ==> rest[|rest| - 1] == a[|a| - 1];
        assert |rest| == 0 ==> !IsWordChar(a[0]);
        assert s[1..] == rest + t && s[0] == a[0];
        ScanChar(s, name, rep, afterWord);
        ScanChar(a, name, rep, afterWord);
        ScanPrefix(rest, t, name, rep, IsWordChar(a[0]));
        var x := ReplaceWordFrom(rest, name, rep, IsWordChar(a[0]));
        ConcatAssoc([a[0]], x, tailT);
        calc {
          ReplaceWordFrom(s, name, rep, afterWord);
        ==
          [a[0]] + (x + tailT);
        ==
          ([a[0]] + x) + tailT;
        ==
          ReplaceWordFrom(a, name, rep, afterWord) + tailT;
        }
      }
    }
  }

  /** A standalone word is replaced; one glued to a word character is not. */
  lemma ReplaceWordBoundaries(name: string, rep: string)
    requires IsWord(name)
    ensures ReplaceWord(name, name, rep) == rep
    ensures ReplaceWord("_" + name, name, rep) == "_" + name
  {
    assert name[..|name|] == name;
    assert name[|name|..] == "";
    assert ReplaceWordFrom("", name, rep, true) == "";
    var s := "_" + name;
    assert s[|name|] == name[|name| - 1];
    assert s[1..] == name;
    assert ReplaceWordFrom(s, name, rep, false) == "_" + ReplaceWordFrom(name, name, rep, true);
    GluedWordKept(name, rep);
  }

  /** After a word character the name is never matched at the start. */
  lemma {:induction false} GluedWordKept(name: string, rep: string)
    requires IsWord(name)
    ensures ReplaceWordFrom(name, name, rep, true) == name
  {
    var s := name;
    assert s == [s[0]] + s[1..];
    assert IsWordChar(s[0]);
    assert forall k :: 0 <= k < |s| - 1 ==> s[1..][k] == s[k + 1];
    NoMatchInsideWord(s[1..], name, rep);
  }

  /** Inside a run of word characters there is no word boundary, so nothing
      is replaced. */
  lemma {:induction false} NoMatchInsideWord(s: string, name: string, rep: string)
    requires IsWord(name)
    requires forall k :: 0 <= k < |s| ==> IsWordChar(s[k])
    ensures ReplaceWordFrom(s, name, rep, true) == s
    decreases |s|
  {
    if |s| > 0 {
      assert forall k :: 0 <= k < |s| - 1 ==> s[1..][k] == s[k + 1];
      NoMatchInsideWord(s[1..], name, rep);
      assert s == [s[0]] + s[1..];
    }
  }
}
