/**
 * Worked examples of what the counter records, stated on the store functions.
 */
module Scenarios {
  import opened Sanitizer
  import opened Tables

  /** A lowercase word without pattern characters or edge spaces is its own canonical form. */
  lemma CleanWordIsFixed(w: string)
    requires forall i :: 0 <= i < |w| ==> !IsUpper(w[i]) && !IsStripped(w[i])
    requires w == [] || (w[0] != ' ' && w[|w| - 1] != ' ')
    ensures SanitizeWord(w) == w
  {
    LowerKeepsLowercase(w);
    BlankKeepsClean(w);
    TrimKeepsTrimmed(w);
  }

  lemma SplitTwo(a: string, b: string)
    requires ' ' !in a && ' ' !in b
    ensures Split(a + " " + b) == [a, b]
  {
    SplitJoin([a, b]);
    assert Join([a, b]) == a + " " + Join([b]);
  }

  lemma PutAllTwo(d: Data, a: string, b: string, user: string, includeInAll: bool)
    ensures PutAll(d, [a, b], user, includeInAll) == PutWord(PutWord(d, a, user, includeInAll), b, user, includeInAll)
  {
    PutAllSnoc(d, [a, b], 1, user, includeInAll);
    PutAllSnoc(d, [a], 0, user, includeInAll);
    assert [a, b][..1] == [a] && [a][..0] == [];
  }

  lemma BuildTextPlain(d: Data, text: string, user: string, includeInAll: bool, urlRewrite: string -> string)
    requires Backspace !in Lower(text) && text != []
    ensures BuildText(d, text, user, includeInAll, urlRewrite) == PutAll(d, Split(Lower(text)), user, includeInAll)
  {
  }

  /** A two-token text without U+0008 is recorded token by token. */
  lemma BuildTwoTokens(d: Data, text: string, a: string, b: string, user: string, urlRewrite: string -> string)
    requires ' ' !in a && ' ' !in b && Lower(text) == a + " " + b && Backspace !in Lower(text)
    ensures BuildText(d, text, user, true, urlRewrite) == PutWord(PutWord(d, a, user, true), b, user, true)
  {
    assert |Lower(text)| > 0;
    BuildTextPlain(d, text, user, true, urlRewrite);
    SplitTwo(a, b);
    PutAllTwo(d, a, b, user, true);
  }

  lemma AliceText()
    ensures Lower("Hello, world!") == "hello," + " " + "world!" && Backspace !in Lower("Hello, world!")
    ensures ' ' !in "hello," && ' ' !in "world!"
  {
    assert Lower("Hello, world!") == "hello, world!";
  }

  lemma BobText()
    ensures Lower("hello world") == "hello" + " " + "world" && Backspace !in Lower("hello world")
    ensures ' ' !in "world"
  {
    assert Lower("hello world") == "hello world";
  }

  /** How one recorded token moves the count of `v` in "all". */
  lemma AllStep(d: Data, word: string, user: string, v: string)
    requires SanitizeWord(word) != [] && user != AllGroup
    ensures GroupCount(PutWord(d, word, user, true), AllGroup, v)
            == GroupCount(d, AllGroup, v) + (if v == SanitizeWord(word) then 1 else 0)
  {
    PutWordAllEffect(d, word, user, true);
  }

  /** How one recorded token moves the count of `v` for its user. */
  lemma UserStep(d: Data, word: string, user: string, v: string)
    requires SanitizeWord(word) != [] && user != AllGroup
    ensures GroupCount(PutWord(d, word, user, true), user, v)
            == GroupCount(d, user, v) + (if v == SanitizeWord(word) then 1 else 0)
  {
    PutWordUserEffect(d, word, user, true);
  }

  /** What a two-token text does to the counts of "all" and of its author. */
  lemma TwoTokensCounts(d: Data, text: string, a: string, b: string, user: string, urlRewrite: string -> string, v: string)
    requires ' ' !in a && ' ' !in b && Lower(text) == a + " " + b && Backspace !in Lower(text)
    requires SanitizeWord(a) != [] && SanitizeWord(b) != [] && user != AllGroup
    ensures var d' := BuildText(d, text, user, true, urlRewrite);
            var added := (if v == SanitizeWord(a) then 1 else 0) + (if v == SanitizeWord(b) then 1 else 0);
            && GroupCount(d', AllGroup, v) == GroupCount(d, AllGroup, v) + added
            && GroupCount(d', user, v) == GroupCount(d, user, v) + added
  {
    BuildTwoTokens(d, text, a, b, user, urlRewrite);
    var d1 := PutWord(d, a, user, true);
    AllStep(d, a, user, v);
    AllStep(d1, b, user, v);
    UserStep(d, a, user, v);
    UserStep(d1, b, user, v);
  }

  /**
   * "!" is not a pattern character: the query word "World!" is looked up as
   * "world!", a different word from "world".
   */
  lemma ExclamationMarkIsKept()
    ensures SanitizeWord("World!") == "world!" != "world"
  {
    WorldBangLowered();
    WorldBangIsClean();
    assert SanitizeWord("World!") == SanitizeWord("world!");
  }

  lemma WorldBangLowered()
    ensures Lower("World!") == "world!" == Lower("world!")
  {
    assert Lower("World!") == "world!";
    assert Lower("world!") == "world!";
  }

  lemma HelloIsClean()
    ensures SanitizeWord("hello") == "hello"
  {
    CleanWordIsFixed("hello");
  }

  /** The comma is blanked and the space it leaves is trimmed. */
  lemma HelloCommaIsHello()
    ensures SanitizeWord("hello,") == "hello"
  {
    LowerKeepsLowercase("hello,");
    assert Blank("hello,") == "hello ";
    assert TrimLeft("hello ") == "hello ";
    assert TrimRight("hello ") == TrimRight("hello");
    assert TrimRight("hello") == "hello";
  }

  lemma WorldIsClean()
    ensures SanitizeWord("world") == "world"
  {
    CleanWordIsFixed("world");
  }

  lemma WorldBangIsClean()
    ensures SanitizeWord("world!") == "world!"
  {
    CleanWordIsFixed("world!");
  }

  /** How "Hello, world!" from an opted-in user moves the count of `v`, starting from the empty store. */
  lemma AliceCounts(urlRewrite: string -> string, v: string)
    ensures var d := BuildText(map[], "Hello, world!", "alice", true, urlRewrite);
            var added := (if v == "hello" then 1 else 0) + (if v == "world!" then 1 else 0);
            GroupCount(d, AllGroup, v) == added && GroupCount(d, "alice", v) == added
  {
    AliceText();
    HelloCommaIsHello();
    WorldBangIsClean();
    var e: Data := map[];
    TwoTokensCounts(e, "Hello, world!", "hello,", "world!", "alice", urlRewrite, v);
  }

  /** "Hello, world!" from an opted-in user, starting from the empty store. */
  lemma AliceGreets(urlRewrite: string -> string)
    ensures var d := BuildText(map[], "Hello, world!", "alice", true, urlRewrite);
            && GroupCount(d, AllGroup, "hello") == 1
            && GroupCount(d, AllGroup, "world!") == 1
            && GroupCount(d, AllGroup, "world") == 0
            && GroupCount(d, "alice", "world") == 0
  {
    AliceCounts(urlRewrite, "hello");
    AliceCounts(urlRewrite, "world!");
    AliceCounts(urlRewrite, "world");
  }

  /** "hello world" from another opted-in user. */
  lemma BobGreets(d: Data, urlRewrite: string -> string)
    ensures var d' := BuildText(d, "hello world", "bob", true, urlRewrite);
            && GroupCount(d', AllGroup, "hello") == GroupCount(d, AllGroup, "hello") + 1
            && GroupCount(d', AllGroup, "world!") == GroupCount(d, AllGroup, "world!")
            && GroupCount(d', AllGroup, "world") == GroupCount(d, AllGroup, "world") + 1
  {
    BobText();
    HelloIsClean();
    WorldIsClean();
    TwoTokensCounts(d, "hello world", "hello", "world", "bob", urlRewrite, "hello");
    TwoTokensCounts(d, "hello world", "hello", "world", "bob", urlRewrite, "world!");
    TwoTokensCounts(d, "hello world", "hello", "world", "bob", urlRewrite, "world");
  }

  /**
   * alice writes "Hello, world!" and bob "hello world", both counting towards
   * "all": the comma of "hello," is blanked and trimmed, so "hello" reaches 2
   * in "all", while "world!" and "world" are two different words with 1 each,
   * since "!" is not a pattern character.
   */
  lemma TwoUsersGreet(urlRewrite: string -> string)
    ensures var d1 := BuildText(map[], "Hello, world!", "alice", true, urlRewrite);
            var d2 := BuildText(d1, "hello world", "bob", true, urlRewrite);
            && GroupCount(d2, AllGroup, "hello") == 2
            && GroupCount(d2, AllGroup, "world!") == 1
            && GroupCount(d2, AllGroup, "world") == 1
            && GroupCount(d2, "alice", "world") == 0
  {
    var d1 := BuildText(map[], "Hello, world!", "alice", true, urlRewrite);
    AliceGreets(urlRewrite);
    BobGreets(d1, urlRewrite);
    BuildTextLeavesOthers(d1, "hello world", "bob", true, urlRewrite, "alice");
  }
}
