/**
 * The aggregation store as a value: a map from group name (an author, or the
 * aggregate group "all") to that group's frozen flag and word counts, and the
 * effect of recording one word, one message text and one chat message on it.
 * The store object in module Count is specified by these functions.
 */
module Tables {
  import opened Sanitizer

  /** One group: the flag fixed when it was created and its word counts. */
  datatype Group = Group(includeAll: bool, counts: map<string, nat>)

  type Data = map<string, Group>

  /** The name of the aggregate group. */
  const AllGroup: string := "all"

  datatype Author = Author(username: string, bot: bool)
  datatype Message = Message(content: string, author: Author)

  /** How many times `w` is recorded in a count table; 0 when absent. */
  function Count(c: map<string, nat>, w: string): nat {
    if w in c then c[w] else 0
  }

  /** How many times `w` is recorded for group `g`; 0 when the group is absent. */
  function GroupCount(d: Data, g: string, w: string): nat {
    if g in d then Count(d[g].counts, w) else 0
  }

  /** One more occurrence of `w`: a fresh entry starts at 1. */
  function Increment(c: map<string, nat>, w: string): (r: map<string, nat>)
    ensures r.Keys == c.Keys + {w}
    ensures Count(r, w) == Count(c, w) + 1
    ensures forall v :: v != w ==> Count(r, v) == Count(c, v)
  {
    c[w := Count(c, w) + 1]
  }

  /** The group `name` holds after counting `w` in it. */
  function Bumped(d: Data, name: string, flag: bool, w: string): Group {
    var g := if name in d then d[name] else Group(flag, map[]);
    g.(counts := Increment(g.counts, w))
  }

  /** Creates `name` with `flag` when it is absent, then counts `w` in it. */
  function AddWord(d: Data, name: string, flag: bool, w: string): (r: Data)
    ensures r.Keys == d.Keys + {name}
    ensures r[name].includeAll == if name in d then d[name].includeAll else flag
    ensures r[name].counts == Increment(if name in d then d[name].counts else map[], w)
    ensures forall g :: g in d && g != name ==> r[g] == d[g]
  {
    d[name := Bumped(d, name, flag, w)]
  }

  /** AddWord in two steps: install an empty group when absent, then count `w` in it. */
  lemma AddWordInSteps(d: Data, name: string, flag: bool, w: string)
    ensures var d1 := if name in d then d else d[name := Group(flag, map[])];
            d1[name := d1[name].(counts := Increment(d1[name].counts, w))] == AddWord(d, name, flag, w)
  {
  }

  /** The effect of recording one raw token for `user`. */
  function PutWord(d: Data, word: string, user: string, includeInAll: bool): Data {
    var w := SanitizeWord(word);
    if |w| == 0 then d
    else
      var d1 := AddWord(d, user, includeInAll, w);
      if includeInAll then AddWord(d1, AllGroup, false, w) else d1
  }

  /** The effect of recording the tokens `words`, first to last. */
  function PutAll(d: Data, words: seq<string>, user: string, includeInAll: bool): Data
    decreases |words|
  {
    if words == [] then d
    else PutWord(PutAll(d, words[..|words| - 1], user, includeInAll), words[|words| - 1], user, includeInAll)
  }

  /** Recording one more token extends PutAll by one step. */
  lemma PutAllSnoc(d: Data, words: seq<string>, i: nat, user: string, includeInAll: bool)
    requires i < |words|
    ensures PutAll(d, words[..i + 1], user, includeInAll) == PutWord(PutAll(d, words[..i], user, includeInAll), words[i], user, includeInAll)
  {
    assert words[..i + 1][..i] == words[..i];
  }

  /** The effect of recording a message text: sanitize, split on spaces, record each token. */
  function BuildText(d: Data, text: string, user: string, includeInAll: bool, urlRewrite: string -> string): Data {
    var t := SanitizeMessage(text, urlRewrite);
    if |t| == 0 then d else PutAll(d, Split(t), user, includeInAll)
  }

  predicate IsCommand(content: string) {
    |content| > 0 && content[0] == '!'
  }

  /** The effect of a chat message: commands are ignored, bots do not count towards "all". */
  function BuildMessage(d: Data, m: Message, urlRewrite: string -> string): Data {
    if IsCommand(m.content) then d
    else BuildText(d, m.content, m.author.username, !m.author.bot, urlRewrite)
  }

  /** The effect of a sequence of chat messages, first to last. */
  function Ingest(d: Data, ms: seq<Message>, urlRewrite: string -> string): Data
    decreases |ms|
  {
    if ms == [] then d
    else BuildMessage(Ingest(d, ms[..|ms| - 1], urlRewrite), ms[|ms| - 1], urlRewrite)
  }

  /** `d'` extends `d`: no group disappears, no flag changes, no count decreases. */
  ghost predicate Grows(d: Data, d': Data) {
    && d.Keys <= d'.Keys
    && (forall g :: g in d ==> d'[g].includeAll == d[g].includeAll)
    && (forall g, w :: g in d ==> Count(d[g].counts, w) <= Count(d'[g].counts, w))
  }

  // ----- properties of recording one word -----

  /** A token that sanitizes to nothing changes nothing; in particular no group is created. */
  lemma PutWordEmptyIsNoop(d: Data, word: string, user: string, includeInAll: bool)
    requires SanitizeWord(word) == []
    ensures PutWord(d, word, user, includeInAll) == d
  {
  }

  /**
   * A non-empty token raises its own count in the user's group by one (by two
   * when the user is itself named "all" and counts towards it), leaves every
   * other word of that group alone, and leaves every group other than the
   * user's and "all" untouched. The user's group exists afterwards, with its
   * old flag or, when new, with the caller's flag.
   */
  lemma PutWordUserEffect(d: Data, word: string, user: string, includeInAll: bool)
    requires SanitizeWord(word) != []
    ensures var w, d' := SanitizeWord(word), PutWord(d, word, user, includeInAll);
            && user in d'
            && d'[user].includeAll == (if user in d then d[user].includeAll else includeInAll)
            && GroupCount(d', user, w) == GroupCount(d, user, w) + (if includeInAll && user == AllGroup then 2 else 1)
            && (forall v :: v != w ==> GroupCount(d', user, v) == GroupCount(d, user, v))
            && (forall g :: g != user && g != AllGroup ==> (g in d' <==> g in d) && (g in d ==> d'[g] == d[g]))
  {
  }

  /**
   * For another user, "all" gains exactly one occurrence of the token when the
   * caller asks for it, and is left exactly as it was otherwise. When it has
   * to be created it gets includeAll = false.
   */
  lemma PutWordAllEffect(d: Data, word: string, user: string, includeInAll: bool)
    requires SanitizeWord(word) != [] && user != AllGroup
    ensures var w, d' := SanitizeWord(word), PutWord(d, word, user, includeInAll);
            && (includeInAll ==>
                  && AllGroup in d'
                  && (AllGroup !in d ==> !d'[AllGroup].includeAll)
                  && GroupCount(d', AllGroup, w) == GroupCount(d, AllGroup, w) + 1
                  && (forall v :: v != w ==> GroupCount(d', AllGroup, v) == GroupCount(d, AllGroup, v)))
            && (!includeInAll ==> (AllGroup in d' <==> AllGroup in d) && (AllGroup in d ==> d'[AllGroup] == d[AllGroup]))
  {
  }

  lemma GrowsTransitive(d1: Data, d2: Data, d3: Data)
    requires Grows(d1, d2) && Grows(d2, d3)
    ensures Grows(d1, d3)
  {
    forall g, w | g in d1 ensures Count(d1[g].counts, w) <= Count(d3[g].counts, w) {
      assert Count(d1[g].counts, w) <= Count(d2[g].counts, w);
    }
  }

  lemma AddWordGrows(d: Data, name: string, flag: bool, w: string)
    ensures Grows(d, AddWord(d, name, flag, w))
  {
    var d' := AddWord(d, name, flag, w);
    forall g, v | g in d ensures Count(d[g].counts, v) <= Count(d'[g].counts, v) {
      if g == name {
        assert d'[g].counts == Increment(d[g].counts, w);
      }
    }
  }

  /** Recording a word never removes a group, changes a flag or lowers a count. */
  lemma PutWordGrows(d: Data, word: string, user: string, includeInAll: bool)
    ensures Grows(d, PutWord(d, word, user, includeInAll))
  {
    var w := SanitizeWord(word);
    if |w| != 0 {
      var d1 := AddWord(d, user, includeInAll, w);
      AddWordGrows(d, user, includeInAll, w);
      if includeInAll {
        AddWordGrows(d1, AllGroup, false, w);
        GrowsTransitive(d, d1, AddWord(d1, AllGroup, false, w));
      }
    }
  }

  /** The same for any number of words, hence for Build and for whole message histories. */
  lemma {:induction false} PutAllGrows(d: Data, words: seq<string>, user: string, includeInAll: bool)
    ensures Grows(d, PutAll(d, words, user, includeInAll))
    decreases |words|
  {
    if words == [] {
      assert PutAll(d, words, user, includeInAll) == d;
    } else {
      var init := words[..|words| - 1];
      var mid := PutAll(d, init, user, includeInAll);
      PutAllGrows(d, init, user, includeInAll);
      PutWordGrows(mid, words[|words| - 1], user, includeInAll);
      GrowsTransitive(d, mid, PutAll(d, words, user, includeInAll));
    }
  }

  lemma BuildTextGrows(d: Data, text: string, user: string, includeInAll: bool, urlRewrite: string -> string)
    ensures Grows(d, BuildText(d, text, user, includeInAll, urlRewrite))
  {
    var t := SanitizeMessage(text, urlRewrite);
    if |t| != 0 {
      PutAllGrows(d, Split(t), user, includeInAll);
    }
  }

  lemma {:induction false} IngestGrows(d: Data, ms: seq<Message>, urlRewrite: string -> string)
    ensures Grows(d, Ingest(d, ms, urlRewrite))
    decreases |ms|
  {
    if ms == [] {
      assert Ingest(d, ms, urlRewrite) == d;
    } else {
      var mid := Ingest(d, ms[..|ms| - 1], urlRewrite);
      var m := ms[|ms| - 1];
      IngestGrows(d, ms[..|ms| - 1], urlRewrite);
      if !IsCommand(m.content) {
        BuildTextGrows(mid, m.content, m.author.username, !m.author.bot, urlRewrite);
      }
      GrowsTransitive(d, mid, Ingest(d, ms, urlRewrite));
    }
  }

  /** A command message records nothing, not even for its author. */
  lemma CommandIsIgnored(d: Data, m: Message, urlRewrite: string -> string)
    requires IsCommand(m.content)
    ensures BuildMessage(d, m, urlRewrite) == d
  {
  }

  /**
   * A bot's message never reaches "all": as long as no bot is named "all",
   * the aggregate group is left exactly as it was.
   */
  lemma {:induction false} BotLeavesAllUntouched(d: Data, words: seq<string>, user: string)
    requires user != AllGroup
    ensures var d' := PutAll(d, words, user, false);
            (AllGroup in d' <==> AllGroup in d) && (AllGroup in d ==> d'[AllGroup] == d[AllGroup])
    decreases |words|
  {
    if words != [] {
      BotLeavesAllUntouched(d, words[..|words| - 1], user);
    }
  }

  /** Recording tokens for `user` leaves every group other than the user's and "all" exactly as it was. */
  lemma {:induction false} PutAllLeavesOthers(d: Data, words: seq<string>, user: string, includeInAll: bool, g: string)
    requires g != user && g != AllGroup
    ensures var d' := PutAll(d, words, user, includeInAll);
            (g in d' <==> g in d) && (g in d ==> d'[g] == d[g])
    decreases |words|
  {
    if words != [] {
      var init := words[..|words| - 1];
      PutAllLeavesOthers(d, init, user, includeInAll, g);
      var mid := PutAll(d, init, user, includeInAll);
      if SanitizeWord(words[|words| - 1]) != [] {
        PutWordUserEffect(mid, words[|words| - 1], user, includeInAll);
      }
    }
  }

  /** The same for a whole message text. */
  lemma BuildTextLeavesOthers(d: Data, text: string, user: string, includeInAll: bool, urlRewrite: string -> string, g: string)
    requires g != user && g != AllGroup
    ensures var d' := BuildText(d, text, user, includeInAll, urlRewrite);
            (g in d' <==> g in d) && (g in d ==> d'[g] == d[g])
  {
    var t := SanitizeMessage(text, urlRewrite);
    if |t| != 0 {
      PutAllLeavesOthers(d, Split(t), user, includeInAll, g);
    }
  }

  /** Every group has said something: groups are only ever created to receive a word. */
  ghost predicate NoEmptyGroups(d: Data) {
    forall g :: g in d ==> d[g].counts != map[]
  }

  lemma AddWordKeepsGroupsNonEmpty(d: Data, name: string, flag: bool, w: string)
    requires NoEmptyGroups(d)
    ensures NoEmptyGroups(AddWord(d, name, flag, w))
  {
    var d' := AddWord(d, name, flag, w);
    forall g | g in d' ensures d'[g].counts != map[] {
      if g == name {
        assert w in d'[g].counts;
      }
    }
  }

  lemma PutWordKeepsGroupsNonEmpty(d: Data, word: string, user: string, includeInAll: bool)
    requires NoEmptyGroups(d)
    ensures NoEmptyGroups(PutWord(d, word, user, includeInAll))
  {
    var w := SanitizeWord(word);
    if |w| != 0 {
      AddWordKeepsGroupsNonEmpty(d, user, includeInAll, w);
      AddWordKeepsGroupsNonEmpty(AddWord(d, user, includeInAll, w), AllGroup, false, w);
    }
  }

  lemma {:induction false} PutAllKeepsGroupsNonEmpty(d: Data, words: seq<string>, user: string, includeInAll: bool)
    requires NoEmptyGroups(d)
    ensures NoEmptyGroups(PutAll(d, words, user, includeInAll))
    decreases |words|
  {
    if words != [] {
      PutAllKeepsGroupsNonEmpty(d, words[..|words| - 1], user, includeInAll);
      PutWordKeepsGroupsNonEmpty(PutAll(d, words[..|words| - 1], user, includeInAll), words[|words| - 1], user, includeInAll);
    }
  }

  /**
   * Starting from the empty store, every group that exists after any history
   * of messages has at least one word, so "has no words" cannot be observed.
   */
  lemma {:induction false} HistoryHasNoEmptyGroups(ms: seq<Message>, urlRewrite: string -> string)
    ensures NoEmptyGroups(Ingest(map[], ms, urlRewrite))
    decreases |ms|
  {
    if ms != [] {
      var mid := Ingest(map[], ms[..|ms| - 1], urlRewrite);
      var m := ms[|ms| - 1];
      HistoryHasNoEmptyGroups(ms[..|ms| - 1], urlRewrite);
      var t := SanitizeMessage(m.content, urlRewrite);
      if !IsCommand(m.content) && |t| != 0 {
        PutAllKeepsGroupsNonEmpty(mid, Split(t), m.author.username, !m.author.bot);
      }
    }
  }

  // ----- order of recording -----

  lemma IncrementCommutes(c: map<string, nat>, w1: string, w2: string)
    ensures Increment(Increment(c, w1), w2) == Increment(Increment(c, w2), w1)
  {
    var a, b := Increment(Increment(c, w1), w2), Increment(Increment(c, w2), w1);
    assert a.Keys == b.Keys;
    forall k | k in a ensures a[k] == b[k] {
      assert a[k] == Count(a, k) && b[k] == Count(b, k);
    }
  }

  /** Counting in one group leaves what another group would be bumped to unchanged. */
  lemma BumpedElsewhere(d: Data, n1: string, f1: bool, w1: string, n2: string, f2: bool, w2: string)
    requires n1 != n2
    ensures Bumped(d[n1 := Bumped(d, n1, f1, w1)], n2, f2, w2) == Bumped(d, n2, f2, w2)
  {
  }

  lemma AddWordCommutes(d: Data, n1: string, f1: bool, w1: string, n2: string, f2: bool, w2: string)
    requires n1 == n2 ==> f1 == f2
    ensures AddWord(AddWord(d, n1, f1, w1), n2, f2, w2) == AddWord(AddWord(d, n2, f2, w2), n1, f1, w1)
  {
    if n1 == n2 {
      var c := if n1 in d then d[n1].counts else map[];
      IncrementCommutes(c, w1, w2);
    } else {
      var g1, g2 := Bumped(d, n1, f1, w1), Bumped(d, n2, f2, w2);
      BumpedElsewhere(d, n1, f1, w1, n2, f2, w2);
      BumpedElsewhere(d, n2, f2, w2, n1, f1, w1);
      assert d[n1 := g1][n2 := g2] == d[n2 := g2][n1 := g1];
    }
  }

  /**
   * Counting is commutative: two tokens can be recorded in either order,
   * provided a user shared by both comes with one flag and neither user is
   * named "all" (otherwise the flag "all" is created with depends on the order).
   */
  lemma PutWordCommutes(d: Data, x: string, u: string, f: bool, y: string, v: string, g: bool)
    requires u != AllGroup && v != AllGroup
    requires u == v ==> f == g
    ensures PutWord(PutWord(d, x, u, f), y, v, g) == PutWord(PutWord(d, y, v, g), x, u, f)
  {
    var wx, wy := SanitizeWord(x), SanitizeWord(y);
    if |wx| != 0 && |wy| != 0 {
      var ud, vd := AddWord(d, u, f, wx), AddWord(d, v, g, wy);
      AddWordCommutes(d, u, f, wx, v, g, wy);
      if f && g {
        AddWordCommutes(ud, AllGroup, false, wx, v, g, wy);
        AddWordCommutes(AddWord(vd, u, f, wx), AllGroup, false, wx, AllGroup, false, wy);
        AddWordCommutes(vd, u, f, wx, AllGroup, false, wy);
      } else if f {
        AddWordCommutes(ud, AllGroup, false, wx, v, g, wy);
      } else if g {
        AddWordCommutes(vd, u, f, wx, AllGroup, false, wy);
      }
    }
  }
}
