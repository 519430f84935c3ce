/**
 * The aggregate group "all" is kept in step with the user groups by writing
 * to both on every insertion. This module proves that doing so keeps the count
 * of every word in "all" equal to the sum of its counts over the groups that
 * opted in, provided each user always arrives with the same flag and no user
 * is called "all".
 */
module Consistency {
  import opened Sanitizer
  import opened Tables

  /** What group `g` contributes to "all" for word `w`. */
  function Contribution(g: Group, w: string): nat {
    if g.includeAll then Count(g.counts, w) else 0
  }

  /** The sum of the contributions of the groups `names`. */
  ghost function SumOver(d: Data, names: set<string>, w: string): nat
    requires names <= d.Keys
    decreases names
  {
    if names == {} then 0
    else
      var n :| n in names;
      Contribution(d[n], w) + SumOver(d, names - {n}, w)
  }

  /** The number of times the opted-in groups together have said `w`. */
  ghost function OptedInTotal(d: Data, w: string): nat {
    SumOver(d, d.Keys, w)
  }

  /** "all" does not itself opt in, and it holds exactly the opted-in totals. */
  ghost predicate AllConsistent(d: Data) {
    && (AllGroup in d ==> !d[AllGroup].includeAll)
    && forall w :: GroupCount(d, AllGroup, w) == OptedInTotal(d, w)
  }

  /** Every user group carries the flag its user's bot status calls for. */
  ghost predicate FlagsFollow(d: Data, isBot: string -> bool) {
    forall g :: g in d && g != AllGroup ==> d[g].includeAll == !isBot(g)
  }

  /** Any member can be taken out of the sum first. */
  lemma SumOverRemove(d: Data, names: set<string>, n: string, w: string)
    requires n in names && names <= d.Keys
    ensures SumOver(d, names, w) == Contribution(d[n], w) + SumOver(d, names - {n}, w)
    decreases names
  {
    var m :| m in names && SumOver(d, names, w) == Contribution(d[m], w) + SumOver(d, names - {m}, w);
    if m != n {
      SumOverRemove(d, names - {m}, n, w);
      SumOverRemove(d, names - {n}, m, w);
      assert names - {m} - {n} == names - {n} - {m};
    }
  }

  /** The sum only depends on the contributions of the groups summed. */
  lemma SumOverCongruent(d: Data, d': Data, names: set<string>, w: string)
    requires names <= d.Keys && names <= d'.Keys
    requires forall n :: n in names ==> Contribution(d[n], w) == Contribution(d'[n], w)
    ensures SumOver(d, names, w) == SumOver(d', names, w)
    decreases names
  {
    if names != {} {
      var n :| n in names;
      SumOverRemove(d, names, n, w);
      SumOverRemove(d', names, n, w);
      SumOverCongruent(d, d', names - {n}, w);
    }
  }

  /** Counting `w` in `name` raises the opted-in total of `w` by one exactly when `name` opts in. */
  lemma AddWordTotal(d: Data, name: string, flag: bool, w: string, v: string)
    ensures var optedIn := if name in d then d[name].includeAll else flag;
            OptedInTotal(AddWord(d, name, flag, w), v) == OptedInTotal(d, v) + (if optedIn && v == w then 1 else 0)
  {
    var d' := AddWord(d, name, flag, w);
    var rest := d.Keys - {name};
    assert d'.Keys - {name} == rest;
    SumOverRemove(d', d'.Keys, name, v);
    SumOverCongruent(d, d', rest, v);
    if name in d {
      SumOverRemove(d, d.Keys, name, v);
    } else {
      assert rest == d.Keys;
    }
  }

  /** The empty store is consistent. */
  lemma EmptyIsConsistent()
    ensures AllConsistent(map[])
  {
    var e: Data := map[];
    assert e.Keys == {};
    forall w ensures GroupCount(e, AllGroup, w) == OptedInTotal(e, w) {
    }
  }

  /** Recording a word for a user other than "all", with that user's own flag, keeps "all" consistent. */
  lemma PutWordKeepsConsistent(d: Data, word: string, user: string, includeInAll: bool)
    requires AllConsistent(d)
    requires user != AllGroup
    requires user in d ==> d[user].includeAll == includeInAll
    ensures AllConsistent(PutWord(d, word, user, includeInAll))
  {
    var w := SanitizeWord(word);
    if |w| != 0 {
      var d1 := AddWord(d, user, includeInAll, w);
      assert AllGroup in d1 ==> !d1[AllGroup].includeAll;
      forall v ensures OptedInTotal(d1, v) == OptedInTotal(d, v) + (if includeInAll && v == w then 1 else 0) {
        AddWordTotal(d, user, includeInAll, w, v);
      }
      if includeInAll {
        var d2 := AddWord(d1, AllGroup, false, w);
        forall v ensures GroupCount(d2, AllGroup, v) == OptedInTotal(d2, v) {
          AddWordTotal(d1, AllGroup, false, w, v);
          assert GroupCount(d1, AllGroup, v) == GroupCount(d, AllGroup, v);
        }
      } else {
        forall v ensures GroupCount(d1, AllGroup, v) == OptedInTotal(d1, v) {
          assert GroupCount(d1, AllGroup, v) == GroupCount(d, AllGroup, v);
        }
      }
    }
  }

  /** Recording a word for a user other than "all" keeps every user group's flag as `isBot` dictates. */
  lemma PutWordKeepsFlags(d: Data, word: string, user: string, isBot: string -> bool)
    requires FlagsFollow(d, isBot)
    requires user != AllGroup
    ensures FlagsFollow(PutWord(d, word, user, !isBot(user)), isBot)
  {
    if SanitizeWord(word) != [] {
      PutWordUserEffect(d, word, user, !isBot(user));
    }
  }

  lemma {:induction false} PutAllKeepsInvariant(d: Data, words: seq<string>, user: string, isBot: string -> bool)
    requires AllConsistent(d) && FlagsFollow(d, isBot)
    requires user != AllGroup
    ensures var d' := PutAll(d, words, user, !isBot(user));
            AllConsistent(d') && FlagsFollow(d', isBot)
    decreases |words|
  {
    if words != [] {
      var mid := PutAll(d, words[..|words| - 1], user, !isBot(user));
      PutAllKeepsInvariant(d, words[..|words| - 1], user, isBot);
      PutWordKeepsConsistent(mid, words[|words| - 1], user, !isBot(user));
      PutWordKeepsFlags(mid, words[|words| - 1], user, isBot);
    }
  }

  /**
   * After any history of chat messages, fed one by one to an initially
   * consistent store, the count of every word in "all" is the sum of its counts
   * over the groups that opted in — as long as every user's bot status never
   * changes and nobody is called "all".
   */
  lemma {:induction false} IngestKeepsConsistent(d: Data, ms: seq<Message>, urlRewrite: string -> string, isBot: string -> bool)
    requires AllConsistent(d) && FlagsFollow(d, isBot)
    requires forall i :: 0 <= i < |ms| ==> ms[i].author.username != AllGroup && ms[i].author.bot == isBot(ms[i].author.username)
    ensures var d' := Ingest(d, ms, urlRewrite);
            AllConsistent(d') && FlagsFollow(d', isBot)
    decreases |ms|
  {
    if ms != [] {
      var init := ms[..|ms| - 1];
      var mid := Ingest(d, init, urlRewrite);
      var m := ms[|ms| - 1];
      IngestKeepsConsistent(d, init, urlRewrite, isBot);
      var t := SanitizeMessage(m.content, urlRewrite);
      if !IsCommand(m.content) && |t| != 0 {
        PutAllKeepsInvariant(mid, Split(t), m.author.username, isBot);
      }
    }
  }

  /** The same, starting from the empty store the counter begins with. */
  lemma HistoryIsConsistent(ms: seq<Message>, urlRewrite: string -> string, isBot: string -> bool)
    requires forall i :: 0 <= i < |ms| ==> ms[i].author.username != AllGroup && ms[i].author.bot == isBot(ms[i].author.username)
    ensures forall w :: GroupCount(Ingest(map[], ms, urlRewrite), AllGroup, w) == OptedInTotal(Ingest(map[], ms, urlRewrite), w)
  {
    EmptyIsConsistent();
    IngestKeepsConsistent(map[], ms, urlRewrite, isBot);
  }
}
