/**
 * The word counter itself: the process-wide store of per-group word counts,
 * filled by Build and BuildMessage, and the three queries over it (top words
 * of a group, who says a word most, how often a group said one word).
 */
module Count {
  import opened Sanitizer
  import opened Tables
  import opened Ranking

  /** The error returns of the queries; the message texts are not modelled. */
  datatype QueryError =
    | NoOneSaid(word: string)
    | NoWords(target: string)
    | NoSuchDataset(target: string)
    | OnlySanitizedChars

  datatype Result<T> = Ok(value: T) | Err(error: QueryError)

  /** The successful answers of SingleWordCount. */
  datatype WordCountReply =
    | NeverSaid(target: string)
    | Said(who: string, word: string, times: nat)

  /** The name a group is shown under: "all" reads as "everyone". */
  function DisplayName(target: string): string {
    if target == AllGroup then "everyone" else target
  }

  /** The groups that opted in and have said `word`, each with its count of it. */
  ghost function RankTable(d: Data, word: string): map<string, nat> {
    map g | g in d && d[g].includeAll && word in d[g].counts :: d[g].counts[word]
  }

  /** The aggregate group never ranks in RankTable while it does not opt in itself. */
  lemma RankTableExcludesAll(d: Data, word: string)
    requires AllGroup in d ==> !d[AllGroup].includeAll
    ensures AllGroup !in RankTable(d, word)
  {
  }

  class CountStore {
    /** The groups, keyed by author name plus "all". */
    var data: Data
    /** What the URL pattern does to a lowercased text holding U+0008. */
    const urlRewrite: string -> string

    constructor (urlRewrite: string -> string)
      ensures data == map[] && this.urlRewrite == urlRewrite
    {
      data := map[];
      this.urlRewrite := urlRewrite;
    }

    predicate SetExists(name: string)
      reads this
    {
      name in data
    }

    /** Installs an empty group; its flag is never written again. */
    method CreateSet(name: string, includeAll: bool)
      modifies this
      ensures data == old(data)[name := Group(includeAll, map[])]
    {
      data := data[name := Group(includeAll, map[])];
    }

    /** Counts one occurrence of `word` in the existing group `name`. */
    method SingleUserPutWord(word: string, name: string)
      requires name in data
      modifies this
      ensures data == old(data)[name := old(data)[name].(counts := Increment(old(data)[name].counts, word))]
    {
      var userData := data[name];
      if word in userData.counts {
        data := data[name := userData.(counts := userData.counts[word := userData.counts[word] + 1])];
      } else {
        data := data[name := userData.(counts := userData.counts[word := 1])];
      }
    }

    /**
     * Records one token for `username` and, when asked, for "all". A word
     * just recorded is never reported as "never said" for its author.
     */
    method PutWord(word: string, username: string, includeInAll: bool)
      modifies this
      ensures data == Tables.PutWord(old(data), word, username, includeInAll)
      ensures SanitizeWord(word) == [] ==> data == old(data)
      ensures SanitizeWord(word) != [] ==> SingleWordCount(username, word).Ok? && SingleWordCount(username, word).value.Said?
    {
      var w := SanitizeWord(word);
      if |w| == 0 {
        return;
      }
      ghost var d0 := data;
      if !SetExists(username) {
        CreateSet(username, includeInAll);
      }
      SingleUserPutWord(w, username);
      AddWordInSteps(d0, username, includeInAll, w);
      if includeInAll {
        ghost var d1 := data;
        if !SetExists(AllGroup) {
          CreateSet(AllGroup, false);
        }
        SingleUserPutWord(w, AllGroup);
        AddWordInSteps(d1, AllGroup, false, w);
      }
      PutWordUserEffect(d0, word, username, includeInAll);
      assert GroupCount(data, username, w) > 0;
    }

    /** Records every token of a message text; nothing else in the store changes, nothing is lost. */
    method Build(text: string, username: string, includeInAll: bool)
      modifies this
      ensures data == BuildText(old(data), text, username, includeInAll, urlRewrite)
      ensures Grows(old(data), data)
    {
      ghost var d0 := data;
      var t := SanitizeMessage(text, urlRewrite);
      if |t| == 0 {
        return;
      }
      var words := Split(t);
      for i := 0 to |words|
        invariant data == PutAll(d0, words[..i], username, includeInAll)
      {
        PutAllSnoc(d0, words, i, username, includeInAll);
        PutWord(words[i], username, includeInAll);
      }
      assert words[..|words|] == words;
      BuildTextGrows(d0, text, username, includeInAll, urlRewrite);
    }

    /** Records a chat message unless it is a command; a bot's words stay out of "all". */
    method BuildMessage(m: Message)
      modifies this
      ensures data == Tables.BuildMessage(old(data), m, urlRewrite)
    {
      if IsCommand(m.content) {
        return;
      }
      Build(m.content, m.author.username, !m.author.bot);
    }

    /** The opted-in groups that have said `word`, with their count of it. */
    method CollectRankSet(word: string) returns (rankSet: map<string, nat>)
      ensures rankSet == RankTable(data, word)
    {
      rankSet := map[];
      var rest := data.Keys;
      ghost var done: set<string> := {};
      while rest != {}
        invariant rest <= data.Keys && done == data.Keys - rest
        invariant rankSet == map g | g in done && data[g].includeAll && word in data[g].counts :: data[g].counts[word]
        decreases rest
      {
        var setName :| setName in rest;
        var group := data[setName];
        if group.includeAll && word in group.counts {
          rankSet := rankSet[setName := group.counts[word]];
        }
        rest := rest - {setName};
        done := done + {setName};
      }
    }

    /** The top groups for `word`, among those that opted in; an error when none said it. */
    method WordRankedPerUser(word: string) returns (r: Result<seq<Line>>)
      ensures RankTable(data, word) == map[] ==> r == Err(NoOneSaid(word))
      ensures RankTable(data, word) != map[] ==> r.Ok? && IsTopRanking(r.value, RankTable(data, word))
    {
      var rankSet := CollectRankSet(word);
      var lines := TopLines(rankSet);
      TopRankingEmptyIff(lines, rankSet);
      if |lines| == 0 {
        r := Err(NoOneSaid(word));
      } else {
        r := Ok(lines);
      }
    }

    /**
     * The top words of group `target`; when there is no such group, `target`
     * is taken as a word and the top groups for it are returned instead.
     */
    method TopCount(target: string) returns (r: Result<seq<Line>>)
      ensures target !in data && RankTable(data, target) == map[] ==> r == Err(NoOneSaid(target))
      ensures target !in data && RankTable(data, target) != map[] ==> r.Ok? && IsTopRanking(r.value, RankTable(data, target))
      ensures target in data && data[target].counts == map[] ==> r == Err(NoWords(target))
      ensures target in data && data[target].counts != map[] ==> r.Ok? && IsTopRanking(r.value, data[target].counts)
    {
      if !SetExists(target) {
        r := WordRankedPerUser(target);
        return;
      }
      var lines := TopLines(data[target].counts);
      TopRankingEmptyIff(lines, data[target].counts);
      if |lines| == 0 {
        r := Err(NoWords(target));
      } else {
        r := Ok(lines);
      }
    }

    /**
     * How often group `target` said `word`, after sanitizing the word: an
     * error for an unknown group or a word that sanitizes to nothing, "never
     * said" when the word is absent, and otherwise the stored count, with "all"
     * shown as "everyone".
     */
    function SingleWordCount(target: string, word: string): (r: Result<WordCountReply>)
      reads this
      ensures r == Err(NoSuchDataset(target)) <==> target !in data
      ensures r == Err(OnlySanitizedChars) <==> target in data && SanitizeWord(word) == []
      ensures r.Ok? && r.value.NeverSaid? <==> target in data && SanitizeWord(word) != [] && SanitizeWord(word) !in data[target].counts
      ensures r.Ok? && r.value.NeverSaid? ==> r.value.target == target
      ensures target in data && SanitizeWord(word) != [] && SanitizeWord(word) in data[target].counts ==> r == Ok(Said(DisplayName(target), SanitizeWord(word), data[target].counts[SanitizeWord(word)]))
    {
      if target !in data then Err(NoSuchDataset(target))
      else
        var w := SanitizeWord(word);
        if |w| == 0 then Err(OnlySanitizedChars)
        else if w !in data[target].counts then Ok(NeverSaid(target))
        else Ok(Said(DisplayName(target), w, data[target].counts[w]))
    }
  }
}
