/**
 * Ranking of a count table: its entries ordered by count, largest first, and
 * the numbered top entries that the counter displays.
 */
module Ranking {

  /** An entry of a count table: a word (or a group name) and its count. */
  datatype Pair = Pair(key: string, value: nat)

  /** One displayed line "rank. key: count", kept as data. */
  datatype Line = Line(rank: nat, key: string, count: nat)

  /** The number of lines a ranking shows. */
  const DisplayLimit: nat := 5

  /** The entries of a count table. */
  ghost function Entries(m: map<string, nat>): set<Pair> {
    set k | k in m :: Pair(k, m[k])
  }

  ghost predicate SortedByCount(s: seq<Pair>) {
    forall i, j :: 0 <= i < j < |s| ==> s[i].value >= s[j].value
  }

  /** `k` is the key of some line of `lines`. */
  ghost predicate Listed(lines: seq<Line>, k: string) {
    exists i :: 0 <= i < |lines| && lines[i].key == k
  }

  /**
   * `lines` is a top ranking of `m`: as many lines as the display limit allows,
   * numbered from 1, each an entry of `m` listed once, counts non-increasing,
   * and no entry left out has a larger count than one shown.
   */
  ghost predicate IsTopRanking(lines: seq<Line>, m: map<string, nat>) {
    && |lines| == (if |m| < DisplayLimit then |m| else DisplayLimit)
    && (forall i :: 0 <= i < |lines| ==> lines[i].rank == i + 1)
    && (forall i :: 0 <= i < |lines| ==> lines[i].key in m && m[lines[i].key] == lines[i].count)
    && (forall i, j :: 0 <= i < j < |lines| ==> lines[i].key != lines[j].key)
    && (forall i, j :: 0 <= i < j < |lines| ==> lines[i].count >= lines[j].count)
    && (forall k :: k in m && !Listed(lines, k) ==> forall i :: 0 <= i < |lines| ==> m[k] <= lines[i].count)
  }

  /** Swaps two neighbouring cells. */
  method SwapDown(a: array<Pair>, j: nat)
    requires 0 < j < a.Length
    modifies a
    ensures a[..] == old(a[..])[j - 1 := old(a[j])][j := old(a[j - 1])]
    ensures multiset(a[..]) == old(multiset(a[..]))
  {
    a[j - 1], a[j] := a[j], a[j - 1];
  }

  /** The cells of `s` below `n` are sorted by count, largest first. */
  ghost predicate SortedPrefix(s: seq<Pair>, n: int) {
    forall p, q :: 0 <= p < q < n && q < |s| ==> s[p].value >= s[q].value
  }

  /**
   * Insertion of cell `i` in progress, the moving cell now at `j`: the other
   * cells up to `i` are sorted, the moving cell beats every cell after it, and
   * its neighbours are in order.
   */
  ghost predicate Inserting(s: seq<Pair>, i: int, j: int) {
    && 0 <= j <= i < |s|
    && (forall p, q :: 0 <= p < q <= i && p != j && q != j ==> s[p].value >= s[q].value)
    && (forall q :: j < q <= i ==> s[j].value > s[q].value)
    && (0 < j < i ==> s[j - 1].value >= s[j + 1].value)
  }

  lemma InsertingStart(s: seq<Pair>, i: int)
    requires 0 <= i < |s| && SortedPrefix(s, i)
    ensures Inserting(s, i, i)
  {
  }

  lemma InsertingStep(s: seq<Pair>, i: int, j: int)
    requires Inserting(s, i, j) && j > 0 && s[j - 1].value < s[j].value
    ensures Inserting(s[j - 1 := s[j]][j := s[j - 1]], i, j - 1)
  {
  }

  lemma InsertingDone(s: seq<Pair>, i: int, j: int)
    requires Inserting(s, i, j) && (j == 0 || s[j - 1].value >= s[j].value)
    ensures SortedPrefix(s, i + 1)
  {
  }

  /** Moves cell `i` down into the sorted cells below it. */
  method InsertCell(a: array<Pair>, i: nat)
    requires i < a.Length && SortedPrefix(a[..], i)
    modifies a
    ensures SortedPrefix(a[..], i + 1)
    ensures multiset(a[..]) == old(multiset(a[..]))
  {
    var j := i;
    InsertingStart(a[..], i);
    while j > 0 && a[j - 1].value < a[j].value
      invariant Inserting(a[..], i, j)
      invariant multiset(a[..]) == old(multiset(a[..]))
    {
      InsertingStep(a[..], i, j);
      SwapDown(a, j);
      j := j - 1;
    }
    InsertingDone(a[..], i, j);
  }

  /** Sorts the cells of `a` in place by count, largest first (insertion sort). */
  method SortByCount(a: array<Pair>)
    modifies a
    ensures SortedByCount(a[..])
    ensures multiset(a[..]) == old(multiset(a[..]))
  {
    for i := 0 to a.Length
      invariant SortedPrefix(a[..], i)
      invariant multiset(a[..]) == old(multiset(a[..]))
    {
      InsertCell(a, i);
    }
  }

  /** The entries of `m` whose keys are in `keys`. */
  ghost function EntriesOf(m: map<string, nat>, keys: set<string>): set<Pair> {
    set k | k in keys && k in m :: Pair(k, m[k])
  }

  lemma EntriesOfAddKey(m: map<string, nat>, keys: set<string>, k: string)
    requires k in m && k !in keys
    ensures multiset(EntriesOf(m, keys + {k})) == multiset(EntriesOf(m, keys)) + multiset{Pair(k, m[k])}
  {
    var before, after := EntriesOf(m, keys), EntriesOf(m, keys + {k});
    assert after == before + {Pair(k, m[k])};
    assert Pair(k, m[k]) !in before;
  }

  /** Collects the entries of a count table, in no particular order. */
  method CollectEntries(m: map<string, nat>) returns (collected: seq<Pair>)
    ensures |collected| == |m|
    ensures multiset(collected) == multiset(Entries(m))
  {
    collected := [];
    ghost var done: set<string> := {};
    var rest := m.Keys;
    while rest != {}
      invariant rest <= m.Keys && done == m.Keys - rest
      invariant |collected| + |rest| == |m|
      invariant multiset(collected) == multiset(EntriesOf(m, done))
      decreases rest
    {
      var k :| k in rest;
      EntriesOfAddKey(m, done, k);
      collected := collected + [Pair(k, m[k])];
      rest := rest - {k};
      done := done + {k};
    }
    assert EntriesOf(m, done) == Entries(m);
  }

  /** Collects the entries of a count table and orders them by count, largest first. */
  method GetSortedSet(m: map<string, nat>) returns (r: seq<Pair>)
    ensures |r| == |m|
    ensures SortedByCount(r)
    ensures multiset(r) == multiset(Entries(m))
  {
    var collected := CollectEntries(m);
    var a := new Pair[|collected|](i requires 0 <= i < |collected| => collected[i]);
    assert a[..] == collected;
    SortByCount(a);
    r := a[..];
  }

  /** Two equal cells of a sequence count twice in its multiset. */
  lemma DuplicateCountsTwice(s: seq<Pair>, i: nat, j: nat)
    requires i < j < |s| && s[i] == s[j]
    ensures multiset(s)[s[i]] >= 2
  {
    assert s == s[..j] + s[j..];
    assert s[i] in s[..j];
    assert s[j..][0] == s[j];
    assert multiset(s) == multiset(s[..j]) + multiset(s[j..]);
  }

  /**
   * A sequence with the multiset of a table's entries lists each entry of the
   * table exactly once.
   */
  lemma PermutationOfEntries(r: seq<Pair>, m: map<string, nat>)
    requires multiset(r) == multiset(Entries(m))
    ensures forall i :: 0 <= i < |r| ==> r[i].key in m && m[r[i].key] == r[i].value
    ensures forall k :: k in m ==> exists i :: 0 <= i < |r| && r[i] == Pair(k, m[k])
    ensures forall i, j :: 0 <= i < j < |r| ==> r[i].key != r[j].key
  {
    forall i | 0 <= i < |r| ensures r[i].key in m && m[r[i].key] == r[i].value {
      assert r[i] in multiset(r);
    }
    forall k | k in m ensures exists i :: 0 <= i < |r| && r[i] == Pair(k, m[k]) {
      assert Pair(k, m[k]) in multiset(r);
    }
    forall i, j | 0 <= i < j < |r| ensures r[i].key != r[j].key {
      assert r[i] in multiset(r) && r[j] in multiset(r);
      if r[i].key == r[j].key {
        DuplicateCountsTwice(r, i, j);
      }
    }
  }

  /** An entry placed after the shown lines of a sorted listing has no larger count than any of them. */
  lemma UnlistedIsSmaller(r: seq<Pair>, m: map<string, nat>, lines: seq<Line>, k: string)
    requires SortedByCount(r) && |lines| <= |r|
    requires forall i :: 0 <= i < |lines| ==> lines[i] == Line(i + 1, r[i].key, r[i].value)
    requires k in m && !Listed(lines, k)
    requires exists idx :: 0 <= idx < |r| && r[idx] == Pair(k, m[k])
    ensures forall i :: 0 <= i < |lines| ==> m[k] <= lines[i].count
  {
    var idx :| 0 <= idx < |r| && r[idx] == Pair(k, m[k]);
    assert forall i :: 0 <= i < |lines| ==> lines[i].key != k;
    forall i | 0 <= i < |lines| ensures m[k] <= lines[i].count {
      assert lines[i].count == r[i].value;
    }
  }

  /** The first lines of a sorted listing of the entries of `m`, numbered, form a top ranking. */
  lemma PrefixIsTopRanking(r: seq<Pair>, m: map<string, nat>, lines: seq<Line>)
    requires |r| == |m| && SortedByCount(r) && multiset(r) == multiset(Entries(m))
    requires |lines| == (if |r| < DisplayLimit then |r| else DisplayLimit)
    requires forall i :: 0 <= i < |lines| ==> lines[i] == Line(i + 1, r[i].key, r[i].value)
    ensures IsTopRanking(lines, m)
  {
    PermutationOfEntries(r, m);
    forall i | 0 <= i < |lines| ensures lines[i].key in m && m[lines[i].key] == lines[i].count {
      assert lines[i].key == r[i].key && lines[i].count == r[i].value;
    }
    forall i, j | 0 <= i < j < |lines| ensures lines[i].key != lines[j].key && lines[i].count >= lines[j].count {
      assert lines[i].key == r[i].key && lines[j].key == r[j].key;
    }
    forall k | k in m && !Listed(lines, k) ensures forall i :: 0 <= i < |lines| ==> m[k] <= lines[i].count {
      UnlistedIsSmaller(r, m, lines, k);
    }
  }

  /**
   * The numbered top entries of a count table: sorted, cut down to the
   * display limit and numbered from 1.
   */
  method TopLines(m: map<string, nat>) returns (lines: seq<Line>)
    ensures IsTopRanking(lines, m)
  {
    var sorted := GetSortedSet(m);
    var shown := if |sorted| > DisplayLimit then sorted[..DisplayLimit] else sorted;
    lines := [];
    for i := 0 to |shown|
      invariant |lines| == i
      invariant forall j :: 0 <= j < i ==> lines[j] == Line(j + 1, shown[j].key, shown[j].value)
    {
      lines := lines + [Line(i + 1, shown[i].key, shown[i].value)];
    }
    PrefixIsTopRanking(sorted, m, lines);
  }

  /** A top ranking is empty exactly when the table is. */
  lemma TopRankingEmptyIff(lines: seq<Line>, m: map<string, nat>)
    requires IsTopRanking(lines, m)
    ensures lines == [] <==> m == map[]
  {
    if m != map[] {
      var k :| k in m;
      assert |m| >= 1;
    }
  }
}
