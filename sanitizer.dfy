/**
 * Text normalisation used by the word counter: lowercasing, the punctuation
 * sanitizer, trimming, URL stripping and the split of a message into tokens.
 */
module Sanitizer {

  /** U+0008. The URL pattern of the counter holds this character literally. */
  const Backspace: char := '\U{8}'

  predicate IsUpper(c: char) {
    'A' <= c <= 'Z'
  }

  /** Lowercasing of one character (ASCII letters only). */
  function LowerChar(c: char): (r: char)
    ensures !IsUpper(r)
    ensures IsUpper(c) ==> r as int == c as int + 32
    ensures !IsUpper(c) ==> r == c
  {
    if IsUpper(c) then (c as int + 32) as char else c
  }

  function Lower(s: string): string {
    seq(|s|, i requires 0 <= i < |s| => LowerChar(s[i]))
  }

  /** The characters matched by the sanitizer pattern: ` [ ] { } ( ) ? ' " , . & */
  predicate IsStripped(c: char) {
    || c == '`' || c == '[' || c == ']' || c == '{' || c == '}' || c == '(' || c == ')'
    || c == '?' || c == '\'' || c == '"' || c == ',' || c == '.' || c == '&'
  }

  /** A sanitizer character becomes a space; every other character is kept. */
  function BlankChar(c: char): (r: char)
    ensures !IsStripped(r)
    ensures IsStripped(c) ==> r == ' '
    ensures !IsStripped(c) ==> r == c
  {
    if IsStripped(c) then ' ' else c
  }

  /** Replaces every sanitizer character by a space. */
  function Blank(s: string): string {
    seq(|s|, i requires 0 <= i < |s| => BlankChar(s[i]))
  }

  /** Drops the leading spaces: what is left is a suffix of `s` and all that was dropped is spaces. */
  function TrimLeft(s: string): (r: string)
    ensures |r| <= |s| && r == s[|s| - |r|..]
    ensures r == [] || r[0] != ' '
    ensures forall i :: 0 <= i < |s| - |r| ==> s[i] == ' '
  {
    if s != [] && s[0] == ' ' then TrimLeft(s[1..]) else s
  }

  /** Drops the trailing spaces: what is left is a prefix of `s` and all that was dropped is spaces. */
  function TrimRight(s: string): (r: string)
    ensures |r| <= |s| && r == s[..|r|]
    ensures r == [] || r[|r| - 1] != ' '
    ensures forall i :: |r| <= i < |s| ==> s[i] == ' '
  {
    if s != [] && s[|s| - 1] == ' ' then TrimRight(s[..|s| - 1]) else s
  }

  /** The number of leading spaces of `s`. */
  function Leading(s: string): (n: nat)
    ensures n <= |s| && forall i :: 0 <= i < n ==> s[i] == ' '
  {
    |s| - |TrimLeft(s)|
  }

  /** Trimming with the cutset " ": removes every space at both ends and nothing else. */
  function Trim(s: string): (r: string)
    ensures r == [] || (r[0] != ' ' && r[|r| - 1] != ' ')
    ensures Leading(s) + |r| <= |s| && r == s[Leading(s)..Leading(s) + |r|]
    ensures forall i :: Leading(s) + |r| <= i < |s| ==> s[i] == ' '
  {
    TrimRight(TrimLeft(s))
  }

  /** A token in canonical form: lowercased, pattern characters blanked, spaces trimmed. */
  function SanitizeWord(word: string): string {
    Trim(Blank(Lower(word)))
  }

  /**
   * Lowercases a whole message and then applies the URL pattern. The pattern
   * contains a literal U+0008, so a match has to contain one: without it the
   * replacement leaves the text alone. What the pattern does to a text that
   * does contain U+0008 is the regular-expression engine's business, given
   * here as `urlRewrite`.
   */
  function SanitizeMessage(text: string, urlRewrite: string -> string): string {
    var lowered := Lower(text);
    if Backspace in lowered then urlRewrite(lowered) else lowered
  }

  /** Splitting on every single space; consecutive spaces give empty tokens. */
  function Split(s: string): (r: seq<string>)
    ensures |r| >= 1
    ensures forall i :: 0 <= i < |r| ==> ' ' !in r[i]
  {
    if s == [] then [[]]
    else
      var rest := Split(s[1..]);
      if s[0] == ' ' then [[]] + rest else [[s[0]] + rest[0]] + rest[1..]
  }

  /** The inverse of Split: the tokens glued back with single spaces. */
  function Join(ws: seq<string>): string
    requires |ws| >= 1
    decreases |ws|
  {
    if |ws| == 1 then ws[0] else ws[0] + " " + Join(ws[1..])
  }

  // ----- properties -----

  /** A sanitized word holds no pattern character, no upper-case letter and no space at either end. */
  lemma SanitizeWordClean(word: string)
    ensures var r := SanitizeWord(word);
            && (forall i :: 0 <= i < |r| ==> !IsStripped(r[i]) && !IsUpper(r[i]))
            && (r == [] || (r[0] != ' ' && r[|r| - 1] != ' '))
  {
    var b := Blank(Lower(word));
    var r := Trim(b);
    var lo := Leading(b);
    forall i | 0 <= i < |r| ensures !IsStripped(r[i]) && !IsUpper(r[i]) {
      assert r[i] == b[lo + i];
    }
  }

  lemma LowerKeepsLowercase(s: string)
    requires forall i :: 0 <= i < |s| ==> !IsUpper(s[i])
    ensures Lower(s) == s
  {
  }

  lemma BlankKeepsClean(s: string)
    requires forall i :: 0 <= i < |s| ==> !IsStripped(s[i])
    ensures Blank(s) == s
  {
  }

  lemma TrimKeepsTrimmed(s: string)
    requires s == [] || (s[0] != ' ' && s[|s| - 1] != ' ')
    ensures Trim(s) == s
  {
    assert TrimLeft(s) == s;
  }

  /** Sanitizing a sanitized word changes nothing. */
  lemma SanitizeWordIdempotent(word: string)
    ensures SanitizeWord(SanitizeWord(word)) == SanitizeWord(word)
  {
    var r := SanitizeWord(word);
    SanitizeWordClean(word);
    LowerKeepsLowercase(r);
    BlankKeepsClean(r);
    TrimKeepsTrimmed(r);
  }

  /** A word sanitizes to nothing exactly when each of its characters is a space or a pattern character. */
  lemma SanitizeWordEmptyIff(word: string)
    ensures SanitizeWord(word) == [] <==> forall i :: 0 <= i < |word| ==> word[i] == ' ' || IsStripped(word[i])
  {
    var b := Blank(Lower(word));
    var r := Trim(b);
    var lo := Leading(b);
    if r == [] {
      forall i | 0 <= i < |word| ensures word[i] == ' ' || IsStripped(word[i]) {
        assert b[i] == ' ';
      }
    } else {
      assert b[lo] == r[0] != ' ';
      assert !IsStripped(word[lo]) && word[lo] != ' ';
    }
  }

  /** Only ASCII upper-case letters are changed by lowercasing. */
  lemma SanitizeMessageWithoutBackspace(text: string, urlRewrite: string -> string)
    requires Backspace !in text
    ensures var r := SanitizeMessage(text, urlRewrite);
            |r| == |text| && forall i :: 0 <= i < |text| ==> r[i] == LowerChar(text[i])
  {
  }

  lemma {:induction false} JoinSplit(s: string)
    ensures Join(Split(s)) == s
  {
    if s != [] {
      var rest := Split(s[1..]);
      JoinSplit(s[1..]);
      if s[0] == ' ' {
        assert Split(s) == [[]] + rest;
        assert Join(Split(s)) == [] + " " + Join(rest);
        assert s == [s[0]] + s[1..];
      } else if |rest| == 1 {
        assert Split(s) == [[s[0]] + rest[0]];
        assert s == [s[0]] + s[1..];
      } else {
        var r := [[s[0]] + rest[0]] + rest[1..];
        assert Split(s) == r;
        assert r[1..] == rest[1..];
        assert Join(rest) == rest[0] + " " + Join(rest[1..]);
        assert Join(r) == [s[0]] + rest[0] + " " + Join(rest[1..]);
        assert s == [s[0]] + s[1..];
      }
    }
  }

  /** Splitting a space-free word followed by more text extends the first token. */
  lemma {:induction false} SplitWordPrefix(w: string, t: string)
    requires ' ' !in w
    ensures Split(w + t) == [w + Split(t)[0]] + Split(t)[1..]
  {
    if w != [] {
      var st := Split(t);
      assert (w + t)[0] == w[0] && (w + t)[1..] == w[1..] + t;
      SplitWordPrefix(w[1..], t);
      var rest := Split(w[1..] + t);
      assert rest[0] == w[1..] + st[0] && rest[1..] == st[1..];
      assert [w[0]] + (w[1..] + st[0]) == w + st[0];
    } else {
      assert w + t == t;
      assert w + Split(t)[0] == Split(t)[0];
      assert Split(t) == [Split(t)[0]] + Split(t)[1..];
    }
  }

  /** Tokens without spaces survive a Join followed by a Split. */
  lemma {:induction false} SplitJoin(ws: seq<string>)
    requires |ws| >= 1
    requires forall i :: 0 <= i < |ws| ==> ' ' !in ws[i]
    ensures Split(Join(ws)) == ws
  {
    if |ws| == 1 {
      SplitWordPrefix(ws[0], []);
      assert ws[0] + [] == ws[0];
    } else {
      var tail := Join(ws[1..]);
      SplitJoin(ws[1..]);
      assert ws[0] + " " + tail == ws[0] + (" " + tail);
      SplitWordPrefix(ws[0], " " + tail);
      assert (" " + tail)[1..] == tail;
      assert Split(" " + tail) == [[]] + ws[1..];
      assert ws[0] + [] == ws[0];
      assert ws == [ws[0]] + ws[1..];
    }
  }

  /** The token "don't" keeps an interior space once sanitized. */
  lemma ApostropheLeavesInteriorSpace()
    ensures SanitizeWord("don't") == "don t"
  {
    assert Lower("don't") == "don't";
    assert Blank("don't") == "don t";
    assert TrimLeft("don t") == "don t";
    assert TrimRight("don t") == "don t";
  }
}
