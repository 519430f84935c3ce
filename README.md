# Word counter of a chat bot, modelled in Dafny

The bot keeps a process-wide store of word counts, taken from chat messages.
The store is keyed by group. There is one group per author, plus an
aggregate group called `"all"`.

Every group carries two things:
- a flag `includeAll`, fixed when the group is created;
- a table from word to count.

How a message is recorded:
- A message whose content starts with `!` is a command, and it is not counted.
- Any other message is lowercased, passed through a URL pattern, and split on
  single spaces.
- Each token is sanitized. The pattern characters `` ` [ ] { } ( ) ? ' " , . & ``
  become spaces, then the spaces at both ends are trimmed.
- A token that sanitizes to nothing is skipped.
- Otherwise the token is counted in its author's group. When the author is
  not a bot, it is also counted in `"all"`.

The store answers three queries:
- `TopCount`: the top five words of a group. When no group has that name, the
  name is taken as a word, and the answer is the top five opted-in groups
  that said it.
- `wordRankedPerUser`: that second ranking.
- `SingleWordCount`: how often one group said one word.

How the model is laid out:
- `sanitizer.dfy` (module `Sanitizer`): lowercasing, character blanking,
  trimming, splitting on spaces and the message-level URL step.
- `tables.dfy` (module `Tables`): the store as a value. It gives the effect
  of recording one token (`PutWord`), a token list (`PutAll`), a message
  text (`BuildText`), a chat message (`BuildMessage`) and a history of
  messages (`Ingest`). It holds the lemmas about one insertion, about two single
  tokens commuting, about monotone growth and about command and bot
  messages.
- `consistency.dfy` (module `Consistency`): the invariant that the count of
  every word in `"all"` is the sum of its counts over the opted-in groups.
  It is proved to hold after any history of messages in which no author is
  named `"all"` and every username keeps one bot status.
- `ranking.dfy` (module `Ranking`): `getSortedSet`. Entries are collected
  from the map and insertion-sorted in place in an array. The method is
  proved to give a permutation of the entries in non-increasing order. The
  numbered top-5 cut (`TopLines`) is proved to be a top ranking.
- `count.dfy` (module `Count`): the store object `CountStore`. Its `data`
  field is reassigned by its methods. Each method is specified by the
  functions of `Tables`, and there are the three queries.
- `scenarios.dfy` (module `Scenarios`): worked examples on concrete texts.

Things the code does where a reader might expect something else; the model
follows the code:
- `!` is not a pattern character. `"world!"` and `"world"` are counted as
  two different words (`Scenarios.TwoUsersGreet`,
  `Scenarios.ExclamationMarkIsKept`).
- The URL pattern (internal/count/count.go:32) is written in an interpreted
  Go string literal, so its `\b` is the character U+0008 and not a word
  boundary. A match must contain U+0008. Ordinary links are therefore never
  removed; they are split and sanitized like other text
  (`Sanitizer.SanitizeMessageWithoutBackspace`). What the pattern does to a
  text that does contain U+0008 is a parameter `urlRewrite` of the model.
- The fallback from `TopCount` to `wordRankedPerUser` uses the target exactly
  as given, not sanitized. Stored words are sanitized, so a target with an
  upper-case letter or a pattern character finds no group.
- An apostrophe becomes a space inside a token: `"don't"` is stored as the
  single word `"don t"` (`Sanitizer.ApostropheLeavesInteriorSpace`).
- "Target has no words" is an error return (`NoWords`). It cannot happen for a
  store built from messages: groups are only created to receive a word
  (`Tables.HistoryHasNoEmptyGroups`).
- A user literally named `"all"` shares the aggregate group. A token counted
  for that user with the flag set is counted twice in it
  (`Tables.PutWordUserEffect`). The consistency invariant is proved for
  histories without such a user.

## Model

| member | source | states |
|---|---|---|
| Sanitizer.LowerChar | internal/count/count.go:44 | lowercasing one character gives no upper-case letter; upper-case ASCII letters move down by 32, every other character is kept |
| Sanitizer.BlankChar | internal/count/count.go:51 | a pattern character becomes a space, every other character is kept, and no pattern character is left |
| Sanitizer.TrimLeft | internal/count/count.go:52 | the result is a suffix of the input that does not start with a space, and everything dropped is a space |
| Sanitizer.TrimRight | internal/count/count.go:52 | the result is a prefix of the input that does not end with a space, and everything dropped is a space |
| Sanitizer.Trim | internal/count/count.go:52 | the result has no space at either end and is the slice of the input between runs of spaces at both ends |
| Sanitizer.SanitizeWordClean | internal/count/count.go:49-54 | a sanitized word holds no pattern character and no upper-case letter, and has no space at either end |
| Sanitizer.SanitizeWordIdempotent | internal/count/count.go:49-54 | sanitizing a sanitized word changes nothing |
| Sanitizer.SanitizeWordEmptyIff | internal/count/count.go:49-54 | a word sanitizes to the empty word exactly when each of its characters is a space or a pattern character |
| Sanitizer.LowerKeepsLowercase | internal/count/count.go:44 | lowercasing a text without upper-case letters returns it unchanged |
| Sanitizer.BlankKeepsClean | internal/count/count.go:31 | blanking a text without pattern characters returns it unchanged |
| Sanitizer.TrimKeepsTrimmed | internal/count/count.go:52 | trimming a text without edge spaces returns it unchanged |
| Sanitizer.SanitizeMessageWithoutBackspace | internal/count/count.go:32-47 | without U+0008 the URL pattern cannot match, so sanitizing a message only lowercases it |
| Sanitizer.ApostropheLeavesInteriorSpace | internal/count/count.go:49-54 | "don't" is stored as the single word "don t" |
| Sanitizer.Split | internal/count/count.go:63 | splitting on spaces gives at least one token, and no token holds a space |
| Sanitizer.JoinSplit | internal/count/count.go:63 | gluing the tokens of a split back with single spaces restores the text, so no character is lost |
| Sanitizer.SplitWordPrefix | internal/count/count.go:63 | a space-free prefix is glued onto the first token of the rest of the text |
| Sanitizer.SplitJoin | internal/count/count.go:63 | splitting space-free tokens glued with single spaces gives those tokens back |
| Tables.Increment | internal/count/count.go:90-96 | the counted word goes up by one, from 0 when it was absent, and every other word keeps its count |
| Tables.AddWord | internal/count/count.go:77-104 | the named group exists afterwards, with its old flag or with the given one when it is new; its counts are incremented at the word; every other group is unchanged |
| Tables.AddWordInSteps | internal/count/count.go:77-81 | creating an absent group and then counting in it is AddWord |
| Tables.PutAllSnoc | internal/count/count.go:65-67 | recording one more token is one more PutWord on the result so far |
| Tables.PutWordEmptyIsNoop | internal/count/count.go:71-75 | a token that sanitizes to nothing leaves the store exactly as it was |
| Tables.PutWordUserEffect | internal/count/count.go:70-96 | a non-empty token raises the user's count of the sanitized word by one (by two for a user named "all" with the flag set); other words and other groups are unchanged; the user's flag is the old one, or the caller's when the group is new |
| Tables.PutWordAllEffect | internal/count/count.go:82-87 | for another user, "all" gains exactly one occurrence of the sanitized word when the flag is set, and is created with includeAll false when absent; without the flag "all" is untouched |
| Tables.GrowsTransitive | internal/count/count.go:70-104 | growth of the store (no group lost, no flag changed, no count lowered) composes |
| Tables.AddWordGrows | internal/count/count.go:90-104 | counting one word in one group only grows the store |
| Tables.PutWordGrows | internal/count/count.go:70-88 | recording a token only grows the store: flags are frozen and counts are monotone |
| Tables.PutAllGrows | internal/count/count.go:65-67 | recording a list of tokens only grows the store |
| Tables.BuildTextGrows | internal/count/count.go:56-68 | recording a message text only grows the store |
| Tables.IngestGrows | internal/count/count.go:36-41 | recording any sequence of chat messages only grows the store |
| Tables.CommandIsIgnored | internal/count/count.go:37-39 | a message starting with "!" leaves the store unchanged |
| Tables.BotLeavesAllUntouched | internal/count/count.go:40-87 | tokens recorded without the flag (a bot's) leave "all" exactly as it was, present or absent |
| Tables.PutAllLeavesOthers | internal/count/count.go:65-96 | recording tokens for a user leaves every group other than that user's and "all" exactly as it was |
| Tables.BuildTextLeavesOthers | internal/count/count.go:56-68 | the same for a whole message text |
| Tables.PutWordKeepsGroupsNonEmpty | internal/count/count.go:70-88 | groups are only created to receive a word, so no group is left with an empty table |
| Tables.AddWordKeepsGroupsNonEmpty | internal/count/count.go:77-104 | counting a word in a group, created or not, leaves no group with an empty table |
| Tables.PutAllKeepsGroupsNonEmpty | internal/count/count.go:65-67 | the same for a list of tokens |
| Tables.HistoryHasNoEmptyGroups | internal/count/count.go:36-104 | after any history from the empty store every group has a word, so "target has no words" cannot be reached |
| Tables.IncrementCommutes | internal/count/count.go:90-96 | two increments give the same table in either order |
| Tables.AddWordCommutes | internal/count/count.go:77-81 | two group insertions commute when they agree on the flag of a shared group |
| Tables.BumpedElsewhere | internal/count/count.go:90-104 | counting in one group does not change what another group is bumped to |
| Tables.PutWordCommutes | internal/count/count.go:70-88 | recording two tokens of users other than "all" gives the same store in either order, when the two agree on the flag of a shared user |
| Consistency.SumOverRemove | internal/count/count.go:82-87 | any group can be taken out of the opted-in sum first |
| Consistency.SumOverCongruent | internal/count/count.go:82-87 | the opted-in sum only depends on the contributions of the groups summed |
| Consistency.AddWordTotal | internal/count/count.go:77-81 | counting a word in a group raises the opted-in total of that word by one exactly when the group opts in |
| Consistency.EmptyIsConsistent | internal/count/count.go:33 | the initial empty store satisfies the "all" invariant |
| Consistency.PutWordKeepsConsistent | internal/count/count.go:70-88 | recording a token, with the user's own flag, keeps every count in "all" equal to the sum over the opted-in groups |
| Consistency.PutWordKeepsFlags | internal/count/count.go:77-79 | every user group keeps the flag its bot status calls for |
| Consistency.PutAllKeepsInvariant | internal/count/count.go:65-67 | both invariants survive a list of tokens |
| Consistency.IngestKeepsConsistent | internal/count/count.go:36-41 | both invariants survive any history of chat messages |
| Consistency.HistoryIsConsistent | internal/count/count.go:36-87 | from the empty store, after any history whose authors keep their bot status and are not named "all", each word's count in "all" is the sum of its counts over the opted-in groups |
| Ranking.SwapDown | internal/count/count.go:117-119 | one swap of neighbouring cells of the sort |
| Ranking.InsertingStart | internal/count/count.go:117-119 | a sorted prefix is an insertion state with the moving cell in place |
| Ranking.InsertingStep | internal/count/count.go:117-119 | swapping the moving cell with a smaller left neighbour keeps the insertion state one cell down |
| Ranking.InsertingDone | internal/count/count.go:117-119 | when the moving cell has stopped, the prefix one longer is sorted |
| Ranking.InsertCell | internal/count/count.go:117-119 | one cell moves into a sorted prefix, which becomes one longer, and the array is a permutation of its old contents |
| Ranking.SortByCount | internal/count/count.go:117-119 | the array ends sorted by count, largest first, and is a permutation of its old contents |
| Ranking.EntriesOfAddKey | internal/count/count.go:113-115 | collecting one more key adds exactly its entry |
| Ranking.CollectEntries | internal/count/count.go:112-115 | the entries of the map are collected, each exactly once, in an unspecified order |
| Ranking.GetSortedSet | internal/count/count.go:111-122 | the result has one cell per entry of the map, is a permutation of its entries and is in non-increasing order of count |
| Ranking.DuplicateCountsTwice | internal/count/count.go:113-115 | two equal cells count twice in the multiset |
| Ranking.PermutationOfEntries | internal/count/count.go:113-115 | a permutation of the entries lists every entry of the map exactly once and nothing else |
| Ranking.UnlistedIsSmaller | internal/count/count.go:137-139 | an entry cut off after the first lines of a sorted listing has no larger count than a line shown |
| Ranking.PrefixIsTopRanking | internal/count/count.go:137-144 | the first min(n, 5) cells of a sorted listing, numbered from 1, form a top ranking of the map |
| Ranking.TopLines | internal/count/count.go:135-169 | the displayed lines are a top ranking: min(size, 5) lines, ranks 1.., each an entry of the map, distinct keys, non-increasing counts, and no entry left out beats one shown |
| Ranking.TopRankingEmptyIff | internal/count/count.go:146-148 | a top ranking is empty exactly when the map is |
| Count.RankTableExcludesAll | internal/count/count.go:127-133 | "all" never ranks while it does not opt in itself |
| Count.CountStore.constructor | internal/count/count.go:30-34 | the store starts empty |
| Count.CountStore.CreateSet | internal/count/count.go:98-104 | installs an empty group with the given flag and changes nothing else |
| Count.CountStore.SingleUserPutWord | internal/count/count.go:90-96 | increments the word in the named group and changes nothing else |
| Count.CountStore.PutWord | internal/count/count.go:70-88 | the new store is the effect of recording the token; an empty token changes nothing; a non-empty one is afterwards reported as said by its user |
| Count.CountStore.Build | internal/count/count.go:56-68 | the new store is the effect of recording the message text token by token, and it has only grown |
| Count.CountStore.BuildMessage | internal/count/count.go:36-41 | the new store is the effect of the chat message: commands are ignored, and the author's bot status decides the flag |
| Count.CountStore.CollectRankSet | internal/count/count.go:126-133 | the collected table holds exactly the opted-in groups that said the word, each with its count of it |
| Count.CountStore.WordRankedPerUser | internal/count/count.go:124-151 | "no one has said" exactly when no opted-in group has the word; otherwise a top ranking of the opted-in groups by their count of the word |
| Count.CountStore.TopCount | internal/count/count.go:154-176 | for an unknown group, the ranking of groups for the raw target taken as a word; for a known group, NoWords when its table is empty, and otherwise a top ranking of its words |
| Count.CountStore.SingleWordCount | internal/count/count.go:179-203 | an unknown group, a word that sanitizes to nothing and an absent word each give their own answer, each in exactly its case; when the group exists and has the sanitized word, the answer is exactly that word with its stored count, with "all" shown as "everyone" |
| Scenarios.CleanWordIsFixed | internal/count/count.go:49-54 | a lowercase word without pattern characters or edge spaces is its own sanitized form |
| Scenarios.SplitTwo | internal/count/count.go:63 | two space-free words joined by one space split into those two words |
| Scenarios.PutAllTwo | internal/count/count.go:65-67 | two tokens are recorded first to last |
| Scenarios.BuildTextPlain | internal/count/count.go:56-68 | a non-empty text without U+0008 is recorded as the tokens of its lowercased form |
| Scenarios.BuildTwoTokens | internal/count/count.go:56-68 | a two-token text is recorded as its two tokens in order |
| Scenarios.AllStep | internal/count/count.go:82-87 | one opted-in token moves its word's count in "all" by one and no other word |
| Scenarios.UserStep | internal/count/count.go:81 | one token moves its word's count for its user by one and no other word |
| Scenarios.TwoTokensCounts | internal/count/count.go:56-88 | a two-token message adds one to the sanitized form of each token, in "all" and for its author, and changes no other word |
| Scenarios.ExclamationMarkIsKept | internal/count/count.go:49-54 | the query word "World!" is looked up as "world!", which is a different word from "world" |
| Scenarios.WorldBangLowered | internal/count/count.go:50 | "World!" lowercases to "world!" |
| Scenarios.HelloIsClean | internal/count/count.go:49-54 | "hello" is its own sanitized form |
| Scenarios.HelloCommaIsHello | internal/count/count.go:49-54 | "hello," sanitizes to "hello": the comma becomes a space and is trimmed |
| Scenarios.WorldIsClean | internal/count/count.go:49-54 | "world" is its own sanitized form |
| Scenarios.WorldBangIsClean | internal/count/count.go:49-54 | "world!" is its own sanitized form |
| Scenarios.AliceText | internal/count/count.go:44 | "Hello, world!" lowercases to "hello, world!", holding no U+0008 |
| Scenarios.BobText | internal/count/count.go:44 | "hello world" is already lowercase and holds no U+0008 |
| Scenarios.AliceCounts | internal/count/count.go:56-88 | "Hello, world!" from an opted-in user gives any word 1 in "all" and for alice when it is "hello" or "world!", and 0 otherwise |
| Scenarios.AliceGreets | internal/count/count.go:56-88 | "Hello, world!" from an opted-in user counts "hello" (its comma blanked and trimmed) and "world!" once each in "all", and never "world" |
| Scenarios.BobGreets | internal/count/count.go:56-88 | "hello world" adds one "hello" and one "world" to "all" and leaves "world!" alone |
| Scenarios.TwoUsersGreet | internal/count/count.go:36-88 | after both messages, "all" has "hello" 2, "world!" 1 and "world" 1, and alice has never said "world" |

## Left out

- Lowercasing is ASCII only. Go's `strings.ToLower` folds all of Unicode, and the model does not.
- The regular-expression engine is not modelled. The pattern-character class is written out as a predicate. The URL replacement on a text that contains U+0008 is the parameter `urlRewrite`.
- Output text is not modelled. `fmt.Sprintf` lines are the `Line` datatype, the answers of `SingleWordCount` are `WordCountReply`, errors are `QueryError`, and the `"\n"` join of the lines is not modelled.
- The `log.Info` calls are left out; they have no effect on the store or the answers.
- Go map iteration order is not modelled. Entries are collected in an unspecified order (`:|`). The model's sort is an insertion sort, while `sort.Slice` is not stable, so the order among equal counts is left open. `IsTopRanking` states only what holds for every such order.
- Count width is not modelled: counts are unbounded `nat`, and Go's `int` would wrap after 2^63 - 1 occurrences.
- Concurrency is left out. The Go store is an unsynchronised global map; the model is a single object used by one caller.
- The Discord session, fetching messages and command dispatch are not part of this model (cmd/main/main.go). Neither is the emoji ranking.
- Count.CountStore.SetExists: a plain predicate with no contract. It is only a membership test of the map, and the methods that call it are specified.
- Tables.PutWordCommutes: only two tokens are swapped, with users other than "all" that agree on a shared user's flag. Rearranging a whole history is not stated.
- Consistency.HistoryIsConsistent: stated only for histories in which no author is named "all" and every author keeps one bot status. Without those, the Go code does break the equality.
