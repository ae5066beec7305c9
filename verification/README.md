# Bigram Markov chain and CSV record parser, modelled in Dafny

This project models two pieces of a Java program that trains a bigram Markov chain on tokenised tweets and regenerates tweets from it.

- **`MarkovChain`** has two frequency tables. `startTokens` counts the first token of each training sequence. `bigramFrequencies` maps each token to a table counting the tokens that followed it. `"<END>"` (`END_TOKEN`) closes every sequence.
  - Training is `addBigram`, `addSequence` and the list constructor.
  - Sampling is the walk iterator (`MarkovChainIterator`). A number generator drives it: each number picks the next token by cumulative count.
  - `findWalkChoices` inverts the walk. It computes the numbers that make the walk produce a given list of words.
- **`CSV`** splits one line into comma-separated fields. A double quote toggles a mode in which commas belong to the field. `extractColumn` selects one field with bounds checks.

Files:

- `wrappers.dfy`: `Option` and `Result`, plus the exception kinds as an `Error` datatype.
- `string_order.dfy`: `String.compareTo`, the key order of a `TreeMap<String, _>`. It is proved to be a strict total order.
- `number_generator.dfy`: the replay number generator.
- `distribution.dfy`: `ProbabilityDistribution` as a list of `(key, count)` entries.
  - Counts are positive and keys strictly ascending (the subset type `Dist`).
  - Supports `record`, `pick` and `index`.
- `markov_chain.dfy`: the chain and its training.
- `markov_walk.dfy`: the walk iterator, `getWalk` and `findWalkChoices`.
- `markov_example.dfy`: the illustrative example of the class documentation.
- `csv.dfy`: `parseRecord` and `extractColumn`.

Modelling choices:

- Java `null` becomes `None`, and each exception becomes an `Err` of the matching kind.
- The mutable chain becomes an immutable `Chain` value, and training is a function from chain to chain.
- The `Iterator<String>` handed to `addSequence` becomes the sequence it would yield.
- An iterator that is drained to the end becomes `RunWalk`: the list of words returned while `hasNext()` holds, or the first exception thrown.
- `parseRecord`'s loop is the left fold `Run` of one step per character.
- The properties are stated against independent reference definitions:
  - bigram multisets (`Bigrams`, `AllBigrams`);
  - the positional definition of a separator, a comma preceded by an even number of quotes (`IsSeparator`);
  - the comma join of a list of fields (`Join`).

Where the code and its own documentation disagree, the model follows the code:

- `findWalkChoices` documents an `IllegalArgumentException` for a word that is not a key of the chain. The code instead calls `index` on the `null` that `bigramFrequencies.get` returns, which gives a `NullPointerException`. This is modelled as `Err(NullPointer)`.
- On a chain built by training, that can only happen when a word is the literal `"<END>"`. `SentinelCollision` shows that such a word also breaks the round trip.

## Model

| member | source | states |
|---|---|---|
| StringOrder.LessTransitive | src/main/java/org/cis1200/MarkovChain.java:123 | the `TreeMap` key order is transitive |
| StringOrder.LessTotal | src/main/java/org/cis1200/MarkovChain.java:123 | any two distinct keys are ordered one way or the other, so key order is deterministic |
| NumberGenerator.NextNumber | src/main/java/org/cis1200/MarkovChain.java:278-292 | a replay generator hands out its numbers front to back. It succeeds exactly when a number remains and it lies in `[0, bound)`; an exhausted generator is `NoSuchElement` |
| Distribution.Record | src/main/java/org/cis1200/MarkovChain.java:161-168 | `record(k)` raises the count of `k` by one and leaves every other count unchanged. The key set gains `k`, the total grows by one, and the table stays sorted with positive counts |
| Distribution.CountsDetermine | src/main/java/org/cis1200/MarkovChain.java:109-112 | two tables with the same count for every key are the same table: the ordering is reproducible |
| Distribution.TallyCounts | src/main/java/org/cis1200/MarkovChain.java:196-205 | recording a list of words counts each word by its multiplicity in the list |
| Distribution.PickIndex | src/main/java/org/cis1200/MarkovChain.java:282-292 | `pick(i)` succeeds exactly for `0 <= i < total`. It returns `k` exactly when `i` lies in `k`'s cumulative range `[before(k), before(k) + count(k))` |
| Distribution.Index | src/main/java/org/cis1200/MarkovChain.java:405-410 | `index(k)` succeeds exactly when `k` has been recorded, and then equals the summed counts of the smaller keys |
| Distribution.PickIndexInverse | src/main/java/org/cis1200/MarkovChain.java:282-292 | `pick(index(k)) == k` for every recorded `k`, and no smaller position picks `k` |
| Distribution.Pick | src/main/java/org/cis1200/MarkovChain.java:325 | `pick(ng)` draws one number bounded by the total. It succeeds exactly when that number is in range, consumes exactly one number, and returns a recorded key whose range holds the number |
| MarkovChain.Get | src/main/java/org/cis1200/MarkovChain.java:221-227 | `get(token)` is absent only when no bigram starting at `token` was recorded, and on a consistent chain (every trained chain) exactly then; when present its counts are the bigram counts of `token` |
| MarkovChain.AddBigramEffect | src/main/java/org/cis1200/MarkovChain.java:156-169 | `addBigram(first, second)` gives `first` a table if it had none, counts `(first, second)` once more and changes no other count or table. `first`'s successor total grows by one |
| MarkovChain.AddBigramTransitions | src/main/java/org/cis1200/MarkovChain.java:161-168 | each `addBigram` adds exactly one to the sum of all successor counts |
| MarkovChain.AddFollowersBigram | src/main/java/org/cis1200/MarkovChain.java:197-209 | the loop after the first token counts each bigram of the sequence once more, including the closing `(last, END_TOKEN)` |
| MarkovChain.AddSequence | src/main/java/org/cis1200/MarkovChain.java:190-211 | an empty sequence changes nothing. Otherwise the count of the first token in `startTokens` rises by one, the other start counts stay, the start total grows by one, and the start keys gain the first token |
| MarkovChain.AddSequenceBigrams | src/main/java/org/cis1200/MarkovChain.java:197-209 | `addSequence(t)` gives a table to exactly the tokens of `t`. It raises every bigram count by that bigram's multiplicity in `t`'s bigram list (closed by `END_TOKEN`) and nothing else |
| MarkovChain.AddSequenceTotals | src/main/java/org/cis1200/MarkovChain.java:197-209 | `addSequence` of `n` tokens adds one start token and exactly `n` to the summed successor counts |
| MarkovChain.AddSequenceConsistent | src/main/java/org/cis1200/MarkovChain.java:197-209 | training preserves the invariant: every start token and every successor other than `END_TOKEN` has a table, and no table is empty |
| MarkovChain.TrainSnoc | src/main/java/org/cis1200/MarkovChain.java:137-144 | the list constructor is the left fold of `addSequence`: one more sequence is one more `addSequence` at the end |
| MarkovChain.TrainCounts | src/main/java/org/cis1200/MarkovChain.java:137-144 | the trained chain counts each start token, each bigram and each token's successors by its multiplicity in the data. The chain is consistent |
| MarkovChain.TrainTables | src/main/java/org/cis1200/MarkovChain.java:137-144 | the trained tables depend on the data only. The start table is the tally of the first words, each successor table is the tally of that token's followers, and the tokens with a table are exactly the training tokens |
| MarkovChain.TrainFromConsistent | src/main/java/org/cis1200/MarkovChain.java:140-143 | training a consistent chain on any data leaves it consistent |
| MarkovWalk.StartWalk | src/main/java/org/cis1200/MarkovChain.java:318-331 | the iterator's constructor. The walk has a next word exactly when a start token other than `END_TOKEN` is picked by an in-range first number; then that number is consumed and the slot holds the picked token. An empty start table or a failed pick gives an empty walk |
| MarkovWalk.Next | src/main/java/org/cis1200/MarkovChain.java:359-367 | `next()` fails with `NoSuchElement` when `hasNext()` is false, and with `NullPointer` when the word has no table. Otherwise it succeeds exactly when the next number fits the word's table, returns the current word, consumes one number and moves to the word that number picks |
| MarkovWalk.RunWalk | src/main/java/org/cis1200/MarkovChain.java:344-367 | a drained walk never yields `END_TOKEN`, yields at most as many words as there are numbers, starts with the current word, and is empty when `hasNext()` is false |
| MarkovWalk.RunWalkStep | src/main/java/org/cis1200/MarkovChain.java:359-367 | a successful `next()` followed by the rest of the walk yields the returned word followed by the rest |
| MarkovWalk.GetWalk | src/main/java/org/cis1200/MarkovChain.java:240-242 | `getWalk(ng)` drained yields no `END_TOKEN`, and a non-empty walk uses more numbers than it yields words |
| MarkovWalk.StartWalkOnChain | src/main/java/org/cis1200/MarkovChain.java:318-331 | on a consistent chain the first word of a walk has a table |
| MarkovWalk.NextOnChain | src/main/java/org/cis1200/MarkovChain.java:365 | on a consistent chain `next()` never hits a missing table. It fails only when the generator does, and the new word again has a table |
| MarkovWalk.ChoicesFrom | src/main/java/org/cis1200/MarkovChain.java:407-412 | the loop of `findWalkChoices` succeeds exactly when every bigram of the remaining words, closed by `END_TOKEN`, is recorded. It then yields one index per remaining word plus one |
| MarkovWalk.FindWalkChoices | src/main/java/org/cis1200/MarkovChain.java:397-414 | fails on empty input. Succeeds exactly when the first word is a start token and every bigram (closed by `END_TOKEN`) is recorded. Returns `\|words\| + 1` numbers, the first being the index of `words[0]` among the start tokens |
| MarkovWalk.FindWalkChoicesValues | src/main/java/org/cis1200/MarkovChain.java:404-412 | each later number is the index of the next word, and last of `END_TOKEN`, in the preceding word's table |
| MarkovWalk.ChoicesFromWalk | src/main/java/org/cis1200/MarkovChain.java:407-412 | the numbers of the loop drive the iterator from the current word through exactly the remaining words |
| MarkovWalk.RoundTrip | src/main/java/org/cis1200/MarkovChain.java:371-414 | feeding the numbers of `findWalkChoices(words)` to `getWalk` yields exactly `words` and then stops, for any word list without the sentinel |
| MarkovWalk.TrainedWalkable | src/main/java/org/cis1200/MarkovChain.java:137-144 | every non-empty training sequence is accepted by `findWalkChoices` on the trained chain |
| MarkovWalk.TrainedRoundTrip | src/main/java/org/cis1200/MarkovChain.java:371-414 | on a trained chain, every sentinel-free training sequence is regenerated exactly from its `findWalkChoices` numbers |
| MarkovWalk.SentinelCollision | src/main/java/org/cis1200/MarkovChain.java:401 | training on the sequence `["<END>"]` succeeds and `findWalkChoices` returns `[0, 0]`, yet the walk those numbers drive is empty: the round trip needs words distinct from `END_TOKEN` |
| MarkovExample.ExampleLists | src/main/java/org/cis1200/MarkovChain.java:29-31 | the two example token lists give the closed bigram lists of each sequence, the first words `a a`, and the tokens in order |
| MarkovExample.TableOfA | src/main/java/org/cis1200/MarkovChain.java:51 | after training, "a" has the table `banana:2 chair:1 table:1` |
| MarkovExample.TableOfAnd | src/main/java/org/cis1200/MarkovChain.java:52 | after training, "and" has the table `a:2` |
| MarkovExample.TableOfBanana | src/main/java/org/cis1200/MarkovChain.java:53 | after training, "banana" has the table `!:1 ?:1` |
| MarkovExample.TablesOfOthers | src/main/java/org/cis1200/MarkovChain.java:49-55 | after training, "table" and "!" have the table `and:1`, and "chair" and "?" have `<END>:1` |
| MarkovExample.TrainedStarts | src/main/java/org/cis1200/MarkovChain.java:47 | after training, the start table is `a:2` |
| MarkovExample.TrainedKeys | src/main/java/org/cis1200/MarkovChain.java:48-55 | the tokens with a table are exactly the seven printed ones |
| MarkovExample.TrainedTableOf | src/main/java/org/cis1200/MarkovChain.java:48-55 | each of the seven tokens gets its printed table |
| MarkovExample.TrainedChain | src/main/java/org/cis1200/MarkovChain.java:44-56 | any data with the example's bigrams, first words and tokens trains exactly the printed chain |
| MarkovExample.ExampleTraining | src/main/java/org/cis1200/MarkovChain.java:137-144 | the list constructor on the two example sequences builds exactly the printed chain |
| MarkovExample.WalkStartsAtA | src/main/java/org/cis1200/MarkovChain.java:282-284 | the first 0 picks "a" from the start table |
| MarkovExample.WalkAToChair | src/main/java/org/cis1200/MarkovChain.java:285-289 | the 2 picks "chair" from the table of "a" |
| MarkovExample.WalkChairToEnd | src/main/java/org/cis1200/MarkovChain.java:290-292 | the last 0 picks `END_TOKEN` from the table of "chair" |
| MarkovExample.TwoStepWalk | src/main/java/org/cis1200/MarkovChain.java:344-367 | a walk that starts, steps twice and then has no next word yields exactly the two words |
| MarkovExample.ExampleWalk | src/main/java/org/cis1200/MarkovChain.java:278-293 | on the example chain the numbers `0 2 0` yield the walk "a", "chair" |
| Csv.Fields | src/main/java/org/cis1200/CSV.java:104-123 | a record always has at least one field |
| Csv.ParseRecord | src/main/java/org/cis1200/CSV.java:98-124 | a `null` line is `IllegalArgument`. Otherwise the record has one field more than the line has separators (commas outside quotes) |
| Csv.ScanQuoted | src/main/java/org/cis1200/CSV.java:114-116 | the parser is in quotation mode exactly when it has passed an odd number of quotes |
| Csv.FieldCount | src/main/java/org/cis1200/CSV.java:110-123 | number of fields = 1 + number of commas met outside quotation mode |
| Csv.FieldsNoQuote | src/main/java/org/cis1200/CSV.java:114-118 | no field contains a `"` |
| Csv.FieldsContent | src/main/java/org/cis1200/CSV.java:110-122 | the fields, concatenated, are exactly the line's characters other than quotes and separators, in order. So no field holds a separator comma |
| Csv.LengthConservation | src/main/java/org/cis1200/CSV.java:110-122 | summed field lengths + separator count + quote count = line length |
| Csv.JoinFields | src/main/java/org/cis1200/CSV.java:110-122 | joining the fields with `,` gives the line with its quotes removed |
| Csv.RoundTrip | src/main/java/org/cis1200/CSV.java:110-122 | for a line without `"`, joining the fields with `,` gives back the line |
| Csv.ParseJoined | src/main/java/org/cis1200/CSV.java:110-123 | parsing the `,`-join of fields that hold no comma and no quote gives back the fields |
| Csv.SingleField | src/main/java/org/cis1200/CSV.java:110-123 | a line with neither `,` nor `"` is the single field equal to the line |
| Csv.SeparatorsAreCommas | src/main/java/org/cis1200/CSV.java:151-157 | the raw comma count bounds the separator count, so the raw check rejects no column that exists |
| Csv.ExtractColumn | src/main/java/org/cis1200/CSV.java:139-164 | a `null` line is `IllegalArgument`. Otherwise the result is the field at `col` exactly when `0 <= col < number of fields`, and `IndexOutOfBounds` in every other case |
| Csv.IllustrativeRecord | src/main/java/org/cis1200/CSV.java:21 | `col0, col1, a table and a chair` has the three fields `col0`, ` col1` and ` a table and a chair` |
| Csv.IllustrativeColumn | src/main/java/org/cis1200/CSV.java:21 | column 2 of that line is ` a table and a chair` |
| Csv.QuotedCommaColumn | src/main/java/org/cis1200/CSV.java:156-161 | `"a,b",c` has two raw commas but only the two fields `a,b` and `c`. So column 2 passes the raw check and fails at the list lookup with `IndexOutOfBounds` |

## Left out

- The sources of `ProbabilityDistribution.java` and `NumberGenerator.java` are not available; both are modelled abstractly from their use in `MarkovChain.java`.
  - The distribution is modelled as ordered `(key, count)` entries.
  - A `pick` position out of range and an `index` of an absent key are modelled as `IllegalArgument`.
  - The generator is only the replay form; `RandomNumberGenerator` and `getRandomWalk` are left out because they depend on randomness.
- `null` arguments to `addBigram`, `addSequence`, `get` and `findWalkChoices` are not modelled, because Dafny strings and sequences cannot be null. Only the two CSV operations keep their `null` branch, through `Option`.
- `MarkovChain.toString` is left out because it only formats the tables. The printed tables it would show are stated as values in `markov_example.dfy`.
- The iterator of `addSequence` is consumed destructively. `findWalkChoices` mutates its argument list (`words.add`, `words.remove`). These side effects on the caller's objects are not modelled; both operations are modelled on immutable sequences.
- Counts are unbounded integers. Java `int` overflow after 2^31 records of the same key is not modelled.
- `RunWalk` models only an iterator drained to the end. Interleaving `next()` with other calls on the same chain is not modelled, and neither is the iterator's unsupported `remove()`.
- Java `char` is a UTF-16 code unit; the model's `char` stands for it without encoding or surrogate handling.
- `CSV.csvFieldsAtColumn` is left out because it is `BufferedReader` I/O with `IOException` handling. Its loop also never reads the next line after a successful extraction and never adds to the result list.
