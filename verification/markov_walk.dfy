/** Sampling side of `MarkovChain`: the walk iterator driven by a replay
    `NumberGenerator`, and `findWalkChoices`, which computes the numbers
    that make the walk reproduce a given word list. */
module MarkovWalk {
  import opened Wrappers
  import opened NumberGenerator
  import opened Distribution
  import opened MarkovChain
  import StringOrder

  /** `MarkovChainIterator`: the chain's successor tables, the generator it
      owns, and the `currWord` slot (`None` stands for `null`). */
  datatype Walk = Walk(bigrams: map<string, Dist>, gen: Replay, current: Option<string>)

  /** `hasNext()`: a word is pending and it is not the sentinel. */
  predicate HasNext(w: Walk) {
    w.current.Some? && w.current.value != EndToken
  }

  lemma TotalPositive(d: Dist)
    ensures Total(d) > 0 <==> |d| > 0
  {
    if |d| > 0 {
      assert d[0].count > 0;
    }
  }

  /** The iterator's constructor. With no start tokens the slot holds
      `EndToken`; when the first pick fails the slot holds `null`; either way
      the walk is empty. Otherwise the slot holds the start token whose
      cumulative range contains the first number. */
  function StartWalk(c: Chain, g: Replay): (w: Walk)
    ensures w.bigrams == c.bigrams
    ensures HasNext(w) <==>
              && |g.values| > 0 && 0 <= g.values[0] < Total(c.startTokens)
              && PickIndex(c.startTokens, g.values[0]) != Ok(EndToken)
    ensures w.current.Some? && w.current.value != EndToken ==>
              && |g.values| > 0
              && w.gen.values == g.values[1..]
              && PickIndex(c.startTokens, g.values[0]) == Ok(w.current.value)
  {
    TotalPositive(c.startTokens);
    if |c.startTokens| == 0 then Walk(c.bigrams, g, Some(EndToken))
    else
      match Pick(c.startTokens, g)
      case Ok(drawn) => Walk(c.bigrams, drawn.1, Some(drawn.0))
      case Err(_) => Walk(c.bigrams, g, None)
  }

  /** `next()`: fails when `hasNext()` is false; otherwise returns the pending
      word and replaces it by a pick from that word's successor table, one
      number being drawn. A word without a table ends in the
      `NullPointerException` of `bigramFrequencies.get(currWord).pick(ng)`;
      a failed pick propagates. */
  function Next(w: Walk): (r: Result<(string, Walk)>)
    ensures !HasNext(w) ==> r == Err(NoSuchElement)
    ensures HasNext(w) && w.current.value !in w.bigrams ==> r == Err(NullPointer)
    ensures r.Ok? <==>
              && HasNext(w) && w.current.value in w.bigrams
              && |w.gen.values| > 0 && 0 <= w.gen.values[0] < Total(w.bigrams[w.current.value])
    ensures r.Ok? ==>
              && r.value.0 == w.current.value
              && r.value.1.bigrams == w.bigrams
              && r.value.1.gen.values == w.gen.values[1..]
              && r.value.1.current.Some?
              && PickIndex(w.bigrams[w.current.value], w.gen.values[0]) == Ok(r.value.1.current.value)
  {
    if !HasNext(w) then Err(NoSuchElement)
    else if w.current.value !in w.bigrams then Err(NullPointer)
    else
      var drawn :- Pick(w.bigrams[w.current.value], w.gen);
      Ok((w.current.value, w.(gen := drawn.1, current := Some(drawn.0))))
  }

  /** Every word the iterator yields, calling `next()` while `hasNext()`;
      the first exception ends the walk. Each step uses up one number, so
      the walk is finite. */
  function RunWalk(w: Walk): (r: Result<seq<string>>)
    ensures r.Ok? ==> EndToken !in r.value
    ensures r.Ok? ==> |r.value| <= |w.gen.values|
    ensures r.Ok? && HasNext(w) ==> |r.value| > 0 && r.value[0] == w.current.value
    ensures !HasNext(w) ==> r == Ok([])
    decreases |w.gen.values|
  {
    if !HasNext(w) then Ok([])
    else
      var step :- Next(w);
      var rest :- RunWalk(step.1);
      Ok([step.0] + rest)
  }

  /** One successful `next()` followed by the rest of the walk. */
  lemma RunWalkStep(w: Walk, x: string, w': Walk, rest: seq<string>)
    requires Next(w) == Ok((x, w')) && RunWalk(w') == Ok(rest)
    ensures RunWalk(w) == Ok([x] + rest)
  {
    assert HasNext(w);
  }

  /** `getWalk(ng)` consumed to the end. A non-empty walk uses one number
      more than it yields words: the start pick and each `next()` draw one. */
  function GetWalk(c: Chain, g: Replay): (r: Result<seq<string>>)
    ensures r.Ok? ==> EndToken !in r.value
    ensures r.Ok? && r.value != [] ==> |r.value| < |g.values|
  {
    RunWalk(StartWalk(c, g))
  }

  // ---------------------------------------------------------------------
  // A consistent chain never sends the walk to a missing table

  /** The pending word, if it is a real token, has a successor table. */
  predicate OnChain(w: Walk) {
    w.current.Some? && w.current.value != EndToken ==> w.current.value in w.bigrams
  }

  lemma StartWalkOnChain(c: Chain, g: Replay)
    requires Consistent(c)
    ensures OnChain(StartWalk(c, g))
  {
    var w := StartWalk(c, g);
    if w.current.Some? && w.current.value != EndToken {
      assert w.current.value in Keys(c.startTokens);
    }
  }

  /** On a consistent chain `next()` fails only when the generator does. */
  lemma NextOnChain(c: Chain, w: Walk)
    requires Consistent(c) && w.bigrams == c.bigrams && OnChain(w) && HasNext(w)
    ensures Next(w) != Err(NullPointer)
    ensures Next(w).Ok? <==> |w.gen.values| > 0 && 0 <= w.gen.values[0] < Out(c, w.current.value)
    ensures Next(w).Ok? ==> OnChain(Next(w).value.1)
  {
    var r := Next(w);
    if r.Ok? {
      var succ := r.value.1.current.value;
      assert succ in Keys(c.bigrams[w.current.value]);
    }
  }

  // ---------------------------------------------------------------------
  // findWalkChoices

  /** The bigrams `(t[i], Follower(t, i))` of `t` have all been recorded. */
  predicate Recorded(c: Chain, t: seq<string>) {
    forall i :: 0 <= i < |t| ==> BigramCount(c, t[i], Follower(t, i)) > 0
  }

  /** A word list the chain can produce: it begins with a start token and
      each word, the last followed by `EndToken`, is a recorded bigram. */
  predicate Walkable(c: Chain, words: seq<string>) {
    |words| > 0 && Count(c.startTokens, words[0]) > 0 && Recorded(c, words)
  }

  lemma BigramCountKeys(c: Chain, x: string, y: string)
    ensures BigramCount(c, x, y) > 0 <==> x in c.bigrams && y in Keys(c.bigrams[x])
  {
    CountKeys(Successors(c, x), y);
  }

  lemma RecordedCons(c: Chain, cur: string, rest: seq<string>)
    ensures Recorded(c, [cur] + rest) <==>
              BigramCount(c, cur, Follower([cur] + rest, 0)) > 0 && Recorded(c, rest)
  {
    var t := [cur] + rest;
    assert forall i :: 0 < i < |t| ==> t[i] == rest[i - 1] && Follower(t, i) == Follower(rest, i - 1);
    if BigramCount(c, cur, Follower(t, 0)) > 0 && Recorded(c, rest) {
      forall i | 0 <= i < |t|
        ensures BigramCount(c, t[i], Follower(t, i)) > 0
      {
        if i > 0 {
          assert BigramCount(c, rest[i - 1], Follower(rest, i - 1)) > 0;
        }
      }
    }
    if Recorded(c, t) {
      forall i | 0 <= i < |rest|
        ensures BigramCount(c, rest[i], Follower(rest, i)) > 0
      {
        assert BigramCount(c, t[i + 1], Follower(t, i + 1)) > 0;
      }
    }
  }

  /** The loop of `findWalkChoices` from word `cur` on, `rest` being the
      words still to come: the index of each next word, and finally of
      `EndToken`, in the current word's table. */
  function ChoicesFrom(c: Chain, cur: string, rest: seq<string>): (r: Result<seq<int>>)
    ensures r.Ok? <==> Recorded(c, [cur] + rest)
    ensures r.Ok? ==> |r.value| == |rest| + 1
    ensures r.Ok? ==> r.value[0] == Below(Successors(c, cur), Follower([cur] + rest, 0))
    decreases |rest|
  {
    BigramCountKeys(c, cur, Follower([cur] + rest, 0));
    RecordedCons(c, cur, rest);
    if cur !in c.bigrams then Err(NullPointer)
    else if rest == [] then
      var i :- Index(c.bigrams[cur], EndToken);
      Ok([i])
    else
      assert [rest[0]] + rest[1..] == rest;
      var i :- Index(c.bigrams[cur], rest[0]);
      var tail :- ChoicesFrom(c, rest[0], rest[1..]);
      Ok([i] + tail)
  }

  /** After the first number, the loop goes on from the next word. */
  lemma ChoicesFromTail(c: Chain, cur: string, rest: seq<string>)
    requires ChoicesFrom(c, cur, rest).Ok? && rest != []
    ensures ChoicesFrom(c, rest[0], rest[1..]).Ok?
    ensures ChoicesFrom(c, cur, rest).value[1..] == ChoicesFrom(c, rest[0], rest[1..]).value
  {
    assert [rest[0]] + rest[1..] == rest;
  }

  /** Position `i` of `[cur] + rest` and its follower are position `i - 1`
      of `rest` and its follower. */
  lemma FollowerShift(cur: string, rest: seq<string>, i: nat)
    requires 0 < i <= |rest|
    ensures ([cur] + rest)[i] == ([rest[0]] + rest[1..])[i - 1]
    ensures Follower([cur] + rest, i) == Follower([rest[0]] + rest[1..], i - 1)
  {
    assert [rest[0]] + rest[1..] == rest;
  }

  /** Each number `findWalkChoices` computes is the index of the next word
      in the current word's table. */
  lemma {:induction false} ChoiceAt(c: Chain, cur: string, rest: seq<string>, i: nat)
    requires ChoicesFrom(c, cur, rest).Ok? && i <= |rest|
    ensures ChoicesFrom(c, cur, rest).value[i] == Below(Successors(c, ([cur] + rest)[i]), Follower([cur] + rest, i))
    decreases |rest|
  {
    if i > 0 {
      ChoicesFromTail(c, cur, rest);
      ChoiceAt(c, rest[0], rest[1..], i - 1);
      FollowerShift(cur, rest, i);
    }
  }

  /** `findWalkChoices(words)`: fails on an empty list and on any word list
      the chain cannot produce; otherwise returns `|words| + 1` numbers: the
      index of `words[0]` among the start tokens, then the index of each
      following word, and last of `EndToken`, in the preceding word's table. */
  function FindWalkChoices(c: Chain, words: seq<string>): (r: Result<seq<int>>)
    ensures words == [] ==> r == Err(IllegalArgument)
    ensures r.Ok? <==> Walkable(c, words)
    ensures r.Ok? ==> |r.value| == |words| + 1
    ensures r.Ok? ==> r.value[0] == Below(c.startTokens, words[0])
  {
    if words == [] then Err(IllegalArgument)
    else
      CountKeys(c.startTokens, words[0]);
      assert [words[0]] + words[1..] == words;
      var first :- Index(c.startTokens, words[0]);
      var rest :- ChoicesFrom(c, words[0], words[1..]);
      Ok([first] + rest)
  }

  /** After the first, each number `findWalkChoices` returns is the index of
      the next word, and last of `EndToken`, in the preceding word's table. */
  lemma FindWalkChoicesValues(c: Chain, words: seq<string>)
    requires FindWalkChoices(c, words).Ok?
    ensures forall i :: 0 <= i < |words| ==>
              FindWalkChoices(c, words).value[i + 1] == Below(Successors(c, words[i]), Follower(words, i))
  {
    var r := FindWalkChoices(c, words).value;
    var head, tail := words[0], words[1..];
    assert [head] + tail == words;
    var rest := ChoicesFrom(c, head, tail).value;
    assert r[1..] == rest;
    forall i | 0 <= i < |words|
      ensures r[i + 1] == Below(Successors(c, words[i]), Follower(words, i))
    {
      ChoiceAt(c, head, tail, i);
      assert r[i + 1] == rest[i];
    }
  }

  // ---------------------------------------------------------------------
  // The round trip

  lemma {:induction false} ChoicesFromWalk(c: Chain, cur: string, rest: seq<string>, choices: seq<int>)
    requires cur != EndToken && EndToken !in rest
    requires ChoicesFrom(c, cur, rest) == Ok(choices)
    ensures RunWalk(Walk(c.bigrams, Replay(choices), Some(cur))) == Ok([cur] + rest)
    decreases |rest|
  {
    var w := Walk(c.bigrams, Replay(choices), Some(cur));
    var t := [cur] + rest;
    var next := Follower(t, 0);
    assert choices[0] == Below(Successors(c, cur), next);
    BigramCountKeys(c, cur, next);
    PickIndexInverse(c.bigrams[cur], next);
    RangeWithinTotal(c.bigrams[cur], next);
    CountKeys(c.bigrams[cur], next);
    var step := Next(w);
    assert step.Ok?;
    assert step.value.1 == Walk(c.bigrams, Replay(choices[1..]), Some(next));
    if rest != [] {
      assert [rest[0]] + rest[1..] == rest;
      var tail :| ChoicesFrom(c, rest[0], rest[1..]) == Ok(tail) && choices == [choices[0]] + tail;
      assert choices[1..] == tail;
      ChoicesFromWalk(c, rest[0], rest[1..], tail);
    }
  }

  /** Feeding the numbers `findWalkChoices(words)` to `getWalk` yields
      exactly `words` and then stops, provided no word is the sentinel. */
  lemma RoundTrip(c: Chain, words: seq<string>)
    requires EndToken !in words
    requires FindWalkChoices(c, words).Ok?
    ensures GetWalk(c, Replay(FindWalkChoices(c, words).value)) == Ok(words)
  {
    var choices := FindWalkChoices(c, words).value;
    var g := Replay(choices);
    PickIndexInverse(c.startTokens, words[0]);
    CountKeys(c.startTokens, words[0]);
    RangeWithinTotal(c.startTokens, words[0]);
    var w := StartWalk(c, g);
    assert w.current == Some(words[0]);
    assert [words[0]] + words[1..] == words;
    var tail :| ChoicesFrom(c, words[0], words[1..]) == Ok(tail) && choices == [choices[0]] + tail;
    assert w.gen == Replay(tail);
    ChoicesFromWalk(c, words[0], words[1..], tail);
  }

  // ---------------------------------------------------------------------
  // Every trained sequence can be regenerated

  lemma {:induction false} StartsHas(data: seq<seq<string>>, t: seq<string>)
    requires t in data && t != []
    ensures t[0] in Starts(data)
  {
    if data[0] != t {
      StartsHas(data[1..], t);
    }
  }

  lemma {:induction false} AllBigramsHas(data: seq<seq<string>>, t: seq<string>, i: nat)
    requires t in data && i < |t|
    ensures (t[i], Follower(t, i)) in AllBigrams(data)
  {
    if data[0] == t {
      assert Bigrams(t)[i] == (t[i], Follower(t, i));
    } else {
      AllBigramsHas(data[1..], t, i);
    }
  }

  /** A chain trained on `data` can produce each non-empty sequence of `data`. */
  lemma TrainedWalkable(data: seq<seq<string>>, t: seq<string>)
    requires t in data && t != []
    ensures Walkable(Train(data), t)
  {
    StartsHas(data, t);
    TrainCounts(data, t[0], t[0]);
    forall i | 0 <= i < |t|
      ensures BigramCount(Train(data), t[i], Follower(t, i)) > 0
    {
      AllBigramsHas(data, t, i);
      TrainCounts(data, t[i], Follower(t, i));
    }
  }

  /** The round trip on trained data: for every non-empty training sequence
      free of the sentinel, `findWalkChoices` succeeds and its numbers drive
      `getWalk` to exactly that sequence. */
  lemma TrainedRoundTrip(data: seq<seq<string>>, t: seq<string>)
    requires t in data && t != [] && EndToken !in t
    ensures FindWalkChoices(Train(data), t).Ok?
    ensures GetWalk(Train(data), Replay(FindWalkChoices(Train(data), t).value)) == Ok(t)
  {
    TrainedWalkable(data, t);
    RoundTrip(Train(data), t);
  }

  /** Training tokens are not checked against the sentinel. A sequence made
      of the literal `"<END>"` trains fine and `findWalkChoices` accepts it,
      but the walk its numbers drive stops at once: the round trip fails. */
  lemma SentinelCollision()
    ensures FindWalkChoices(Train([[EndToken]]), [EndToken]) == Ok([0, 0])
    ensures GetWalk(Train([[EndToken]]), Replay([0, 0])) == Ok([])
  {
    var one: Dist := [Entry(EndToken, 1)];
    var c := Train([[EndToken]]);
    assert TrainFrom(EmptyChain, [[EndToken]]) == TrainFrom(AddSequence(EmptyChain, [EndToken]), []);
    assert AddSequence(EmptyChain, [EndToken]) == AddBigram(Chain(one, map[]), EndToken, EndToken);
    assert c == Chain(one, map[EndToken := one]);
    assert Walkable(c, [EndToken]);
    StringOrder.LessIrreflexive(EndToken);
    assert Below(one, EndToken) == 0;
    assert Successors(c, EndToken) == one;
    FindWalkChoicesValues(c, [EndToken]);
    var r := FindWalkChoices(c, [EndToken]).value;
    assert |r| == 2 && r[0] == 0 && r[1] == 0;
    assert r == [0, 0];
  }
}
