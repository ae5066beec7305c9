/** Training side of `MarkovChain`: a start-token distribution and, for each
    token, the distribution of the tokens that followed it. The sentinel
    `EndToken` is recorded after the last token of every sequence. */
module MarkovChain {
  import opened Wrappers
  import opened Distribution

  /** `END_TOKEN` */
  const EndToken: string := "<END>"

  /** `startTokens` and `bigramFrequencies`. The successor tables form a
      `TreeMap`; its key order shows only in the text rendering, so a map
      suffices here. */
  datatype Chain = Chain(startTokens: Dist, bigrams: map<string, Dist>)

  /** The chain made by the no-argument constructor. */
  const EmptyChain: Chain := Chain(Empty, map[])

  /** The successor table of `x`, empty when none was created. */
  function Successors(c: Chain, x: string): Dist {
    if x in c.bigrams then c.bigrams[x] else Empty
  }

  /** How often the bigram `(x, y)` has been recorded. */
  function BigramCount(c: Chain, x: string, y: string): nat {
    Count(Successors(c, x), y)
  }

  /** How many transitions out of `x` have been recorded. */
  function Out(c: Chain, x: string): nat {
    Total(Successors(c, x))
  }

  /** `get(token)`: the successor table of `token`, or none. On a consistent
      chain, where no table is empty, it is absent exactly when nothing was
      recorded after `token`. */
  function Get(c: Chain, token: string): (r: Option<Dist>)
    ensures r.None? ==> forall y :: BigramCount(c, token, y) == 0
    ensures r.Some? ==> forall y :: Count(r.value, y) == BigramCount(c, token, y)
    ensures Consistent(c) ==> (r.None? <==> Out(c, token) == 0)
  {
    if token in c.bigrams then Some(c.bigrams[token]) else None
  }

  /** `addBigram(first, second)`: records `second` in the table of `first`,
      creating that table when `first` is new. */
  function AddBigram(c: Chain, first: string, second: string): (r: Chain)
    ensures r.startTokens == c.startTokens
  {
    // A new `first` gets an empty table before the record.
    c.(bigrams := c.bigrams[first := Record(Successors(c, first), second)])
  }

  /** `addBigram(first, second)` counts `(first, second)` once more, gives
      `first` a table, and changes nothing else. */
  lemma AddBigramEffect(c: Chain, first: string, second: string)
    ensures AddBigram(c, first, second).bigrams.Keys == c.bigrams.Keys + {first}
    ensures forall x :: x in c.bigrams && x != first ==> AddBigram(c, first, second).bigrams[x] == c.bigrams[x]
    ensures BigramCount(AddBigram(c, first, second), first, second) == BigramCount(c, first, second) + 1
    ensures forall x, y :: x != first || y != second ==>
              BigramCount(AddBigram(c, first, second), x, y) == BigramCount(c, x, y)
    ensures Out(AddBigram(c, first, second), first) == Out(c, first) + 1
    ensures forall x :: x != first ==> Out(AddBigram(c, first, second), x) == Out(c, x)
    ensures Keys(AddBigram(c, first, second).bigrams[first]) == Keys(Successors(c, first)) + {second}
  {
  }

  /** The bigrams one training sequence contributes: each token paired with
      the token after it, the last one with `EndToken`. */
  function Bigrams(t: seq<string>): seq<(string, string)> {
    seq(|t|, i requires 0 <= i < |t| => (t[i], Follower(t, i)))
  }

  /** The token after position `i` of `t`, or `EndToken` after the last. */
  function Follower(t: seq<string>, i: nat): string
    requires i < |t|
  {
    if i + 1 < |t| then t[i + 1] else EndToken
  }

  lemma BigramsCons(prev: string, rest: seq<string>)
    ensures Bigrams([prev] + rest) == [(prev, if rest == [] then EndToken else rest[0])] + Bigrams(rest)
  {
    var t := [prev] + rest;
    var b := [(prev, if rest == [] then EndToken else rest[0])] + Bigrams(rest);
    assert |Bigrams(t)| == |b|;
    forall i | 0 <= i < |t|
      ensures Bigrams(t)[i] == b[i]
    {
      if i > 0 {
        assert t[i] == rest[i - 1];
      }
    }
  }

  /** The loop of `addSequence` after its first token: records
      `(prev, rest[0])`, `(rest[0], rest[1])`, ..., `(last, EndToken)`. */
  function AddFollowers(c: Chain, prev: string, rest: seq<string>): (r: Chain)
    ensures r.startTokens == c.startTokens
    decreases |rest|
  {
    if rest == [] then AddBigram(c, prev, EndToken)
    else AddFollowers(AddBigram(c, prev, rest[0]), rest[0], rest[1..])
  }

  lemma {:induction false} AddFollowersKeys(c: Chain, prev: string, rest: seq<string>)
    ensures forall x :: x in AddFollowers(c, prev, rest).bigrams <==> x in c.bigrams || x == prev || x in rest
    decreases |rest|
  {
    if rest == [] {
      AddBigramEffect(c, prev, EndToken);
    } else {
      AddBigramEffect(c, prev, rest[0]);
    }
    if rest != [] {
      assert rest == [rest[0]] + rest[1..];
      AddFollowersKeys(AddBigram(c, prev, rest[0]), rest[0], rest[1..]);
    }
  }

  lemma {:induction false} AddFollowersBigram(c: Chain, prev: string, rest: seq<string>, x: string, y: string)
    ensures BigramCount(AddFollowers(c, prev, rest), x, y)
         == BigramCount(c, x, y) + multiset(Bigrams([prev] + rest))[(x, y)]
    decreases |rest|
  {
    BigramsCons(prev, rest);
    if rest == [] {
      AddBigramEffect(c, prev, EndToken);
    } else {
      AddBigramEffect(c, prev, rest[0]);
    }
    if rest != [] {
      assert [rest[0]] + rest[1..] == rest;
      AddFollowersBigram(AddBigram(c, prev, rest[0]), rest[0], rest[1..], x, y);
    }
  }

  lemma {:induction false} AddFollowersOut(c: Chain, prev: string, rest: seq<string>, x: string)
    ensures Out(AddFollowers(c, prev, rest), x) == Out(c, x) + multiset([prev] + rest)[x]
    decreases |rest|
  {
    if rest == [] {
      AddBigramEffect(c, prev, EndToken);
    } else {
      AddBigramEffect(c, prev, rest[0]);
    }
    if rest != [] {
      assert [prev] + rest == [prev] + ([rest[0]] + rest[1..]);
      AddFollowersOut(AddBigram(c, prev, rest[0]), rest[0], rest[1..], x);
    }
  }

  /** `addSequence(t)`: records `t[0]` as a start token and then every bigram
      of `t`, ending with `(t[n-1], EndToken)`; an empty sequence changes
      nothing. What it does to the successor tables is `AddSequenceBigrams`. */
  function AddSequence(c: Chain, t: seq<string>): (r: Chain)
    ensures t == [] ==> r == c
    ensures t != [] ==> Count(r.startTokens, t[0]) == Count(c.startTokens, t[0]) + 1
    ensures forall k :: t == [] || k != t[0] ==> Count(r.startTokens, k) == Count(c.startTokens, k)
    ensures Total(r.startTokens) == Total(c.startTokens) + (if t == [] then 0 else 1)
    ensures Keys(r.startTokens) == Keys(c.startTokens) + (if t == [] then {} else {t[0]})
  {
    if t == [] then c
    else AddFollowers(c.(startTokens := Record(c.startTokens, t[0])), t[0], t[1..])
  }

  /** The successor tables after `addSequence(t)`: a table for every token of
      `t`, every bigram of `t` counted once more, and no other change. */
  lemma AddSequenceBigrams(c: Chain, t: seq<string>)
    ensures forall x :: x in AddSequence(c, t).bigrams <==> x in c.bigrams || x in t
    ensures forall x, y :: BigramCount(AddSequence(c, t), x, y) == BigramCount(c, x, y) + multiset(Bigrams(t))[(x, y)]
    ensures forall x :: Out(AddSequence(c, t), x) == Out(c, x) + multiset(t)[x]
  {
    if t != [] {
      var c1 := c.(startTokens := Record(c.startTokens, t[0]));
      assert [t[0]] + t[1..] == t;
      AddFollowersKeys(c1, t[0], t[1..]);
      forall x, y
        ensures BigramCount(AddSequence(c, t), x, y) == BigramCount(c, x, y) + multiset(Bigrams(t))[(x, y)]
      {
        AddFollowersBigram(c1, t[0], t[1..], x, y);
      }
      forall x
        ensures Out(AddSequence(c, t), x) == Out(c, x) + multiset(t)[x]
      {
        AddFollowersOut(c1, t[0], t[1..], x);
      }
    }
  }

  // ---------------------------------------------------------------------
  // The total number of recorded transitions

  /** The sum of `Out(c, x)` over the tokens `x` of `ks`. */
  ghost function OutSum(c: Chain, ks: set<string>): nat
    decreases ks
  {
    if ks == {} then 0
    else var k :| k in ks; Out(c, k) + OutSum(c, ks - {k})
  }

  /** The summed successor counts of the whole chain. */
  ghost function Transitions(c: Chain): nat {
    OutSum(c, c.bigrams.Keys)
  }

  lemma {:induction false} OutSumRemove(c: Chain, ks: set<string>, k: string)
    requires k in ks
    ensures OutSum(c, ks) == Out(c, k) + OutSum(c, ks - {k})
    decreases ks
  {
    var j :| j in ks && OutSum(c, ks) == Out(c, j) + OutSum(c, ks - {j});
    if j != k {
      OutSumRemove(c, ks - {j}, k);
      OutSumRemove(c, ks - {k}, j);
      assert ks - {j} - {k} == ks - {k} - {j};
    }
  }

  lemma {:induction false} OutSumAgree(c: Chain, d: Chain, ks: set<string>)
    requires forall x :: x in ks ==> Out(c, x) == Out(d, x)
    ensures OutSum(c, ks) == OutSum(d, ks)
    decreases ks
  {
    if ks != {} {
      var k :| k in ks && OutSum(c, ks) == Out(c, k) + OutSum(c, ks - {k});
      OutSumRemove(d, ks, k);
      OutSumAgree(c, d, ks - {k});
    }
  }

  lemma {:induction false} OutSumAbsent(c: Chain, ks: set<string>)
    requires forall x :: x in ks ==> Out(c, x) == 0
    ensures OutSum(c, ks) == 0
    decreases ks
  {
    if ks != {} {
      var k :| k in ks && OutSum(c, ks) == Out(c, k) + OutSum(c, ks - {k});
      OutSumAbsent(c, ks - {k});
    }
  }

  /** Every `addBigram` adds exactly one transition. */
  lemma AddBigramTransitions(c: Chain, first: string, second: string)
    ensures Transitions(AddBigram(c, first, second)) == Transitions(c) + 1
  {
    var r := AddBigram(c, first, second);
    AddBigramEffect(c, first, second);
    var ks := c.bigrams.Keys - {first};
    OutSumRemove(r, r.bigrams.Keys, first);
    assert r.bigrams.Keys - {first} == ks;
    OutSumAgree(r, c, ks);
    if first in c.bigrams {
      OutSumRemove(c, c.bigrams.Keys, first);
    } else {
      assert c.bigrams.Keys == ks;
      assert Out(c, first) == 0;
    }
  }

  lemma {:induction false} AddFollowersTransitions(c: Chain, prev: string, rest: seq<string>)
    ensures Transitions(AddFollowers(c, prev, rest)) == Transitions(c) + |rest| + 1
    decreases |rest|
  {
    if rest == [] {
      AddBigramTransitions(c, prev, EndToken);
    } else {
      AddBigramTransitions(c, prev, rest[0]);
      AddFollowersTransitions(AddBigram(c, prev, rest[0]), rest[0], rest[1..]);
    }
  }

  /** `addSequence` of `n` tokens adds one start token and exactly `n` transitions. */
  lemma AddSequenceTotals(c: Chain, t: seq<string>)
    ensures Total(AddSequence(c, t).startTokens) == Total(c.startTokens) + (if t == [] then 0 else 1)
    ensures Transitions(AddSequence(c, t)) == Transitions(c) + |t|
  {
    if t != [] {
      AddFollowersTransitions(c.(startTokens := Record(c.startTokens, t[0])), t[0], t[1..]);
      OutSumAgree(c.(startTokens := Record(c.startTokens, t[0])), c, c.bigrams.Keys);
    }
  }

  // ---------------------------------------------------------------------
  // The invariant that keeps the walk from looking up a missing table

  /** Every start token and every successor other than `EndToken` has a
      successor table, and no table is empty. */
  predicate Consistent(c: Chain) {
    && (forall k :: k in Keys(c.startTokens) ==> k in c.bigrams)
    && (forall x, y :: x in c.bigrams && y in Keys(c.bigrams[x]) && y != EndToken ==> y in c.bigrams)
    && (forall x :: x in c.bigrams ==> Total(c.bigrams[x]) > 0)
  }

  /** `Consistent` except that `pending` may still lack its table. */
  predicate ConsistentBut(c: Chain, pending: string) {
    && (forall k :: k in Keys(c.startTokens) ==> k in c.bigrams || k == pending)
    && (forall x, y :: x in c.bigrams && y in Keys(c.bigrams[x]) && y != EndToken ==> y in c.bigrams || y == pending)
    && (forall x :: x in c.bigrams ==> Total(c.bigrams[x]) > 0)
  }

  /** Recording `(prev, next)` gives `prev` its table and leaves only `next` pending. */
  lemma AddBigramConsistentBut(c: Chain, prev: string, next: string)
    requires ConsistentBut(c, prev)
    ensures ConsistentBut(AddBigram(c, prev, next), next)
  {
    var r := AddBigram(c, prev, next);
    var table := Record(Successors(c, prev), next);
    assert r.bigrams == c.bigrams[prev := table];
    forall x | x in r.bigrams
      ensures Total(r.bigrams[x]) > 0
    {
      if x == prev {
        assert Total(table) == Total(Successors(c, prev)) + 1;
      }
    }
    forall x, y | x in r.bigrams && y in Keys(r.bigrams[x]) && y != EndToken
      ensures y in r.bigrams || y == next
    {
      if x == prev && y != next {
        assert y in Keys(Successors(c, prev));
      }
    }
  }

  lemma {:induction false} AddFollowersConsistent(c: Chain, prev: string, rest: seq<string>)
    requires ConsistentBut(c, prev)
    ensures Consistent(AddFollowers(c, prev, rest))
    decreases |rest|
  {
    if rest == [] {
      AddBigramConsistentBut(c, prev, EndToken);
    } else {
      AddBigramConsistentBut(c, prev, rest[0]);
      AddFollowersConsistent(AddBigram(c, prev, rest[0]), rest[0], rest[1..]);
    }
  }

  /** Training keeps the chain consistent: after `addSequence` every start
      token and every non-sentinel successor has a table. */
  lemma AddSequenceConsistent(c: Chain, t: seq<string>)
    requires Consistent(c)
    ensures Consistent(AddSequence(c, t))
  {
    if t != [] {
      AddFollowersConsistent(c.(startTokens := Record(c.startTokens, t[0])), t[0], t[1..]);
    }
  }

  // ---------------------------------------------------------------------
  // The list constructor

  /** The constructor's loop: `addSequence` on each sequence in order. */
  function TrainFrom(c: Chain, data: seq<seq<string>>): Chain
    decreases |data|
  {
    if data == [] then c else TrainFrom(AddSequence(c, data[0]), data[1..])
  }

  /** `new MarkovChain(trainingData)` */
  function Train(data: seq<seq<string>>): Chain {
    TrainFrom(EmptyChain, data)
  }

  /** Training on one more sequence is one more `addSequence` at the end. */
  lemma {:induction false} TrainSnoc(c: Chain, data: seq<seq<string>>, t: seq<string>)
    ensures TrainFrom(c, data + [t]) == AddSequence(TrainFrom(c, data), t)
    decreases |data|
  {
    if data == [] {
      assert [t][1..] == [];
    } else {
      assert (data + [t])[1..] == data[1..] + [t];
      TrainSnoc(AddSequence(c, data[0]), data[1..], t);
    }
  }

  // ---------------------------------------------------------------------
  // What a trained chain holds

  /** The first tokens of the non-empty training sequences, in order. */
  function Starts(data: seq<seq<string>>): seq<string> {
    if data == [] then []
    else (if data[0] == [] then [] else [data[0][0]]) + Starts(data[1..])
  }

  /** All training tokens, in order. */
  function Tokens(data: seq<seq<string>>): seq<string> {
    if data == [] then [] else data[0] + Tokens(data[1..])
  }

  /** All bigrams of the training data, each sequence closed by `EndToken`. */
  function AllBigrams(data: seq<seq<string>>): seq<(string, string)> {
    if data == [] then [] else Bigrams(data[0]) + AllBigrams(data[1..])
  }

  lemma {:induction false} TrainFromCounts(c: Chain, data: seq<seq<string>>, x: string, y: string)
    ensures Count(TrainFrom(c, data).startTokens, x) == Count(c.startTokens, x) + multiset(Starts(data))[x]
    ensures Total(TrainFrom(c, data).startTokens) == Total(c.startTokens) + |Starts(data)|
    ensures BigramCount(TrainFrom(c, data), x, y) == BigramCount(c, x, y) + multiset(AllBigrams(data))[(x, y)]
    ensures Out(TrainFrom(c, data), x) == Out(c, x) + multiset(Tokens(data))[x]
    ensures Transitions(TrainFrom(c, data)) == Transitions(c) + |Tokens(data)|
    decreases |data|
  {
    if data != [] {
      AddSequenceBigrams(c, data[0]);
      AddSequenceTotals(c, data[0]);
      TrainFromCounts(AddSequence(c, data[0]), data[1..], x, y);
    }
  }

  /** Count conservation of the list constructor: the start table counts the
      first tokens, each bigram is counted as often as it occurs (the end of
      a sequence counting as a bigram with `EndToken`), each token has as
      many recorded transitions as occurrences, and the chain is consistent. */
  lemma TrainCounts(data: seq<seq<string>>, x: string, y: string)
    ensures Count(Train(data).startTokens, x) == multiset(Starts(data))[x]
    ensures Total(Train(data).startTokens) == |Starts(data)|
    ensures BigramCount(Train(data), x, y) == multiset(AllBigrams(data))[(x, y)]
    ensures Out(Train(data), x) == multiset(Tokens(data))[x]
    ensures Transitions(Train(data)) == |Tokens(data)|
    ensures Consistent(Train(data))
  {
    TrainFromCounts(EmptyChain, data, x, y);
    OutSumAbsent(EmptyChain, EmptyChain.bigrams.Keys);
    TrainFromConsistent(EmptyChain, data);
  }

  /** The words that follow `x` in the bigram list `ps`, in order. */
  function Followers(ps: seq<(string, string)>, x: string): seq<string> {
    if ps == [] then []
    else (if ps[0].0 == x then [ps[0].1] else []) + Followers(ps[1..], x)
  }

  lemma {:induction false} FollowersAppend(ps: seq<(string, string)>, qs: seq<(string, string)>, x: string)
    ensures Followers(ps + qs, x) == Followers(ps, x) + Followers(qs, x)
  {
    if ps == [] {
      assert ps + qs == qs;
    } else {
      FollowersAppend(ps[1..], qs, x);
      assert (ps + qs)[0] == ps[0] && (ps + qs)[1..] == ps[1..] + qs;
    }
  }

  lemma {:induction false} FollowersCount(ps: seq<(string, string)>, x: string, y: string)
    ensures multiset(Followers(ps, x))[y] == multiset(ps)[(x, y)]
  {
    if ps != [] {
      FollowersCount(ps[1..], x, y);
      assert ps == [ps[0]] + ps[1..];
    }
  }

  /** The list constructor's tables are fixed by the data alone: the start
      table tallies the first tokens, the table of `x` tallies the words that
      follow `x` (`EndToken` after a last token), and `x` has a table exactly
      when it occurs in the data. */
  lemma TrainTables(data: seq<seq<string>>, x: string)
    ensures Train(data).startTokens == Tally(Starts(data))
    ensures Successors(Train(data), x) == Tally(Followers(AllBigrams(data), x))
    ensures x in Train(data).bigrams <==> x in Tokens(data)
  {
    var c := Train(data);
    forall k
      ensures Count(c.startTokens, k) == Count(Tally(Starts(data)), k)
    {
      TrainCounts(data, k, k);
      TallyCounts(Starts(data), k);
    }
    CountsDetermine(c.startTokens, Tally(Starts(data)));
    var ws := Followers(AllBigrams(data), x);
    forall y
      ensures Count(Successors(c, x), y) == Count(Tally(ws), y)
    {
      TrainCounts(data, x, y);
      FollowersCount(AllBigrams(data), x, y);
      TallyCounts(ws, y);
    }
    CountsDetermine(Successors(c, x), Tally(ws));
    TrainCounts(data, x, x);
    if x in c.bigrams {
      assert Total(c.bigrams[x]) > 0;
    }
  }

  lemma {:induction false} TrainFromConsistent(c: Chain, data: seq<seq<string>>)
    requires Consistent(c)
    ensures Consistent(TrainFrom(c, data))
    decreases |data|
  {
    if data != [] {
      AddSequenceConsistent(c, data[0]);
      TrainFromConsistent(AddSequence(c, data[0]), data[1..]);
    }
  }
}
