/** The illustrative example of the `MarkovChain` documentation: two
    training sequences, the tables they produce, and the walk `0 2 0`. */
module MarkovExample {
  import opened Wrappers
  import opened NumberGenerator
  import opened Distribution
  import opened MarkovChain
  import opened MarkovWalk

  const TableAndChair: seq<string> := ["a", "table", "and", "a", "chair"]
  const BananaAndBanana: seq<string> := ["a", "banana", "!", "and", "a", "banana", "?"]
  const ExampleData: seq<seq<string>> := [TableAndChair, BananaAndBanana]

  /** The chain as the documentation prints it. */
  function ExampleChain(): Chain {
    Chain(
      [Entry("a", 2)],
      map[
        "!" := [Entry("and", 1)],
        "?" := [Entry(EndToken, 1)],
        "a" := [Entry("banana", 2), Entry("chair", 1), Entry("table", 1)],
        "and" := [Entry("a", 2)],
        "banana" := [Entry("!", 1), Entry("?", 1)],
        "chair" := [Entry(EndToken, 1)],
        "table" := [Entry("and", 1)]
      ])
  }

  // ---------------------------------------------------------------------
  // Training

  /** The bigrams of each sequence, closed by the end token `"<END>"`. */
  const FirstPairs: seq<(string, string)> :=
    [("a", "table"), ("table", "and"), ("and", "a"), ("a", "chair"), ("chair", "<END>")]
  const SecondPairs: seq<(string, string)> :=
    [("a", "banana"), ("banana", "!"), ("!", "and"), ("and", "a"), ("a", "banana"), ("banana", "?"), ("?", "<END>")]

  /** What training reads from a data set: its bigrams, its first words and
      its tokens. The example data has these; the table lemmas below are
      stated for any data that has them. */
  predicate LikeExample(data: seq<seq<string>>) {
    && AllBigrams(data) == FirstPairs + SecondPairs
    && Starts(data) == ["a", "a"]
    && Tokens(data) == TableAndChair + BananaAndBanana
  }

  lemma ExampleLists()
    ensures LikeExample(ExampleData)
  {
    var data := ExampleData;
    assert Bigrams(TableAndChair) == FirstPairs;
    assert Bigrams(BananaAndBanana) == SecondPairs;
    assert data[1..] == [BananaAndBanana] && data[1..][1..] == [];
    assert AllBigrams(data[1..]) == Bigrams(BananaAndBanana);
    assert Starts(data[1..]) == ["a"];
    assert Tokens(data[1..]) == BananaAndBanana;
  }

  /** The table of `x` after training is the tally of the words that follow
      `x` in the first sequence and then in the second. */
  lemma TrainedTable(data: seq<seq<string>>, x: string, all: seq<string>)
    requires LikeExample(data)
    requires Followers(FirstPairs, x) + Followers(SecondPairs, x) == all
    ensures Successors(Train(data), x) == Tally(all)
  {
    TrainTables(data, x);
    FollowersAppend(FirstPairs, SecondPairs, x);
  }

  lemma HalvesOfA()
    ensures Followers(FirstPairs, "a") == ["table", "chair"]
    ensures Followers(SecondPairs, "a") == ["banana", "banana"]
  {
  }

  lemma FollowersOfA()
    ensures Followers(FirstPairs, "a") + Followers(SecondPairs, "a") == ["table", "chair", "banana", "banana"]
  {
    HalvesOfA();
  }

  lemma TallyOfA()
    ensures Tally(["table", "chair", "banana", "banana"]) == [Entry("banana", 2), Entry("chair", 1), Entry("table", 1)]
  {
    assert Tally(["banana"]) == [Entry("banana", 1)];
    assert Tally(["banana", "banana"]) == [Entry("banana", 2)];
    assert Tally(["chair", "banana", "banana"]) == [Entry("banana", 2), Entry("chair", 1)];
  }

  lemma TableOfA(data: seq<seq<string>>)
    requires LikeExample(data)
    ensures Successors(Train(data), "a") == [Entry("banana", 2), Entry("chair", 1), Entry("table", 1)]
  {
    FollowersOfA();
    TrainedTable(data, "a", ["table", "chair", "banana", "banana"]);
    TallyOfA();
  }

  lemma HalvesOfAnd()
    ensures Followers(FirstPairs, "and") == ["a"]
    ensures Followers(SecondPairs, "and") == ["a"]
  {
  }

  lemma FollowersOfAnd()
    ensures Followers(FirstPairs, "and") + Followers(SecondPairs, "and") == ["a", "a"]
  {
    HalvesOfAnd();
  }

  lemma TableOfAnd(data: seq<seq<string>>)
    requires LikeExample(data)
    ensures Successors(Train(data), "and") == [Entry("a", 2)]
  {
    FollowersOfAnd();
    TrainedTable(data, "and", ["a", "a"]);
    assert Tally(["a"]) == [Entry("a", 1)];
  }

  lemma HalvesOfBanana()
    ensures Followers(FirstPairs, "banana") == []
    ensures Followers(SecondPairs, "banana") == ["!", "?"]
  {
  }

  lemma FollowersOfBanana()
    ensures Followers(FirstPairs, "banana") + Followers(SecondPairs, "banana") == ["!", "?"]
  {
    HalvesOfBanana();
  }

  lemma TallyOfBanana()
    ensures Tally(["!", "?"]) == [Entry("!", 1), Entry("?", 1)]
  {
    assert Tally(["?"]) == [Entry("?", 1)];
  }

  lemma TableOfBanana(data: seq<seq<string>>)
    requires LikeExample(data)
    ensures Successors(Train(data), "banana") == [Entry("!", 1), Entry("?", 1)]
  {
    FollowersOfBanana();
    TrainedTable(data, "banana", ["!", "?"]);
    TallyOfBanana();
  }

  /** The four words with a single follower. */
  lemma HalvesOfTableAndChair()
    ensures Followers(FirstPairs, "table") == ["and"] && Followers(SecondPairs, "table") == []
    ensures Followers(FirstPairs, "chair") == ["<END>"] && Followers(SecondPairs, "chair") == []
  {
  }

  lemma HalvesOfMarks()
    ensures Followers(FirstPairs, "!") == [] && Followers(SecondPairs, "!") == ["and"]
    ensures Followers(FirstPairs, "?") == [] && Followers(SecondPairs, "?") == ["<END>"]
  {
  }

  lemma FollowersOfOthers()
    ensures Followers(FirstPairs, "table") + Followers(SecondPairs, "table") == ["and"]
    ensures Followers(FirstPairs, "chair") + Followers(SecondPairs, "chair") == ["<END>"]
    ensures Followers(FirstPairs, "!") + Followers(SecondPairs, "!") == ["and"]
    ensures Followers(FirstPairs, "?") + Followers(SecondPairs, "?") == ["<END>"]
  {
    HalvesOfTableAndChair();
    HalvesOfMarks();
  }

  lemma TablesOfOthers(data: seq<seq<string>>)
    requires LikeExample(data)
    ensures Successors(Train(data), "table") == [Entry("and", 1)]
    ensures Successors(Train(data), "chair") == [Entry(EndToken, 1)]
    ensures Successors(Train(data), "!") == [Entry("and", 1)]
    ensures Successors(Train(data), "?") == [Entry(EndToken, 1)]
  {
    FollowersOfOthers();
    TrainedTable(data, "table", ["and"]);
    TrainedTable(data, "chair", ["<END>"]);
    TrainedTable(data, "!", ["and"]);
    TrainedTable(data, "?", ["<END>"]);
  }

  /** The tokens that get a table are exactly the seven words of the data. */
  lemma TrainedKeys(data: seq<seq<string>>)
    requires LikeExample(data)
    ensures Train(data).bigrams.Keys == ExampleChain().bigrams.Keys
  {
    forall x
      ensures x in Train(data).bigrams <==> x in ExampleChain().bigrams
    {
      TrainTables(data, x);
    }
  }

  lemma TrainedStarts(data: seq<seq<string>>)
    requires LikeExample(data)
    ensures Train(data).startTokens == [Entry("a", 2)]
  {
    TrainTables(data, "a");
    assert Tally(["a"]) == [Entry("a", 1)];
  }

  /** Each of the seven words gets the printed table. */
  lemma TrainedTableOf(data: seq<seq<string>>, x: string)
    requires LikeExample(data)
    requires x in ExampleChain().bigrams
    ensures x in Train(data).bigrams && Train(data).bigrams[x] == ExampleChain().bigrams[x]
  {
    if x == "a" {
      TableOfA(data);
    } else if x == "and" {
      TableOfAnd(data);
    } else if x == "banana" {
      TableOfBanana(data);
    } else if x == "table" || x == "chair" || x == "!" || x == "?" {
      TablesOfOthers(data);
    } else {
      assert false;
    }
  }

  /** Any data with the example's bigrams, first words and tokens trains the
      printed chain. */
  lemma TrainedChain(data: seq<seq<string>>)
    requires LikeExample(data)
    ensures Train(data) == ExampleChain()
  {
    var c, e := Train(data), ExampleChain();
    TrainedStarts(data);
    TrainedKeys(data);
    forall x | x in c.bigrams
      ensures c.bigrams[x] == e.bigrams[x]
    {
      TrainedTableOf(data, x);
    }
    assert c.bigrams == e.bigrams;
  }

  /** Training on the two example sequences yields exactly the printed tables. */
  lemma ExampleTraining()
    ensures Train(ExampleData) == ExampleChain()
  {
    ExampleLists();
    TrainedChain(ExampleData);
  }

  // ---------------------------------------------------------------------
  // The walk 0 2 0

  lemma WalkStartsAtA()
    ensures StartWalk(ExampleChain(), Replay([0, 2, 0])) == Walk(ExampleChain().bigrams, Replay([2, 0]), Some("a"))
  {
    var c := ExampleChain();
    assert Total(c.startTokens) == 2;
    assert PickAt(c.startTokens, 0) == "a";
  }

  lemma WalkAToChair()
    ensures Next(Walk(ExampleChain().bigrams, Replay([2, 0]), Some("a")))
         == Ok(("a", Walk(ExampleChain().bigrams, Replay([0]), Some("chair"))))
  {
    var ta := ExampleChain().bigrams["a"];
    assert Total(ta) == 4;
    assert PickAt(ta, 2) == "chair";
  }

  lemma WalkChairToEnd()
    ensures Next(Walk(ExampleChain().bigrams, Replay([0]), Some("chair")))
         == Ok(("chair", Walk(ExampleChain().bigrams, Replay([]), Some(EndToken))))
  {
    var tc := ExampleChain().bigrams["chair"];
    assert Total(tc) == 1;
    assert PickAt(tc, 0) == EndToken;
  }

  /** A walk that starts, steps twice and stops yields the two words. */
  lemma TwoStepWalk(c: Chain, g: Replay, w0: Walk, w1: Walk, w2: Walk, x: string, y: string)
    requires StartWalk(c, g) == w0
    requires Next(w0) == Ok((x, w1)) && Next(w1) == Ok((y, w2))
    requires !HasNext(w2)
    ensures GetWalk(c, g) == Ok([x, y])
  {
    RunWalkStep(w1, y, w2, []);
    assert [y] + [] == [y];
    RunWalkStep(w0, x, w1, [y]);
    assert [x] + [y] == [x, y];
  }

  /** The numbers `0 2 0` walk the example chain through "a" and "chair" to the end. */
  lemma ExampleWalk()
    ensures GetWalk(ExampleChain(), Replay([0, 2, 0])) == Ok(["a", "chair"])
  {
    var bigrams := ExampleChain().bigrams;
    WalkStartsAtA();
    WalkAToChair();
    WalkChairToEnd();
    TwoStepWalk(ExampleChain(), Replay([0, 2, 0]),
      Walk(bigrams, Replay([2, 0]), Some("a")), Walk(bigrams, Replay([0]), Some("chair")),
      Walk(bigrams, Replay([]), Some(EndToken)), "a", "chair");
  }
}
