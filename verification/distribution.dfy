/** `ProbabilityDistribution<String>`: a frequency table traversed in
    ascending key order. Its entries are kept as a list sorted by
    `StringOrder.Less`, the order of the `TreeMap` it stands for, so that the
    cumulative ranges used by `pick` and `index` are fixed by the data alone. */
module Distribution {
  import opened Wrappers
  import opened StringOrder
  import opened NumberGenerator

  datatype Entry = Entry(key: string, count: nat)

  /** Every count is positive and the keys strictly ascend. */
  predicate Valid(es: seq<Entry>) {
    && (forall i :: 0 <= i < |es| ==> es[i].count > 0)
    && (forall i, j :: 0 <= i < j < |es| ==> Less(es[i].key, es[j].key))
  }

  type Dist = es: seq<Entry> | Valid(es) witness []

  /** A fresh distribution: nothing recorded. */
  const Empty: Dist := []

  function Keys(d: seq<Entry>): set<string> {
    if |d| == 0 then {} else {d[0].key} + Keys(d[1..])
  }

  /** The count of `k`, zero when absent. */
  function Count(d: seq<Entry>, k: string): nat {
    if |d| == 0 then 0
    else if d[0].key == k then d[0].count
    else Count(d[1..], k)
  }

  /** The sum of all counts. */
  function Total(d: seq<Entry>): nat {
    if |d| == 0 then 0 else d[0].count + Total(d[1..])
  }

  /** The sum of the counts of the keys that sort strictly before `k`. */
  function Below(d: seq<Entry>, k: string): nat {
    if |d| == 0 then 0
    else (if Less(d[0].key, k) then d[0].count else 0) + Below(d[1..], k)
  }

  // ---------------------------------------------------------------------
  // Facts about sorted entry lists

  lemma {:induction false} KeysIndex(d: seq<Entry>, k: string)
    ensures k in Keys(d) <==> exists i :: 0 <= i < |d| && d[i].key == k
  {
    if |d| > 0 {
      KeysIndex(d[1..], k);
      if k in Keys(d[1..]) {
        var i :| 0 <= i < |d[1..]| && d[1..][i].key == k;
        assert d[i + 1].key == k;
      }
      if exists i :: 0 <= i < |d| && d[i].key == k {
        var i :| 0 <= i < |d| && d[i].key == k;
        if i > 0 {
          assert d[1..][i - 1].key == k;
        }
      }
    }
  }

  /** Every key after the first sorts after it. */
  lemma HeadBeforeTail(d: Dist, k: string)
    requires |d| > 0 && k in Keys(d[1..])
    ensures Less(d[0].key, k)
  {
    KeysIndex(d[1..], k);
    var i :| 0 <= i < |d[1..]| && d[1..][i].key == k;
    assert d[i + 1].key == k;
  }

  /** A key is present exactly when its count is positive. */
  lemma {:induction false} CountKeys(d: Dist, k: string)
    ensures Count(d, k) > 0 <==> k in Keys(d)
  {
    if |d| > 0 && d[0].key != k {
      CountKeys(d[1..], k);
    }
  }

  /** A key before the first one is absent. */
  lemma AbsentBeforeHead(d: Dist, k: string)
    requires |d| > 0 && Less(k, d[0].key)
    ensures k !in Keys(d)
  {
    LessIrreflexive(k);
    if k in Keys(d[1..]) {
      HeadBeforeTail(d, k);
      LessAsymmetric(k, d[0].key);
    }
  }

  /** A distribution is determined by its counts: two tables that count
      every key alike are the same sorted list. */
  lemma {:induction false} CountsDetermine(d: Dist, e: Dist)
    requires forall k :: Count(d, k) == Count(e, k)
    ensures d == e
  {
    if |d| > 0 && |e| > 0 {
      var a, b := d[0].key, e[0].key;
      if a != b {
        LessTotal(a, b);
        if Less(a, b) {
          AbsentBeforeHead(e, a);
          CountKeys(e, a);
        } else {
          AbsentBeforeHead(d, b);
          CountKeys(d, b);
        }
        assert false;
      }
      TailLacksHead(d);
      TailLacksHead(e);
      forall k
        ensures Count(d[1..], k) == Count(e[1..], k)
      {
        if k == a {
          CountKeys(d[1..], a);
          CountKeys(e[1..], a);
        } else {
          assert Count(d, k) == Count(d[1..], k) && Count(e, k) == Count(e[1..], k);
        }
      }
      CountsDetermine(d[1..], e[1..]);
      assert Count(d, a) == d[0].count && Count(e, a) == e[0].count;
      assert d == [d[0]] + d[1..] && e == [e[0]] + e[1..];
    } else if |d| > 0 {
      CountKeys(d, d[0].key);
      assert false;
    } else if |e| > 0 {
      CountKeys(e, e[0].key);
      assert false;
    }
  }

  /** The first key does not recur in the tail. */
  lemma TailLacksHead(d: Dist)
    requires |d| > 0
    ensures d[0].key !in Keys(d[1..])
  {
    if d[0].key in Keys(d[1..]) {
      HeadBeforeTail(d, d[0].key);
      LessIrreflexive(d[0].key);
    }
  }

  lemma PrependValid(e: Entry, d: Dist)
    requires e.count > 0
    requires |d| == 0 || Less(e.key, d[0].key)
    ensures Valid([e] + d)
  {
    var r := [e] + d;
    forall j | 0 < j < |r|
      ensures Less(e.key, r[j].key)
    {
      if j > 1 {
        LessTransitive(e.key, d[0].key, d[j - 1].key);
      }
    }
    forall i, j | 0 <= i < j < |r|
      ensures Less(r[i].key, r[j].key)
    {
      if i > 0 {
        assert r[i] == d[i - 1] && r[j] == d[j - 1];
      }
    }
  }

  lemma InsertAfterHeadValid(d: Dist, k: string, rest: Dist)
    requires |d| > 0 && d[0].key != k && !Less(k, d[0].key)
    requires Keys(rest) == Keys(d[1..]) + {k}
    ensures Valid([d[0]] + rest)
  {
    if |rest| > 0 {
      assert rest[0].key in Keys(rest);
      if rest[0].key == k {
        LessTotal(k, d[0].key);
      } else {
        HeadBeforeTail(d, rest[0].key);
      }
    }
    PrependValid(d[0], rest);
  }

  /** `record(k)`: one more occurrence of `k`, inserted in key order when new. */
  function Record(d: Dist, k: string): (r: Dist)
    ensures Count(r, k) == Count(d, k) + 1
    ensures forall j :: j != k ==> Count(r, j) == Count(d, j)
    ensures Keys(r) == Keys(d) + {k}
    ensures Total(r) == Total(d) + 1
    decreases |d|
  {
    if |d| == 0 then [Entry(k, 1)]
    else if d[0].key == k then
      PrependValid(Entry(k, d[0].count + 1), d[1..]);
      [Entry(k, d[0].count + 1)] + d[1..]
    else if Less(k, d[0].key) then
      PrependValid(Entry(k, 1), d);
      AbsentBeforeHead(d, k);
      CountKeys(d, k);
      [Entry(k, 1)] + d
    else
      var rest := Record(d[1..], k);
      InsertAfterHeadValid(d, k, rest);
      [d[0]] + rest
  }

  /** The table obtained by recording each word of `ws`. */
  function Tally(ws: seq<string>): Dist {
    if ws == [] then Empty else Record(Tally(ws[1..]), ws[0])
  }

  /** A tally counts each word as often as it occurs. */
  lemma {:induction false} TallyCounts(ws: seq<string>, k: string)
    ensures Count(Tally(ws), k) == multiset(ws)[k]
  {
    if ws != [] {
      TallyCounts(ws[1..], k);
      assert ws == [ws[0]] + ws[1..];
    }
  }

  // ---------------------------------------------------------------------
  // pick and index

  /** The key whose cumulative range holds position `i`. */
  function PickAt(d: seq<Entry>, i: nat): (k: string)
    requires i < Total(d)
    ensures k in Keys(d)
  {
    if i < d[0].count then d[0].key else PickAt(d[1..], i - d[0].count)
  }

  lemma {:induction false} BelowNone(d: seq<Entry>, k: string)
    requires forall j :: 0 <= j < |d| ==> !Less(d[j].key, k)
    ensures Below(d, k) == 0
  {
    if |d| > 0 {
      BelowNone(d[1..], k);
    }
  }

  /** Nothing sorts before the first key. */
  lemma BelowHead(d: Dist)
    requires |d| > 0
    ensures Below(d, d[0].key) == 0
  {
    forall j | 0 <= j < |d|
      ensures !Less(d[j].key, d[0].key)
    {
      if j == 0 {
        LessIrreflexive(d[0].key);
      } else {
        LessAsymmetric(d[0].key, d[j].key);
      }
    }
    BelowNone(d, d[0].key);
  }

  /** A key's range ends within the total. */
  lemma {:induction false} RangeWithinTotal(d: Dist, k: string)
    requires k in Keys(d)
    ensures Below(d, k) + Count(d, k) <= Total(d)
  {
    if d[0].key == k {
      BelowHead(d);
    } else {
      HeadBeforeTail(d, k);
      RangeWithinTotal(d[1..], k);
    }
  }

  /** Position `i` picks `k` exactly when `i` lies in `k`'s cumulative range. */
  lemma {:induction false} PickRange(d: Dist, i: nat, k: string)
    requires i < Total(d)
    ensures PickAt(d, i) == k <==> k in Keys(d) && Below(d, k) <= i < Below(d, k) + Count(d, k)
  {
    BelowHead(d);
    if k != d[0].key && k in Keys(d) {
      HeadBeforeTail(d, k);
      LessIrreflexive(k);
    }
    if i >= d[0].count {
      if d[0].key in Keys(d[1..]) {
        HeadBeforeTail(d, d[0].key);
        LessIrreflexive(d[0].key);
      }
      PickRange(d[1..], i - d[0].count, k);
    }
  }

  /** `pick(int)`: the key whose range `[before, before + count)` holds `i`;
      an out-of-range position fails. */
  function PickIndex(d: Dist, i: int): (r: Result<string>)
    ensures r.Ok? <==> 0 <= i < Total(d)
    ensures forall k :: r == Ok(k) <==> k in Keys(d) && Below(d, k) <= i < Below(d, k) + Count(d, k)
  {
    if 0 <= i < Total(d) then
      assert forall k :: PickAt(d, i) == k <==> k in Keys(d) && Below(d, k) <= i < Below(d, k) + Count(d, k) by {
        forall k {
          PickRange(d, i, k);
        }
      }
      Ok(PickAt(d, i))
    else
      assert forall k :: k in Keys(d) ==> Below(d, k) + Count(d, k) <= Total(d) by {
        forall k | k in Keys(d) {
          RangeWithinTotal(d, k);
        }
      }
      Err(IllegalArgument)
  }

  /** The cumulative count before `k`, when `k` is present. */
  function IndexOf(d: seq<Entry>, k: string): nat
    requires k in Keys(d)
  {
    if d[0].key == k then 0 else d[0].count + IndexOf(d[1..], k)
  }

  lemma {:induction false} IndexOfIsBelow(d: Dist, k: string)
    requires k in Keys(d)
    ensures IndexOf(d, k) == Below(d, k)
  {
    if d[0].key == k {
      BelowHead(d);
    } else {
      HeadBeforeTail(d, k);
      IndexOfIsBelow(d[1..], k);
    }
  }

  /** `index(k)`: the sum of the counts of the keys smaller than `k`;
      fails when `k` is absent. */
  function Index(d: Dist, k: string): (r: Result<int>)
    ensures r.Ok? <==> k in Keys(d)
    ensures r.Ok? ==> r.value == Below(d, k)
  {
    if k in Keys(d) then
      IndexOfIsBelow(d, k);
      Ok(IndexOf(d, k))
    else Err(IllegalArgument)
  }

  /** The inverse law: `pick(index(k)) == k`, and no smaller position picks `k`. */
  lemma PickIndexInverse(d: Dist, k: string)
    requires k in Keys(d)
    ensures Index(d, k).Ok?
    ensures PickIndex(d, Index(d, k).value) == Ok(k)
    ensures forall i :: 0 <= i < Index(d, k).value ==> PickIndex(d, i) != Ok(k)
  {
    CountKeys(d, k);
  }

  /** `pick(NumberGenerator)`: draw one number bounded by the total and pick by it. */
  function Pick(d: Dist, g: Replay): (r: Result<(string, Replay)>)
    ensures r.Ok? <==> 0 < Total(d) && |g.values| > 0 && 0 <= g.values[0] < Total(d)
    ensures r.Ok? ==> r.value.1.values == g.values[1..]
    ensures r.Ok? ==> r.value.0 in Keys(d)
    ensures r.Ok? ==> Below(d, r.value.0) <= g.values[0] < Below(d, r.value.0) + Count(d, r.value.0)
  {
    var drawn :- NextNumber(g, Total(d));
    Ok((PickIndex(d, drawn.0).value, drawn.1))
  }
}
