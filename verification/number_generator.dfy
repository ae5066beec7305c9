/** The replay form of `NumberGenerator`: a fixed list of integers handed out
    front to back, each checked against the bound the caller asks for. */
module NumberGenerator {
  import opened Wrappers

  datatype Replay = Replay(values: seq<int>)

  /** The next integer in `[0, bound)`, and the generator that remains.
      Fails on a non-positive bound, when the list is exhausted, or when the
      stored value does not fit the bound. */
  function NextNumber(g: Replay, bound: int): (r: Result<(int, Replay)>)
    ensures r.Ok? <==> 0 < bound && |g.values| > 0 && 0 <= g.values[0] < bound
    ensures r.Ok? ==> 0 <= r.value.0 < bound
    ensures r.Ok? ==> [r.value.0] + r.value.1.values == g.values
    ensures |g.values| == 0 && 0 < bound ==> r == Err(NoSuchElement)
  {
    if bound <= 0 then Err(IllegalArgument)
    else if |g.values| == 0 then Err(NoSuchElement)
    else if g.values[0] < 0 || bound <= g.values[0] then Err(IllegalArgument)
    else Ok((g.values[0], Replay(g.values[1..])))
  }
}
