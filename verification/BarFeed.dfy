/** The bar closer: a candle stream in, closed bars out. A bar is final only when a later one appears. */
module BarFeed {
  import opened Prelude

  datatype Candle = Candle(start: int, open: real, high: real, low: real, close: real, volume: real)

  datatype State = State(pending: Option<Candle>, out: seq<Candle>)

  const INITIAL := State(None, [])

  /** One update: stale ones are dropped, a later one closes the pending bar, otherwise it replaces it. */
  function Feed(s: State, c: Candle): State
  {
    if s.pending == None then State(Some(c), s.out)
    else if c.start < s.pending.value.start then s
    else State(Some(c), if c.start > s.pending.value.start then s.out + [s.pending.value] else s.out)
  }

  function FeedAll(s: State, cs: seq<Candle>): State
  {
    if cs == [] then s else Feed(FeedAll(s, cs[..|cs| - 1]), cs[|cs| - 1])
  }

  function Flatten(batches: seq<seq<Candle>>): seq<Candle>
  {
    if batches == [] then [] else Flatten(batches[..|batches| - 1]) + batches[|batches| - 1]
  }

  /**
  The closer's loop over its batches. `sends` is how many bars are delivered before a stop request
  wins; the output is that much of the output of the flattened stream, however it was batched.
   */
  method Loop(batches: seq<seq<Candle>>, sends: nat) returns (out: seq<Candle>)
    ensures var full := FeedAll(INITIAL, Flatten(batches)).out;
            out == if sends < |full| then full[..sends] else full
  {
    var s, stopped := INITIAL, false;
    for b := 0 to |batches|
      invariant s == FeedAll(INITIAL, Flatten(batches[..b])) && |s.out| <= sends
    {
      assert batches[..b + 1][..b] == batches[..b];
      ghost var before := s;
      s, stopped := Batch(s, batches[b], sends);
      FeedAppend(INITIAL, Flatten(batches[..b]), batches[b]);
      if stopped {
        RestOfStream(batches, b + 1);
        return s.out;
      }
    }
    assert batches[..|batches|] == batches;
    return s.out;
  }

  /** One batch; stops at the first send past the limit. */
  method Batch(s: State, batch: seq<Candle>, sends: nat) returns (r: State, stopped: bool)
    requires |s.out| <= sends
    ensures |r.out| <= sends
    ensures !stopped ==> r == FeedAll(s, batch)
    ensures stopped ==> |r.out| == sends && r.out < FeedAll(s, batch).out
  {
    var pending, out := s.pending, s.out;
    for i := 0 to |batch|
      invariant State(pending, out) == FeedAll(s, batch[..i]) && |out| <= sends
    {
      var e := batch[i];
      assert batch[..i + 1][..i] == batch[..i];
      if pending.Some? && e.start < pending.value.start {
        continue;
      }
      if pending.Some? && e.start > pending.value.start {
        if |out| == sends {
          assert batch == batch[..i + 1] + batch[i + 1..];
          OutputGrows(s, batch[..i + 1], batch[i + 1..]);
          return State(pending, out), true;
        }
        out := out + [pending.value];
      }
      pending := Some(e);
    }
    assert batch[..|batch|] == batch;
    return State(pending, out), false;
  }

  lemma FeedSnoc(s: State, cs: seq<Candle>, c: Candle)
    ensures FeedAll(s, cs + [c]) == Feed(FeedAll(s, cs), c)
  {
    assert (cs + [c])[..|cs|] == cs;
  }

  lemma {:induction false} FeedAppend(s: State, a: seq<Candle>, b: seq<Candle>)
    ensures FeedAll(s, a + b) == FeedAll(FeedAll(s, a), b)
    decreases |b|
  {
    if b == [] {
      assert a + b == a;
    } else {
      var n := |b| - 1;
      FeedAppend(s, a, b[..n]);
      assert a + b == a + b[..n] + [b[n]];
      FeedSnoc(s, a + b[..n], b[n]);
    }
  }

  /** Output is only ever appended to, so stopping early loses a tail and nothing else. */
  lemma {:induction false} OutputGrows(s: State, a: seq<Candle>, b: seq<Candle>)
    ensures FeedAll(s, a).out <= FeedAll(s, a + b).out
    decreases |b|
  {
    if b == [] {
      assert a + b == a;
    } else {
      var n := |b| - 1;
      OutputGrows(s, a, b[..n]);
      assert a + b == a + b[..n] + [b[n]];
      FeedSnoc(s, a + b[..n], b[n]);
    }
  }

  lemma {:induction false} RestOfStream(batches: seq<seq<Candle>>, b: nat)
    requires b <= |batches|
    ensures FeedAll(INITIAL, Flatten(batches[..b])).out <= FeedAll(INITIAL, Flatten(batches)).out
    decreases |batches| - b
  {
    if b == |batches| {
      assert batches[..b] == batches;
    } else {
      assert batches[..b + 1][..b] == batches[..b];
      OutputGrows(INITIAL, Flatten(batches[..b]), batches[b]);
      RestOfStream(batches, b + 1);
    }
  }

  // ---- What comes out -----------------------------------------------------------------------

  /** h[i] is the last version of its timestamp before h[j], the first later timestamp. */
  ghost predicate Supersedes(h: seq<Candle>, i: int, j: int)
  {
    && 0 <= i < j < |h| && h[i].start < h[j].start
    && (forall m :: 0 <= m < j ==> h[m].start <= h[i].start)
    && (forall m :: i < m < j ==> h[m].start < h[i].start)
  }

  /** h[i] is the last version of the latest timestamp. */
  ghost predicate IsLatest(h: seq<Candle>, i: int)
  {
    && 0 <= i < |h|
    && (forall m :: 0 <= m < |h| ==> h[m].start <= h[i].start)
    && (forall m :: i < m < |h| ==> h[m].start < h[i].start)
  }

  ghost function Latest(h: seq<Candle>): (i: nat)
    requires h != []
    ensures IsLatest(h, i)
  {
    var n := |h| - 1;
    if n == 0 then 0
    else
      assert forall m :: 0 <= m < n ==> h[..n][m] == h[m];
      if h[n].start >= h[Latest(h[..n])].start then n else Latest(h[..n])
  }

  /** The pending bar is always the last version of the latest timestamp. */
  lemma {:induction false} PendingIsLatest(h: seq<Candle>)
    ensures FeedAll(INITIAL, h).pending == if h == [] then None else Some(h[Latest(h)])
  {
    if h != [] {
      PendingIsLatest(h[..|h| - 1]);
    }
  }

  lemma SupersedesSnoc(h: seq<Candle>, c: Candle, i: int, j: int)
    ensures Supersedes(h + [c], i, j) <==>
            if j < |h| then Supersedes(h, i, j) else j == |h| && IsLatest(h, i) && h[i].start < c.start
  {
    var g := h + [c];
    assert forall m :: 0 <= m < |h| ==> g[m] == h[m];
  }

  ghost predicate Increasing(s: State)
  {
    && (forall k, l :: 0 <= k < l < |s.out| ==> s.out[k].start < s.out[l].start)
    && (forall k :: 0 <= k < |s.out| ==> s.pending.Some? && s.out[k].start < s.pending.value.start)
  }

  lemma FeedIncreases(s: State, c: Candle)
    requires Increasing(s)
    ensures Increasing(Feed(s, c))
  {
    var t := Feed(s, c);
    assert forall k :: 0 <= k < |s.out| ==> t.out[k] == s.out[k];
  }

  /** Output times strictly increase and precede the pending bar's. */
  lemma {:induction false} OutputIncreases(h: seq<Candle>)
    ensures Increasing(FeedAll(INITIAL, h))
  {
    if h != [] {
      OutputIncreases(h[..|h| - 1]);
      FeedIncreases(FeedAll(INITIAL, h[..|h| - 1]), h[|h| - 1]);
    }
  }

  /** Every output is the last version of its timestamp before the first later one. */
  lemma {:induction false} OutputIsLastVersion(h: seq<Candle>, k: nat) returns (i: nat, j: nat)
    requires k < |FeedAll(INITIAL, h).out|
    ensures Supersedes(h, i, j) && FeedAll(INITIAL, h).out[k] == h[i]
  {
    var n := |h| - 1;
    var g := h[..n];
    assert h == g + [h[n]];
    if k < |FeedAll(INITIAL, g).out| {
      i, j := OutputIsLastVersion(g, k);
    } else {
      PendingIsLatest(g);
      i, j := Latest(g), n;
    }
    SupersedesSnoc(g, h[n], i, j);
  }

  /** Every bar that a later timestamp supersedes is output. */
  lemma {:induction false} LastVersionIsOutput(h: seq<Candle>, i: nat, j: nat) returns (k: nat)
    requires Supersedes(h, i, j)
    ensures k < |FeedAll(INITIAL, h).out| && FeedAll(INITIAL, h).out[k] == h[i]
  {
    var n := |h| - 1;
    var g := h[..n];
    assert h == g + [h[n]];
    SupersedesSnoc(g, h[n], i, j);
    if j < n {
      k := LastVersionIsOutput(g, i, j);
    } else {
      PendingIsLatest(g);
      assert i == Latest(g);
      k := |FeedAll(INITIAL, g).out|;
    }
  }

  // ---- Replays ------------------------------------------------------------------------------

  /** Replaying the whole history emits nothing and leaves the pending bar as it was. */
  lemma ReplayIsSilent(h: seq<Candle>)
    ensures FeedAll(INITIAL, h + h) == FeedAll(INITIAL, h)
  {
    FeedAppend(INITIAL, h, h);
    if h != [] {
      PendingIsLatest(h);
      ReplayPrefix(h, FeedAll(INITIAL, h), Latest(h), |h|);
      assert h[..|h|] == h;
    }
  }

  /** While replaying, the pending bar keeps its timestamp, and its final version is back once it comes round. */
  lemma {:induction false} ReplayPrefix(h: seq<Candle>, s: State, i: nat, n: nat)
    requires IsLatest(h, i) && s.pending == Some(h[i]) && n <= |h|
    ensures var t := FeedAll(s, h[..n]);
            && t.out == s.out && t.pending.Some? && t.pending.value.start == h[i].start
            && (n > i ==> t == s)
  {
    if n > 0 {
      assert h[..n][..n - 1] == h[..n - 1];
      ReplayPrefix(h, s, i, n - 1);
    }
  }
}
