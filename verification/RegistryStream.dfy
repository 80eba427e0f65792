/**
The part of a candle-registry entry its own lock guards: the replay cache and the subscriber channels
that its forwarder fills. Each step is one critical section; a channel keeps its whole history.
 */
module RegistryStream {
  import opened Prelude
  import opened BarFeed

  const CACHE_CAP: nat := 4096
  const CHAN_BASE: nat := 16

  /** Where the last n of len items start. */
  function SuffixStart(len: nat, n: nat): nat
  {
    if len > n then len - n else 0
  }

  function Suffix(s: seq<Candle>, n: nat): seq<Candle>
  {
    s[SuffixStart(|s|, n)..]
  }

  /** The bounded cache; overflow moves the tail to the front in place. */
  class BarCache {
    const cap: nat
    const data: array<Candle>
    var len: nat

    ghost predicate Valid()
      reads this
    {
      len <= cap && data.Length == cap + 1
    }

    ghost function Contents(): seq<Candle>
      reads this, data
      requires Valid()
    {
      data[..len]
    }

    constructor (cap: nat, zero: Candle)
      ensures Valid() && this.cap == cap && Contents() == [] && fresh(data)
    {
      this.cap := cap;
      data := new Candle[cap + 1](_ => zero);
      len := 0;
    }

    method Add(bar: Candle)
      requires Valid()
      modifies this, data
      ensures Valid() && Contents() == Suffix(old(Contents()) + [bar], cap)
      ensures var all := old(Contents()) + [bar]; Contents() == if |all| <= cap then all else all[|all| - cap..]
    {
      ghost var all := Contents() + [bar];
      data[len] := bar;
      len := len + 1;
      assert data[..len] == all;
      if len > cap {
        var shift := len - cap;
        for i := 0 to cap
          invariant len == |all| == cap + shift && data.Length >= len
          invariant forall k :: 0 <= k < i ==> data[k] == all[k + shift]
          invariant forall k :: i <= k < len ==> data[k] == all[k]
        {
          data[i] := data[i + shift];
        }
        len := cap;
        assert data[..cap] == all[shift..];
      }
    }
  }

  // ---- State and steps ----------------------------------------------------------------------

  /**
  `delivered` is everything ever put in the channel and `at` the position of each of those bars in the
  entry's stream; `taken` counts the reads, `joined` is the stream length at subscription, and `gap`
  the position of the first bar missed.
   */
  datatype Chan = Chan(cap: nat, delivered: seq<Candle>, at: seq<nat>, taken: nat, joined: nat, gap: Option<nat>,
                       registered: bool, closed: bool)

  /** `emitted` is every bar the forwarder has handled; `panicked` that a closed channel was used. */
  datatype Stream = Stream(emitted: seq<Candle>, cache: seq<Candle>, chans: map<nat, Chan>, exited: bool, panicked: bool)

  const NEW_STREAM := Stream([], [], map[], false, false)

  datatype Step = Join(handle: nat) | Emit(bar: Candle) | Exit | Take(handle: nat) | Cancel(handle: nat)

  /** Room for the snapshot and a little more; the snapshot is put in the channel before anything else. */
  function Joined(s: Stream): Chan
  {
    var start := SuffixStart(|s.emitted|, CACHE_CAP);
    Chan(|s.cache| + CHAN_BASE, s.cache, seq(|s.cache|, i => start + i), 0, |s.emitted|, None, true, false)
  }

  /** A send that never blocks: a full channel misses the bar. */
  function Deliver(c: Chan, bar: Candle, position: nat): Chan
  {
    if |c.delivered| - c.taken < c.cap then c.(delivered := c.delivered + [bar], at := c.at + [position])
    else if c.gap == None then c.(gap := Some(position))
    else c
  }

  /** Cancelling is a once-only function: it finds its channel still registered or leaves it alone. */
  ghost predicate Enabled(s: Stream, step: Step)
  {
    match step
    case Join(h) => h !in s.chans
    case Emit(_) => !s.exited
    case Exit => !s.exited
    case Take(h) => h in s.chans && s.chans[h].taken < |s.chans[h].delivered|
    case Cancel(h) => h in s.chans
  }

  ghost function Next(s: Stream, step: Step): Stream
    requires Enabled(s, step)
  {
    match step
    case Join(h) => s.(chans := s.chans[h := Joined(s)])
    case Emit(bar) =>
      Stream(s.emitted + [bar], Suffix(s.cache + [bar], CACHE_CAP),
             map h | h in s.chans :: if s.chans[h].registered then Deliver(s.chans[h], bar, |s.emitted|) else s.chans[h],
             s.exited, s.panicked || exists h :: h in s.chans && s.chans[h].registered && s.chans[h].closed)
    case Exit =>
      s.(chans := map h | h in s.chans ::
                    if s.chans[h].registered then s.chans[h].(registered := false, closed := true) else s.chans[h],
         exited := true,
         panicked := s.panicked || exists h :: h in s.chans && s.chans[h].registered && s.chans[h].closed)
    case Take(h) => s.(chans := s.chans[h := s.chans[h].(taken := s.chans[h].taken + 1)])
    case Cancel(h) =>
      if s.chans[h].registered then
        s.(chans := s.chans[h := s.chans[h].(registered := false, closed := true)], panicked := s.panicked || s.chans[h].closed)
      else s
  }

  // ---- What every subscriber gets -----------------------------------------------------------

  /** Bars in stream order, each the one emitted at its position. */
  ghost predicate InOrder(emitted: seq<Candle>, c: Chan)
  {
    && |c.at| == |c.delivered| && c.taken <= |c.delivered|
    && (forall i :: 0 <= i < |c.at| ==> c.at[i] < |emitted| && c.delivered[i] == emitted[c.at[i]])
    && (forall i, j :: 0 <= i < j < |c.at| ==> c.at[i] < c.at[j])
  }

  /** Consecutive from the replay point up to the first gap; before any gap, up to date while registered. */
  ghost predicate Contiguous(emitted: seq<Candle>, c: Chan)
  {
    var start := SuffixStart(c.joined, CACHE_CAP);
    && c.joined <= |emitted| && c.joined - start <= |c.at|
    && (forall i :: 0 <= i < |c.at| && (c.gap == None || start + i < c.gap.value) ==> c.at[i] == start + i)
    && (c.gap.Some? ==> c.joined <= c.gap.value < |emitted| && c.gap.value - start <= |c.at|)
    && (c.gap.Some? ==> forall i :: 0 <= i < |c.at| && start + i >= c.gap.value ==> c.at[i] > c.gap.value)
    && (c.gap == None && c.registered ==> start + |c.at| == |emitted|)
  }

  ghost predicate ChanInv(emitted: seq<Candle>, c: Chan)
  {
    && InOrder(emitted, c) && Contiguous(emitted, c) && (c.registered ==> !c.closed)
    && (c.gap.Some? ==> |c.delivered| >= c.cap)
  }

  /** The cache is the stream's tail, no closed channel was ever used, and every channel is in order. */
  ghost predicate Inv(s: Stream)
  {
    && s.cache == Suffix(s.emitted, CACHE_CAP) && !s.panicked
    && forall h | h in s.chans :: ChanInv(s.emitted, s.chans[h])
  }

  lemma SuffixSnoc(s: seq<Candle>, bar: Candle, n: nat)
    ensures Suffix(Suffix(s, n) + [bar], n) == Suffix(s + [bar], n)
  {
  }

  lemma JoinedInv(s: Stream)
    requires s.cache == Suffix(s.emitted, CACHE_CAP)
    ensures ChanInv(s.emitted, Joined(s)) && |Joined(s).delivered| <= Joined(s).cap
  {
  }

  lemma DeliverInOrder(emitted: seq<Candle>, c: Chan, bar: Candle)
    requires InOrder(emitted, c)
    ensures InOrder(emitted + [bar], c) && InOrder(emitted + [bar], Deliver(c, bar, |emitted|))
  {
    var e, d := emitted + [bar], Deliver(c, bar, |emitted|);
    assert forall i :: 0 <= i < |emitted| ==> e[i] == emitted[i];
    assert forall i :: 0 <= i < |c.at| ==> d.at[i] == c.at[i] && d.delivered[i] == c.delivered[i];
  }

  lemma DeliverContiguous(emitted: seq<Candle>, c: Chan, bar: Candle)
    requires Contiguous(emitted, c) && |c.at| == |c.delivered|
    ensures c.registered ==> Contiguous(emitted + [bar], Deliver(c, bar, |emitted|))
    ensures !c.registered ==> Contiguous(emitted + [bar], c)
  {
    var d := Deliver(c, bar, |emitted|);
    assert forall i :: 0 <= i < |c.at| ==> d.at[i] == c.at[i];
  }

  lemma TakeKeeps(emitted: seq<Candle>, c: Chan)
    requires ChanInv(emitted, c) && c.taken < |c.delivered|
    ensures ChanInv(emitted, c.(taken := c.taken + 1))
  {
  }

  lemma CloseKeeps(emitted: seq<Candle>, c: Chan)
    requires ChanInv(emitted, c)
    ensures ChanInv(emitted, c.(registered := false, closed := true))
  {
  }

  lemma EmitKeeps(s: Stream, bar: Candle)
    requires Inv(s) && Enabled(s, Emit(bar))
    ensures Inv(Next(s, Emit(bar)))
  {
    SuffixSnoc(s.emitted, bar, CACHE_CAP);
    assert forall h | h in s.chans :: ChanInv(s.emitted, s.chans[h]);
    forall h | h in s.chans ensures ChanInv(s.emitted + [bar], Next(s, Emit(bar)).chans[h]) {
      DeliverInOrder(s.emitted, s.chans[h], bar);
      DeliverContiguous(s.emitted, s.chans[h], bar);
    }
  }

  lemma ExitKeeps(s: Stream)
    requires Inv(s) && Enabled(s, Exit)
    ensures Inv(Next(s, Exit))
  {
    forall h | h in s.chans ensures ChanInv(s.emitted, Next(s, Exit).chans[h]) {
      CloseKeeps(s.emitted, s.chans[h]);
    }
  }

  lemma SetChanKeeps(s: Stream, h: nat, c: Chan)
    requires Inv(s) && ChanInv(s.emitted, c)
    ensures Inv(s.(chans := s.chans[h := c]))
  {
  }

  lemma CancelKeeps(s: Stream, h: nat)
    requires Inv(s) && h in s.chans
    ensures Inv(Next(s, Cancel(h)))
  {
    CloseKeeps(s.emitted, s.chans[h]);
    SetChanKeeps(s, h, s.chans[h].(registered := false, closed := true));
  }

  lemma JoinKeeps(s: Stream, h: nat)
    requires Inv(s)
    ensures Inv(s.(chans := s.chans[h := Joined(s)]))
  {
    JoinedInv(s);
    SetChanKeeps(s, h, Joined(s));
  }

  lemma ReadIs(s: Stream, h: nat)
    requires Enabled(s, Take(h))
    ensures Next(s, Take(h)) == s.(chans := s.chans[h := s.chans[h].(taken := s.chans[h].taken + 1)])
  {
  }

  lemma ReadKeeps(s: Stream, h: nat)
    requires Inv(s) && Enabled(s, Take(h))
    ensures Inv(Next(s, Take(h)))
  {
    hide Next, Suffix, InOrder, Contiguous;
    assert ChanInv(s.emitted, s.chans[h]);
    TakeKeeps(s.emitted, s.chans[h]);
    SetChanKeeps(s, h, s.chans[h].(taken := s.chans[h].taken + 1));
    ReadIs(s, h);
  }

  /** Every critical section keeps every channel in order. */
  lemma StepKeeps(s: Stream, step: Step)
    requires Inv(s) && Enabled(s, step)
    ensures Inv(Next(s, step))
  {
    match step
    case Join(h) => JoinKeeps(s, h);
    case Emit(bar) => EmitKeeps(s, bar);
    case Exit => ExitKeeps(s);
    case Take(h) => ReadKeeps(s, h);
    case Cancel(h) => CancelKeeps(s, h);
  }

  lemma StepChans(s: Stream, step: Step)
    requires Enabled(s, step)
    ensures Next(s, step).chans.Keys == s.chans.Keys + (if step.Join? then {step.handle} else {})
  {
  }

  /** A subscriber starts with the latest 4096 bars, or all there are, and with room for 16 more. */
  lemma JoinOutcome(s: Stream, h: nat)
    requires Inv(s) && Enabled(s, Join(h))
    ensures var v, n := Next(s, Join(h)), if |s.emitted| < 4096 then |s.emitted| else 4096;
            && v.emitted == s.emitted && v.chans.Keys == s.chans.Keys + {h}
            && (forall other | other in s.chans :: v.chans[other] == s.chans[other])
            && v.chans[h].delivered == s.emitted[|s.emitted| - n..] && v.chans[h].cap == n + 16 && v.chans[h].taken == 0
            && v.chans[h].joined == |s.emitted| && v.chans[h].registered && !v.chans[h].closed
  {
  }

  /** A bar goes to the end of the stream, and into every registered channel with room for it; nobody reads meanwhile. */
  lemma EmitOutcome(s: Stream, bar: Candle, h: nat)
    requires Enabled(s, Emit(bar)) && h in s.chans
    ensures var v, c := Next(s, Emit(bar)), s.chans[h];
            && v.emitted == s.emitted + [bar] && v.chans.Keys == s.chans.Keys
            && v.chans[h].delivered == (if c.registered && |c.delivered| - c.taken < c.cap then c.delivered + [bar] else c.delivered)
            && v.chans[h].taken == c.taken && v.chans[h].cap == c.cap && v.chans[h].joined == c.joined
            && v.chans[h].registered == c.registered && v.chans[h].closed == c.closed
  {
  }

  /** A forwarder that exits closes every registered channel, a cancel its own; what was put in them stays readable. */
  lemma LeaveOutcome(s: Stream, step: Step, h: nat)
    requires Inv(s) && Enabled(s, step) && h in s.chans && (step == Exit || step == Cancel(h))
    ensures var v, c := Next(s, step), s.chans[h];
            && !v.chans[h].registered && (c.registered ==> v.chans[h].closed) && v.emitted == s.emitted
            && v.chans[h].delivered == c.delivered && v.chans[h].taken == c.taken && (v.exited <==> s.exited || step == Exit)
  {
    assert ChanInv(s.emitted, s.chans[h]);
  }

  /**
  Read as sequences: a subscriber that missed nothing received exactly one unbroken stretch of the
  stream, which starts min(n, 4096) bars before it joined and reaches the present while it is registered.
   */
  lemma NoGapNoDuplicate(s: Stream, h: nat)
    requires Inv(s) && h in s.chans && s.chans[h].gap == None
    ensures var c := s.chans[h];
            var start := SuffixStart(c.joined, CACHE_CAP);
            && start + |c.delivered| <= |s.emitted|
            && c.delivered == s.emitted[start..start + |c.delivered|]
            && (c.registered ==> c.delivered == s.emitted[start..])
  {
    var c := s.chans[h];
    if c.at != [] { assert c.at[|c.at| - 1] < |s.emitted|; }
  }

  /** The unread backlog of a registered channel fills it: a bar emitted now would be missed. */
  predicate Full(c: Chan)
  {
    c.registered && |c.delivered| - c.taken >= c.cap
  }

  /** A channel's first gap is made by an emission that finds it full, by nothing else, and stays. */
  lemma GapStep(s: Stream, step: Step, h: nat)
    requires Enabled(s, step) && h in Next(s, step).chans
    ensures h !in s.chans ==> Next(s, step).chans[h].gap == None
    ensures h in s.chans ==> (Next(s, step).chans[h].gap == None <==>
                              s.chans[h].gap == None && !(step.Emit? && Full(s.chans[h])))
  {
  }

  /** Up to its first gap a subscriber received one unbroken stretch of the stream; afterwards a subsequence of it. */
  lemma StretchThenSubsequence(s: Stream, h: nat)
    requires Inv(s) && h in s.chans && s.chans[h].gap.Some?
    ensures var c := s.chans[h];
            var start := SuffixStart(c.joined, CACHE_CAP);
            var n := c.gap.value - start;
            && 0 <= n <= |c.delivered| && c.gap.value < |s.emitted| && |c.delivered| >= c.cap
            && c.delivered[..n] == s.emitted[start..c.gap.value]
            && InOrder(s.emitted, c) && c.gap.value !in c.at
  {
    var c := s.chans[h];
    assert ChanInv(s.emitted, c);
    var start := SuffixStart(c.joined, CACHE_CAP);
    var n := c.gap.value - start;
  }
}
