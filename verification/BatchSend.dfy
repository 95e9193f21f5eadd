/**
 Bisecting batch sender (includes/agent/agent/batchsend.h).

 The C++ callback may change whatever it captured.  Here it takes a world `W` to the next one, so one
 statement covers every server.  `SendWithBisect` is the loop with the explicit stack; `Resolve` is the
 plain recursion it stands for: send a range; if it is refused, settle its left and then its right half.
 */
module BatchSend {
  import opened Numbers

  datatype SendOutcome = Accepted | Rejected | TransportError

  datatype BatchReport = BatchReport(accepted: seq<nat>, rejected: seq<nat>, aborted: bool, requests: nat)

  datatype Range = Range(lo: nat, hi: nat)

  type SendFn<!W> = (W, nat, nat) -> (W, SendOutcome)

  /** Where a bisection stands; `lost` tells an abort by a transport error from one by the budget. */
  datatype Progress<W> = Progress(world: W, report: BatchReport, lost: bool)

  const EMPTY_REPORT := BatchReport([], [], false, 0)

  function Indices(lo: nat, hi: nat): (s: seq<nat>)
    requires lo <= hi
    ensures |s| == hi - lo && forall i :: 0 <= i < |s| ==> s[i] == lo + i
  {
    seq(hi - lo, i requires 0 <= i => lo + i)
  }

  /** One request for [lo, hi), with its answer booked. */
  function Request<W>(send: SendFn<W>, lo: nat, hi: nat, g: Progress<W>): Progress<W>
    requires lo < hi
  {
    var (w, outcome) := send(g.world, lo, hi);
    var r := g.report.(requests := g.report.requests + 1);
    match outcome
    case Accepted => Progress(w, r.(accepted := r.accepted + Indices(lo, hi)), g.lost)
    case TransportError => Progress(w, r.(aborted := true), true)
    case Rejected => Progress(w, if hi - lo == 1 then r.(rejected := r.rejected + [lo]) else r, g.lost)
  }

  /** Whether a request for [lo, hi) from `g` has to be split. */
  predicate Splits<W>(send: SendFn<W>, lo: nat, hi: nat, g: Progress<W>) {
    hi - lo > 1 && send(g.world, lo, hi).1 == Rejected
  }

  /** Settle [lo, hi): the recursion the stack stands for. */
  function Resolve<W>(send: SendFn<W>, lo: nat, hi: nat, maxRequests: int, g: Progress<W>): Progress<W>
    requires lo < hi
    decreases hi - lo
  {
    if g.report.aborted then g
    else if g.report.requests >= maxRequests then g.(report := g.report.(aborted := true))
    else
      var g1 := Request(send, lo, hi, g);
      if Splits(send, lo, hi, g) then
        var mid := lo + (hi - lo) / 2;
        Resolve(send, mid, hi, maxRequests, Resolve(send, lo, mid, maxRequests, g1))
      else g1
  }

  /** The whole call: nothing at all is sent for an empty batch. */
  function Bisection<W>(send: SendFn<W>, count: int, maxRequests: int, w: W): Progress<W> {
    var start := Progress(w, EMPTY_REPORT, false);
    if count <= 0 then start else Resolve(send, 0, count, maxRequests, start)
  }

  // ---------------------------------------------------------------------------------------------
  // The loop
  // ---------------------------------------------------------------------------------------------

  /** The stack, read from the top (its last element), tiles [p, count) with non-empty ranges. */
  ghost predicate Tiles(pending: seq<Range>, p: nat, count: nat)
    decreases |pending|
  {
    if pending == [] then p == count
    else
      var top := pending[|pending| - 1];
      top.lo == p && p < top.hi <= count && Tiles(pending[..|pending| - 1], top.hi, count)
  }

  ghost predicate Increasing(s: seq<nat>) {
    forall i, j :: 0 <= i < j < |s| ==> s[i] < s[j]
  }

  function Settled(r: BatchReport): nat {
    |r.accepted| + |r.rejected|
  }

  /** The settled indices are exactly [0, p), split into two increasing lists with nothing in common. */
  ghost predicate Prefix(r: BatchReport, p: nat) {
    && Settled(r) == p
    && Increasing(r.accepted) && Increasing(r.rejected)
    && (forall i :: i in r.accepted ==> i < p && i !in r.rejected)
    && (forall i :: i in r.rejected ==> i < p)
    && (forall i: nat :: i < p ==> i in r.accepted || i in r.rejected)
  }

  /** Settle everything on the stack, from the top down. */
  ghost function Drain<W>(send: SendFn<W>, pending: seq<Range>, maxRequests: int, g: Progress<W>): Progress<W>
    requires NonEmptyRanges(pending)
    decreases |pending|
  {
    if pending == [] then g
    else
      var top := pending[|pending| - 1];
      Drain(send, pending[..|pending| - 1], maxRequests, Resolve(send, top.lo, top.hi, maxRequests, g))
  }

  lemma {:induction false} DrainAborted<W>(send: SendFn<W>, pending: seq<Range>, maxRequests: int, g: Progress<W>)
    requires NonEmptyRanges(pending)
    requires g.report.aborted
    ensures Drain(send, pending, maxRequests, g) == g
    decreases |pending|
  {
    if pending != [] { DrainAborted(send, pending[..|pending| - 1], maxRequests, g); }
  }

  lemma {:induction false} TilesNonEmpty(pending: seq<Range>, p: nat, count: nat)
    requires Tiles(pending, p, count)
    ensures p <= count
    ensures NonEmptyRanges(pending)
    decreases |pending|
  {
    if pending != [] {
      TilesNonEmpty(pending[..|pending| - 1], pending[|pending| - 1].hi, count);
    }
  }

  lemma IncreasingAppend(s: seq<nat>, t: seq<nat>, p: nat)
    requires Increasing(s) && Increasing(t)
    requires forall i :: i in s ==> i < p
    requires forall i :: i in t ==> p <= i
    ensures Increasing(s + t)
  {
    var u := s + t;
    forall i, j | 0 <= i < j < |u| ensures u[i] < u[j] {
      if i < |s| <= j { assert u[i] in s && u[j] in t; }
    }
  }

  /** The settled prefix grows by the answered range. */
  lemma PrefixGrows(r: BatchReport, lo: nat, hi: nat)
    requires Prefix(r, lo) && lo < hi
    ensures Prefix(r.(accepted := r.accepted + Indices(lo, hi)), hi)
    ensures hi == lo + 1 ==> Prefix(r.(rejected := r.rejected + [lo]), hi)
  {
    var s := Indices(lo, hi);
    forall i: nat | lo <= i < hi ensures i in s { assert s[i - lo] == i; }
    IncreasingAppend(r.accepted, s, lo);
    IncreasingAppend(r.rejected, [lo], lo);
  }

  /** The termination measure: a range of length n needs at most 2n - 1 requests. */
  ghost function Weight(pending: seq<Range>): nat
    requires NonEmptyRanges(pending)
    decreases |pending|
  {
    if pending == [] then 0
    else
      var top := pending[|pending| - 1];
      2 * (top.hi - top.lo) - 1 + Weight(pending[..|pending| - 1])
  }

  ghost predicate NonEmptyRanges(pending: seq<Range>) {
    forall i :: 0 <= i < |pending| ==> pending[i].lo < pending[i].hi
  }

  /** What holds at every loop head: the stack tiles the unsettled suffix and draining it gives the goal. */
  ghost predicate LoopHead<W>(send: SendFn<W>, pending: seq<Range>, maxRequests: int, count: nat,
                              g: Progress<W>, goal: Progress<W>) {
    && NonEmptyRanges(pending)
    && Tiles(pending, Settled(g.report), count)
    && Prefix(g.report, Settled(g.report))
    && !g.report.aborted
    && Drain(send, pending, maxRequests, g) == goal
  }

  /** What a turn finds on the stack, and what draining it amounts to. */
  lemma LoopPops<W>(send: SendFn<W>, pending: seq<Range>, maxRequests: int, count: nat,
                    g: Progress<W>, goal: Progress<W>)
    requires pending != [] && LoopHead(send, pending, maxRequests, count, g, goal)
    ensures var r, rest := pending[|pending| - 1], pending[..|pending| - 1];
            && r.lo == Settled(g.report) && r.lo < r.hi <= count
            && NonEmptyRanges(rest) && Tiles(rest, r.hi, count)
            && Weight(pending) == 2 * (r.hi - r.lo) - 1 + Weight(rest)
            && goal == Drain(send, rest, maxRequests, Resolve(send, r.lo, r.hi, maxRequests, g))
  {
  }

  /** The budget is spent, or the line has dropped: the goal is reached. */
  lemma TurnAborts<W>(send: SendFn<W>, rest: seq<Range>, r: Range, maxRequests: int, g: Progress<W>)
    requires r.lo < r.hi && NonEmptyRanges(rest) && !g.report.aborted
    ensures var goal := Drain(send, rest, maxRequests, Resolve(send, r.lo, r.hi, maxRequests, g));
            var g1 := Request(send, r.lo, r.hi, g);
            && (g.report.requests >= maxRequests ==> goal == g.(report := g.report.(aborted := true)))
            && (g.report.requests < maxRequests && g1.report.aborted ==> goal == g1)
  {
    if g.report.requests >= maxRequests {
      DrainAborted(send, rest, maxRequests, g.(report := g.report.(aborted := true)));
    } else if Request(send, r.lo, r.hi, g).report.aborted {
      DrainAborted(send, rest, maxRequests, Request(send, r.lo, r.hi, g));
    }
  }

  /** The stack with the halves of a refused range, the left one on top. */
  function WithHalves(rest: seq<Range>, r: Range): seq<Range>
    requires r.lo < r.hi
  {
    var mid := r.lo + (r.hi - r.lo) / 2;
    rest + [Range(mid, r.hi)] + [Range(r.lo, mid)]
  }

  /** A refused range is replaced by its halves. */
  lemma TurnSplits<W>(send: SendFn<W>, rest: seq<Range>, r: Range, maxRequests: int, count: nat, g: Progress<W>)
    requires r.lo < r.hi <= count && NonEmptyRanges(rest) && Tiles(rest, r.hi, count)
    requires Prefix(g.report, r.lo) && !g.report.aborted && g.report.requests < maxRequests
    requires Splits(send, r.lo, r.hi, g)
    ensures var goal := Drain(send, rest, maxRequests, Resolve(send, r.lo, r.hi, maxRequests, g));
            var s := WithHalves(rest, r);
            LoopHead(send, s, maxRequests, count, Request(send, r.lo, r.hi, g), goal)
            && Weight(s) < 2 * (r.hi - r.lo) - 1 + Weight(rest)
  {
    var g1, mid := Request(send, r.lo, r.hi, g), r.lo + (r.hi - r.lo) / 2;
  }

  /** Any other answer settles it, unless the line drops. */
  lemma TurnSettles<W>(send: SendFn<W>, rest: seq<Range>, r: Range, maxRequests: int, count: nat, g: Progress<W>)
    requires r.lo < r.hi <= count && NonEmptyRanges(rest) && Tiles(rest, r.hi, count)
    requires Prefix(g.report, r.lo) && !g.report.aborted && g.report.requests < maxRequests
    requires !Splits(send, r.lo, r.hi, g) && !Request(send, r.lo, r.hi, g).report.aborted
    ensures var goal := Drain(send, rest, maxRequests, Resolve(send, r.lo, r.hi, maxRequests, g));
            LoopHead(send, rest, maxRequests, count, Request(send, r.lo, r.hi, g), goal)
  {
    PrefixGrows(g.report, r.lo, r.hi);
  }

  /** Whatever the server answers: the settled part is a prefix, cut short exactly by an abort. */
  lemma {:induction false} ResolvePrefix<W>(send: SendFn<W>, lo: nat, hi: nat, maxRequests: int, g: Progress<W>)
    requires lo < hi && !g.report.aborted && !g.lost && Prefix(g.report, lo)
    ensures var h := Resolve(send, lo, hi, maxRequests, g);
            && Prefix(h.report, Settled(h.report))
            && lo <= Settled(h.report) <= hi
            && (h.report.aborted <==> Settled(h.report) < hi)
            && (h.lost ==> h.report.aborted)
    decreases hi - lo
  {
    if g.report.requests < maxRequests {
      PrefixGrows(g.report, lo, hi);
      if Splits(send, lo, hi, g) {
        var mid := lo + (hi - lo) / 2;
        var g1 := Request(send, lo, hi, g);
        ResolvePrefix(send, lo, mid, maxRequests, g1);
        var g2 := Resolve(send, lo, mid, maxRequests, g1);
        if !g2.report.aborted { ResolvePrefix(send, mid, hi, maxRequests, g2); }
      } else {
        PrefixGrows(g.report.(requests := g.report.requests + 1), lo, hi);
      }
    }
  }

  lemma BisectionSettles<W>(send: SendFn<W>, count: int, maxRequests: int, w0: W)
    ensures var h := Bisection(send, count, maxRequests, w0).report;
            Prefix(h, Settled(h)) && (h.aborted <==> Settled(h) < count)
  {
    if count > 0 { ResolvePrefix(send, 0, count, maxRequests, Progress(w0, EMPTY_REPORT, false)); }
  }

  /** `sendWithBisect`: the stack loop computes the recursion and always leaves a settled prefix. */
  method SendWithBisect<W>(count: int, maxRequests: int, send: SendFn<W>, w0: W)
    returns (report: BatchReport, w: W)
    ensures report == Bisection(send, count, maxRequests, w0).report
    ensures w == Bisection(send, count, maxRequests, w0).world
    ensures Prefix(report, Settled(report))
    ensures report.aborted <==> Settled(report) < count
    ensures report.requests <= if maxRequests < 0 then 0 else maxRequests
  {
    report, w := EMPTY_REPORT, w0;
    ghost var n: nat := if count < 0 then 0 else count;
    ghost var g, goal := Progress(w0, EMPTY_REPORT, false), Bisection(send, count, maxRequests, w0);
    var pending: seq<Range> := [];
    if count > 0 { pending := [Range(0, count)]; }
    BisectionSettles(send, count, maxRequests, w0);
    while pending != []
      invariant LoopHead(send, pending, maxRequests, n, g, goal)
      invariant g.world == w && g.report == report
      invariant report.requests <= if maxRequests < 0 then 0 else maxRequests
      decreases Weight(pending)
    {
      var done;
      pending, report, w, done, g := SettleTop(send, pending, maxRequests, report, w, n, g, goal);
      if done { return; }
    }
  }

  /** The body of the loop: `done` when it leaves with an abort. */
  method SettleTop<W>(send: SendFn<W>, stack: seq<Range>, maxRequests: int, before: BatchReport, w0: W,
                      ghost count: nat, ghost g: Progress<W>, ghost goal: Progress<W>)
    returns (pending: seq<Range>, report: BatchReport, w: W, done: bool, ghost g1: Progress<W>)
    requires stack != [] && LoopHead(send, stack, maxRequests, count, g, goal)
    requires g.world == w0 && g.report == before
    requires before.requests <= if maxRequests < 0 then 0 else maxRequests
    ensures report.requests <= if maxRequests < 0 then 0 else maxRequests
    ensures done ==> report == goal.report && w == goal.world
    ensures !done ==> g1.world == w && g1.report == report && LoopHead(send, pending, maxRequests, count, g1, goal)
    ensures !done ==> NonEmptyRanges(pending) && Weight(pending) < Weight(stack)
  {
    pending, report, w, done, g1 := stack, before, w0, false, g;
    LoopPops(send, stack, maxRequests, count, g, goal);
    var r := pending[|pending| - 1];
    TurnAborts(send, pending[..|pending| - 1], r, maxRequests, g);
    if report.requests >= maxRequests {
      report, done := report.(aborted := true), true;
      return;
    }
    pending := pending[..|pending| - 1];
    var outcome;
    w, report, outcome := SendRange(send, r.lo, r.hi, w, report, g);
    g1 := Request(send, r.lo, r.hi, g);
    if outcome == TransportError {
      done := true;
      return;
    }
    if outcome == Rejected && r.hi - r.lo > 1 {
      TurnSplits(send, pending, r, maxRequests, count, g);
      pending := PushBoth(pending, r);
    } else {
      TurnSettles(send, pending, r, maxRequests, count, g);
    }
  }

  /** The two push lines for a refused range: the left half ends up on top. */
  method PushBoth(rest: seq<Range>, r: Range) returns (pending: seq<Range>)
    requires r.lo < r.hi
    ensures pending == WithHalves(rest, r)
  {
    var mid := r.lo + (r.hi - r.lo) / 2;
    pending := rest + [Range(mid, r.hi)];
    pending := pending + [Range(r.lo, mid)];
  }

  /** One request, with its answer booked in the report. */
  method SendRange<W>(send: SendFn<W>, lo: nat, hi: nat, w: W, report: BatchReport, ghost g: Progress<W>)
    returns (next: W, after: BatchReport, outcome: SendOutcome)
    requires lo < hi && g.world == w && g.report == report
    ensures next == Request(send, lo, hi, g).world && after == Request(send, lo, hi, g).report
    ensures outcome == send(w, lo, hi).1
  {
    var answer := send(w, lo, hi);
    next, outcome := answer.0, answer.1;
    after := report.(requests := report.requests + 1);
    if outcome == Accepted {
      after := AppendAccepted(after, lo, hi);
    } else if outcome == TransportError {
      after := after.(aborted := true);
    } else if hi - lo == 1 {
      after := after.(rejected := after.rejected + [lo]);
    }
  }

  /** The push loop for an accepted range. */
  method AppendAccepted(r: BatchReport, lo: nat, hi: nat) returns (report: BatchReport)
    requires lo <= hi
    ensures report == r.(accepted := r.accepted + Indices(lo, hi))
  {
    report := r;
    for i := lo to hi
      invariant report == r.(accepted := r.accepted + Indices(lo, i))
    {
      assert Indices(lo, i + 1) == Indices(lo, i) + [i];
      report := report.(accepted := report.accepted + [i]);
    }
  }

  // ---------------------------------------------------------------------------------------------
  // A proof rule
  // ---------------------------------------------------------------------------------------------

  /** What every request within [0, n) keeps, and an abort too, the recursion keeps. */
  lemma {:induction false} ResolveKeeps<W(!new)>(send: SendFn<W>, lo: nat, hi: nat, maxRequests: int, g: Progress<W>,
                                                 n: nat, inv: Progress<W> -> bool)
    requires lo < hi <= n && inv(g)
    requires forall p: Progress<W>, i: nat, j: nat :: i < j <= n && inv(p) ==> inv(Request(send, i, j, p))
    requires forall p: Progress<W> :: inv(p) ==> inv(p.(report := p.report.(aborted := true)))
    ensures inv(Resolve(send, lo, hi, maxRequests, g))
    decreases hi - lo
  {
    if !g.report.aborted && g.report.requests < maxRequests && Splits(send, lo, hi, g) {
      var mid, g1 := lo + (hi - lo) / 2, Request(send, lo, hi, g);
      ResolveKeeps(send, lo, mid, maxRequests, g1, n, inv);
      ResolveKeeps(send, mid, hi, maxRequests, Resolve(send, lo, mid, maxRequests, g1), n, inv);
    }
  }

  // ---------------------------------------------------------------------------------------------
  // What any server can do to a bisection
  // ---------------------------------------------------------------------------------------------

  function FloorLog2(n: nat): (l: nat)
    requires 0 < n
    ensures n == 1 <==> l == 0
  {
    if n == 1 then 0 else 1 + FloorLog2(n / 2)
  }

  function CeilLog2(n: nat): nat
    requires 0 < n
  {
    if n == 1 then 0 else 1 + CeilLog2(n - n / 2)
  }

  /** It is the logarithm to the base of two, rounded down. */
  lemma {:induction false} FloorLog2Law(n: nat)
    requires 0 < n
    ensures Pow2(FloorLog2(n)) <= n < 2 * Pow2(FloorLog2(n))
  {
    if n > 1 { FloorLog2Law(n / 2); }
  }

  /** It is the logarithm to the base of two, rounded up. */
  lemma {:induction false} CeilLog2Law(n: nat)
    requires 0 < n
    ensures n <= Pow2(CeilLog2(n)) && Pow2(CeilLog2(n)) < 2 * n
  {
    var half := n - n / 2;
    if n > 1 { CeilLog2Law(half); }
    if half > 1 { assert Pow2(CeilLog2(half)) == 2 * Pow2(CeilLog2(half) - 1); }
  }

  lemma {:induction false} CeilLog2Monotone(m: nat, n: nat)
    requires 0 < m <= n
    ensures CeilLog2(m) <= CeilLog2(n)
  {
    if m > 1 { CeilLog2Monotone(m - m / 2, n - n / 2); }
  }

  /** The budget is kept, whatever is answered. */
  lemma {:induction false} ResolveWithin<W>(send: SendFn<W>, lo: nat, hi: nat, maxRequests: int, g: Progress<W>)
    requires lo < hi && g.report.requests <= maxRequests
    ensures Resolve(send, lo, hi, maxRequests, g).report.requests <= maxRequests
    decreases hi - lo
  {
    if !g.report.aborted && g.report.requests < maxRequests && Splits(send, lo, hi, g) {
      var mid, g1 := lo + (hi - lo) / 2, Request(send, lo, hi, g);
      ResolveWithin(send, lo, mid, maxRequests, g1);
      ResolveWithin(send, mid, hi, maxRequests, Resolve(send, lo, mid, maxRequests, g1));
    }
  }

  /** At most 2n - 1 requests; with that budget only a transport error can cut the call short. */
  lemma {:induction false} ResolveTerminates<W>(send: SendFn<W>, lo: nat, hi: nat, maxRequests: int, g: Progress<W>)
    requires lo < hi && !g.report.aborted && !g.lost
    ensures var h := Resolve(send, lo, hi, maxRequests, g);
            && g.report.requests <= h.report.requests <= g.report.requests + 2 * (hi - lo) - 1
            && (h.report.aborted && !h.lost ==> maxRequests < g.report.requests + 2 * (hi - lo) - 1)
            && (h.lost ==> h.report.aborted)
    decreases hi - lo
  {
    if g.report.requests < maxRequests && Splits(send, lo, hi, g) {
      var mid := lo + (hi - lo) / 2;
      var g1 := Request(send, lo, hi, g);
      ResolveTerminates(send, lo, mid, maxRequests, g1);
      var g2 := Resolve(send, lo, mid, maxRequests, g1);
      if !g2.report.aborted { ResolveTerminates(send, mid, hi, maxRequests, g2); }
    }
  }

  /** Unless the line drops, floor(log2 n) + 1 requests settle the first record of a range. */
  lemma {:induction false} ResolveProgresses<W>(send: SendFn<W>, lo: nat, hi: nat, maxRequests: int, g: Progress<W>)
    requires lo < hi && !g.report.aborted && !g.lost && Prefix(g.report, lo)
    requires g.report.requests + FloorLog2(hi - lo) + 1 <= maxRequests
    ensures var h := Resolve(send, lo, hi, maxRequests, g);
            !h.lost ==> lo < Settled(h.report)
    decreases hi - lo
  {
    if Splits(send, lo, hi, g) {
      var mid := lo + (hi - lo) / 2;
      var g1 := Request(send, lo, hi, g);
      ResolveProgresses(send, lo, mid, maxRequests, g1);
      ResolvePrefix(send, lo, mid, maxRequests, g1);
      var g2 := Resolve(send, lo, mid, maxRequests, g1);
      if !g2.report.aborted { ResolvePrefix(send, mid, hi, maxRequests, g2); }
    }
  }

  // ---------------------------------------------------------------------------------------------
  // The requests a call makes
  // ---------------------------------------------------------------------------------------------

  /** One request: the world it was made in, and its range. */
  datatype Made<W> = Made(world: W, lo: nat, hi: nat)

  /** A world that remembers the requests made in it. */
  datatype Trace<W> = Trace(world: W, made: Requests<W>)

  type Requests<W> = seq<Made<W>>

  type Traced<W> = Progress<Trace<W>>

  /** The same callback, keeping a record of its calls. */
  function Logged<W>(send: SendFn<W>): SendFn<Trace<W>> {
    (t: Trace<W>, lo: nat, hi: nat) =>
      var (w, outcome) := send(t.world, lo, hi);
      (Trace(w, t.made + [Made(t.world, lo, hi)]), outcome)
  }

  function Untraced<W>(p: Traced<W>): Progress<W> { Progress(p.world.world, p.report, p.lost) }

  /** Keeping a record changes nothing else. */
  lemma {:induction false} TraceChangesNothing<W>(send: SendFn<W>, lo: nat, hi: nat, maxRequests: int, p: Traced<W>)
    requires lo < hi
    ensures Untraced(Resolve(Logged(send), lo, hi, maxRequests, p)) == Resolve(send, lo, hi, maxRequests, Untraced(p))
    decreases hi - lo
  {
    if !p.report.aborted && p.report.requests < maxRequests && Splits(send, lo, hi, Untraced(p)) {
      var mid, p1 := lo + (hi - lo) / 2, Request(Logged(send), lo, hi, p);
      TraceChangesNothing(send, lo, mid, maxRequests, p1);
      TraceChangesNothing(send, mid, hi, maxRequests, Resolve(Logged(send), lo, mid, maxRequests, p1));
    }
  }

  /** The requests of one call, in order. */
  function RequestsMade<W>(send: SendFn<W>, count: int, maxRequests: int, w: W): Requests<W> {
    Bisection(Logged(send), count, maxRequests, Trace(w, [])).world.made
  }

  /** The world a request leaves. */
  function After<W>(send: SendFn<W>, m: Made<W>): W { send(m.world, m.lo, m.hi).0 }

  /** Each request starts from the world the one before it left; together they lead from `w` to `v`. */
  ghost predicate Follow<W>(send: SendFn<W>, made: Requests<W>, w: W, v: W)
    decreases |made|
  {
    if made == [] then v == w
    else
      var last := made[|made| - 1];
      v == After(send, last) && Follow(send, made[..|made| - 1], w, last.world)
  }

  /** This request carried record `i` alone and was refused. */
  ghost predicate RefusesAlone<W>(send: SendFn<W>, m: Made<W>, i: nat) {
    m.lo == i && m.hi == i + 1 && send(m.world, i, i + 1).1 == Rejected
  }

  /** This request carried record `i` and was accepted. */
  ghost predicate Accepts<W>(send: SendFn<W>, m: Made<W>, i: nat) {
    m.lo <= i < m.hi && send(m.world, m.lo, m.hi).1 == Accepted
  }

  ghost predicate SomeRefuses<W>(send: SendFn<W>, made: Requests<W>, i: nat) {
    exists k :: 0 <= k < |made| && RefusesAlone(send, made[k], i)
  }

  ghost predicate SomeAccepts<W>(send: SendFn<W>, made: Requests<W>, i: nat) {
    exists k :: 0 <= k < |made| && Accepts(send, made[k], i)
  }

  /** The bookings so far rest on the requests so far. */
  ghost predicate Answered<W>(send: SendFn<W>, w: W, n: nat, p: Traced<W>) {
    && Follow(send, p.world.made, w, p.world.world)
    && |p.world.made| == p.report.requests
    && (forall k :: 0 <= k < |p.world.made| ==> p.world.made[k].lo < p.world.made[k].hi <= n)
    && (forall i :: i in p.report.rejected ==> SomeRefuses(send, p.world.made, i))
    && (forall i :: i in p.report.accepted ==> SomeAccepts(send, p.world.made, i))
  }

  ghost function AnsweredFrom<W>(send: SendFn<W>, w: W, n: nat): Traced<W> -> bool {
    p => Answered(send, w, n, p)
  }

  lemma OneMoreRequest<W>(send: SendFn<W>, made: Requests<W>, m: Made<W>, w: W, i: nat)
    requires Follow(send, made, w, m.world)
    ensures Follow(send, made + [m], w, After(send, m))
    ensures SomeRefuses(send, made, i) || RefusesAlone(send, m, i) ==> SomeRefuses(send, made + [m], i)
    ensures SomeAccepts(send, made, i) || Accepts(send, m, i) ==> SomeAccepts(send, made + [m], i)
  {
    var all := made + [m];
    assert all[..|made|] == made && all[|made|] == m;
    if SomeRefuses(send, made, i) {
      var k :| 0 <= k < |made| && RefusesAlone(send, made[k], i);
      assert RefusesAlone(send, all[k], i);
    }
    if SomeAccepts(send, made, i) {
      var k :| 0 <= k < |made| && Accepts(send, made[k], i);
      assert Accepts(send, all[k], i);
    }
  }

  lemma RequestIsAnswered<W>(send: SendFn<W>, w: W, n: nat, lo: nat, hi: nat, p: Traced<W>)
    requires lo < hi <= n && Answered(send, w, n, p)
    ensures Answered(send, w, n, Request(Logged(send), lo, hi, p))
  {
    var m, made := Made(p.world.world, lo, hi), p.world.made;
    var q := Request(Logged(send), lo, hi, p);
    assert q.world.made == made + [m];
    OneMoreRequest(send, made, m, w, lo);
    forall i | i in q.report.rejected ensures SomeRefuses(send, q.world.made, i) {
      OneMoreRequest(send, made, m, w, i);
    }
    forall i | i in q.report.accepted ensures SomeAccepts(send, q.world.made, i) {
      OneMoreRequest(send, made, m, w, i);
      assert i in p.report.accepted || i in Indices(lo, hi);
    }
  }

  /**
   The requests of a call follow one another from its first world to its last, there are as many as it
   reports, every record booked as refused was refused by one of them that carried it alone, and every
   record booked as accepted was accepted by one that carried it.
   */
  lemma BookedByRequests<W(!new)>(send: SendFn<W>, count: nat, maxRequests: int, w: W)
    ensures var h, made := Bisection(send, count, maxRequests, w), RequestsMade(send, count, maxRequests, w);
            && Follow(send, made, w, h.world)
            && |made| == h.report.requests
            && (forall i :: i in h.report.rejected ==> SomeRefuses(send, made, i))
            && (forall i :: i in h.report.accepted ==> SomeAccepts(send, made, i))
  {
    if count > 0 {
      var inv, start := AnsweredFrom(send, w, count), Progress(Trace(w, []), EMPTY_REPORT, false);
      forall p: Traced<W>, i: nat, j: nat | i < j <= count && inv(p)
        ensures inv(Request(Logged(send), i, j, p))
      {
        RequestIsAnswered(send, w, count, i, j, p);
      }
      ResolveKeeps(Logged(send), 0, count, maxRequests, start, count, inv);
      TraceChangesNothing(send, 0, count, maxRequests, start);
    }
  }

  // ---------------------------------------------------------------------------------------------
  // Servers whose verdict depends on the records
  // ---------------------------------------------------------------------------------------------

  /**
   A sound server accepts a range only if every record in it is good and refuses a record sent alone
   only if it is bad.  A range of two or more may be refused for any reason at all.
   */
  ghost predicate SoundVerdicts<W(!new)>(send: SendFn<W>, good: nat -> bool, n: nat) {
    forall w: W, lo: nat, hi: nat {:trigger send(w, lo, hi)} :: lo < hi <= n ==>
      && (send(w, lo, hi).1 == Accepted ==> forall i | lo <= i < hi :: good(i))
      && (send(w, lo, hi).1 == Rejected && hi == lo + 1 ==> !good(lo))
  }

  /** An exact server refuses a range exactly when it contains a bad record. */
  ghost predicate ExactVerdicts<W(!new)>(send: SendFn<W>, good: nat -> bool, n: nat) {
    forall w: W, lo: nat, hi: nat {:trigger send(w, lo, hi)} :: lo < hi <= n ==>
      send(w, lo, hi).1 == if forall i | lo <= i < hi :: good(i) then Accepted else Rejected
  }

  ghost predicate Sorted(r: BatchReport, good: nat -> bool) {
    && (forall i :: i in r.accepted ==> good(i))
    && (forall i :: i in r.rejected ==> !good(i))
  }

  function BadCount(good: nat -> bool, lo: nat, hi: nat): nat
    requires lo <= hi
    decreases hi - lo
  {
    if lo == hi then 0 else (if good(lo) then 0 else 1) + BadCount(good, lo + 1, hi)
  }

  lemma {:induction false} BadCountSplits(good: nat -> bool, lo: nat, mid: nat, hi: nat)
    requires lo <= mid <= hi
    ensures BadCount(good, lo, hi) == BadCount(good, lo, mid) + BadCount(good, mid, hi)
    decreases mid - lo
  {
    if lo < mid { BadCountSplits(good, lo + 1, mid, hi); }
  }

  lemma {:induction false} BadCountZero(good: nat -> bool, lo: nat, hi: nat)
    requires lo <= hi
    ensures BadCount(good, lo, hi) == 0 <==> forall i | lo <= i < hi :: good(i)
    decreases hi - lo
  {
    if lo < hi { BadCountZero(good, lo + 1, hi); }
  }

  /** A sound server never gets a good record into the refused list, nor a bad one into the accepted. */
  lemma {:induction false} ResolveSorts<W(!new)>(send: SendFn<W>, lo: nat, hi: nat, maxRequests: int, g: Progress<W>,
                                                 good: nat -> bool, n: nat)
    requires lo < hi <= n && SoundVerdicts(send, good, n) && Sorted(g.report, good)
    ensures Sorted(Resolve(send, lo, hi, maxRequests, g).report, good)
    decreases hi - lo
  {
    if !g.report.aborted && g.report.requests < maxRequests {
      var g1 := Request(send, lo, hi, g);
      if Splits(send, lo, hi, g) {
        var mid := lo + (hi - lo) / 2;
        ResolveSorts(send, lo, mid, maxRequests, g1, good, n);
        ResolveSorts(send, mid, hi, maxRequests, Resolve(send, lo, mid, maxRequests, g1), good, n);
      }
    }
  }

  /** The requests an exact server costs for k bad records among n. */
  function Cost(k: nat, n: nat): nat
    requires 0 < n
  {
    1 + 2 * k * CeilLog2(n)
  }

  lemma TimesSplits(k1: nat, k2: nat, c: nat)
    ensures 2 * (k1 + k2) * (c + 1) == 2 * k1 * c + 2 * k2 * c + 2 * (k1 + k2)
  {
  }

  lemma CostSplits(k1: nat, k2: nat, n: nat)
    requires 1 < n && 1 <= k1 + k2
    ensures 1 + Cost(k1, n / 2) + Cost(k2, n - n / 2) <= Cost(k1 + k2, n)
  {
    var a, c := CeilLog2(n / 2), CeilLog2(n - n / 2);
    CeilLog2Monotone(n / 2, n - n / 2);
    TimesMonotone(2 * k1, a, c);
    assert Cost(k1 + k2, n) == 1 + 2 * (k1 + k2) * (c + 1);
    TimesSplits(k1, k2, c);
  }

  /** How many requests a range takes when it is refused just while it holds a bad record. */
  ghost function Needed(good: nat -> bool, lo: nat, hi: nat): nat
    requires lo < hi
    decreases hi - lo
  {
    if hi == lo + 1 || BadCount(good, lo, hi) == 0 then 1
    else var mid := lo + (hi - lo) / 2; 1 + Needed(good, lo, mid) + Needed(good, mid, hi)
  }

  lemma {:induction false} NeededIsLogarithmic(good: nat -> bool, lo: nat, hi: nat)
    requires lo < hi
    ensures Needed(good, lo, hi) <= Cost(BadCount(good, lo, hi), hi - lo)
    decreases hi - lo
  {
    if lo + 1 < hi && 1 <= BadCount(good, lo, hi) {
      var mid := lo + (hi - lo) / 2;
      BadCountSplits(good, lo, mid, hi);
      CostSplits(BadCount(good, lo, mid), BadCount(good, mid, hi), hi - lo);
      NeededIsLogarithmic(good, lo, mid);
      NeededIsLogarithmic(good, mid, hi);
    }
  }

  /** Exactly that many are made, unless the budget is smaller. */
  lemma {:induction false} ResolveCost<W(!new)>(send: SendFn<W>, lo: nat, hi: nat, maxRequests: int, g: Progress<W>,
                                                good: nat -> bool, n: nat)
    requires lo < hi <= n && ExactVerdicts(send, good, n) && !g.report.aborted && !g.lost
    ensures var h := Resolve(send, lo, hi, maxRequests, g);
            && !h.lost && (h.report.aborted <==> maxRequests < g.report.requests + Needed(good, lo, hi))
            && (!h.report.aborted ==> h.report.requests == g.report.requests + Needed(good, lo, hi))
    decreases hi - lo
  {
    BadCountZero(good, lo, hi);
    if g.report.requests < maxRequests && Splits(send, lo, hi, g) {
      var mid := lo + (hi - lo) / 2;
      var g1 := Request(send, lo, hi, g);
      var g2 := Resolve(send, lo, mid, maxRequests, g1);
      ResolveCost(send, lo, mid, maxRequests, g1, good, n);
      if !g2.report.aborted { ResolveCost(send, mid, hi, maxRequests, g2, good, n); }
    }
  }

  // ---------------------------------------------------------------------------------------------
  // Servers that take single records only
  // ---------------------------------------------------------------------------------------------

  /** From every world of this kind: ranges of two or more are refused, single records get a verdict. */
  ghost predicate SinglesOnly<W(!new)>(send: SendFn<W>, kind: W -> bool, n: nat) {
    forall w: W, lo: nat, hi: nat {:trigger send(w, lo, hi)} :: kind(w) && lo < hi <= n ==>
      && kind(send(w, lo, hi).0)
      && send(w, lo, hi).1 != TransportError
      && (lo + 1 < hi ==> send(w, lo, hi).1 == Rejected)
  }

  /** How many of `n` records such a server settles within a budget. */
  function SettledWithin(n: nat, budget: int): nat
    requires 0 < n
  {
    var half := n / 2;
    if budget <= 0 then 0
    else if n == 1 then 1
    else if budget < 2 * half then SettledWithin(half, budget - 1)
    else half + SettledWithin(n - half, budget - 2 * half)
  }

  /** A range of length n takes exactly 2n - 1 requests. */
  lemma {:induction false} SinglesCost<W(!new)>(send: SendFn<W>, lo: nat, hi: nat, maxRequests: int, g: Progress<W>,
                                                kind: W -> bool, n: nat)
    requires lo < hi <= n && SinglesOnly(send, kind, n)
    requires !g.report.aborted && !g.lost && kind(g.world)
    ensures var h := Resolve(send, lo, hi, maxRequests, g);
            && !h.lost && kind(h.world)
            && (h.report.aborted <==> maxRequests - g.report.requests < 2 * (hi - lo) - 1)
            && (!h.report.aborted ==> h.report.requests == g.report.requests + 2 * (hi - lo) - 1)
    decreases hi - lo
  {
    if g.report.requests < maxRequests && Splits(send, lo, hi, g) {
      var mid, g1 := lo + (hi - lo) / 2, Request(send, lo, hi, g);
      var g2 := Resolve(send, lo, mid, maxRequests, g1);
      SinglesCost(send, lo, mid, maxRequests, g1, kind, n);
      if !g2.report.aborted { SinglesCost(send, mid, hi, maxRequests, g2, kind, n); }
    }
  }

  lemma SinglesAtOnce<W(!new)>(send: SendFn<W>, lo: nat, hi: nat, maxRequests: int, g: Progress<W>,
                               kind: W -> bool, n: nat)
    requires lo < hi <= n && SinglesOnly(send, kind, n)
    requires Settled(g.report) == lo && !g.report.aborted && kind(g.world)
    requires maxRequests <= g.report.requests || !Splits(send, lo, hi, g)
    ensures Settled(Resolve(send, lo, hi, maxRequests, g).report)
         == lo + SettledWithin(hi - lo, maxRequests - g.report.requests)
  {
  }

  /** After a split the second half follows the first, unless that one was cut short. */
  lemma InHalves<W>(send: SendFn<W>, lo: nat, hi: nat, maxRequests: int, g: Progress<W>)
    requires lo < hi && !g.report.aborted && g.report.requests < maxRequests && Splits(send, lo, hi, g)
    ensures var mid := lo + (hi - lo) / 2;
            var h := Resolve(send, lo, mid, maxRequests, Request(send, lo, hi, g));
            Resolve(send, lo, hi, maxRequests, g)
            == if h.report.aborted then h else Resolve(send, mid, hi, maxRequests, h)
  {
  }

  lemma SinglesSplit<W(!new)>(send: SendFn<W>, lo: nat, hi: nat, g: Progress<W>, kind: W -> bool, n: nat)
    requires lo < hi <= n && SinglesOnly(send, kind, n)
    requires Prefix(g.report, lo) && !g.report.aborted && !g.lost && kind(g.world) && Splits(send, lo, hi, g)
    ensures var g1 := Request(send, lo, hi, g);
            && Prefix(g1.report, lo) && !g1.report.aborted && !g1.lost && kind(g1.world)
            && g1.report.requests == g.report.requests + 1
  {
  }

  /** A range that is not cut short is settled, and leaves such a world again. */
  lemma SinglesThrough<W(!new)>(send: SendFn<W>, lo: nat, hi: nat, maxRequests: int, g: Progress<W>,
                                kind: W -> bool, n: nat)
    requires lo < hi <= n && SinglesOnly(send, kind, n)
    requires Prefix(g.report, lo) && !g.report.aborted && !g.lost && kind(g.world)
    ensures var h := Resolve(send, lo, hi, maxRequests, g);
            && (h.report.aborted <==> maxRequests - g.report.requests < 2 * (hi - lo) - 1)
            && (!h.report.aborted ==>
                  && Prefix(h.report, hi) && !h.lost && kind(h.world)
                  && h.report.requests == g.report.requests + 2 * (hi - lo) - 1)
  {
    SinglesCost(send, lo, hi, maxRequests, g, kind, n);
    ResolvePrefix(send, lo, hi, maxRequests, g);
  }

  /** With fewer requests, exactly `SettledWithin` records are settled. */
  lemma {:induction false} SinglesSettle<W(!new)>(send: SendFn<W>, lo: nat, hi: nat, maxRequests: int, g: Progress<W>,
                                                  kind: W -> bool, n: nat)
    requires lo < hi <= n && SinglesOnly(send, kind, n)
    requires Prefix(g.report, lo) && !g.report.aborted && !g.lost && kind(g.world)
    ensures Settled(Resolve(send, lo, hi, maxRequests, g).report)
         == lo + SettledWithin(hi - lo, maxRequests - g.report.requests)
    decreases hi - lo
  {
    if g.report.requests >= maxRequests || !Splits(send, lo, hi, g) {
      SinglesAtOnce(send, lo, hi, maxRequests, g, kind, n);
    } else {
      var mid, g1 := lo + (hi - lo) / 2, Request(send, lo, hi, g);
      SinglesSplit(send, lo, hi, g, kind, n);
      InHalves(send, lo, hi, maxRequests, g);
      SinglesThrough(send, lo, mid, maxRequests, g1, kind, n);
      if maxRequests - g.report.requests < 2 * (mid - lo) {
        SinglesSettle(send, lo, mid, maxRequests, g1, kind, n);
      } else {
        SinglesSettle(send, mid, hi, maxRequests, Resolve(send, lo, mid, maxRequests, g1), kind, n);
      }
    }
  }

  /** The whole call: 2n - 1 requests, or as many records settled as the budget allows. */
  lemma SinglesBatch<W(!new)>(send: SendFn<W>, count: nat, maxRequests: int, w: W, kind: W -> bool)
    requires 0 < count && SinglesOnly(send, kind, count) && kind(w)
    ensures var h := Bisection(send, count, maxRequests, w);
            && !h.lost && kind(h.world)
            && Prefix(h.report, SettledWithin(count, maxRequests))
            && (h.report.aborted <==> maxRequests < 2 * count - 1)
  {
    var start := Progress(w, EMPTY_REPORT, false);
    SinglesCost(send, 0, count, maxRequests, start, kind, count);
    SinglesSettle(send, 0, count, maxRequests, start, kind, count);
    ResolvePrefix(send, 0, count, maxRequests, start);
  }

  // ---------------------------------------------------------------------------------------------
  // The promises of the call
  // ---------------------------------------------------------------------------------------------

  /** Against any server: a settled prefix, at most 2n - 1 requests, and progress within the log bound. */
  lemma BisectionAgainstAnyServer<W>(send: SendFn<W>, count: nat, maxRequests: int, w: W)
    requires 0 < count
    ensures var h := Bisection(send, count, maxRequests, w);
            && Prefix(h.report, Settled(h.report))
            && Settled(h.report) <= count
            && (h.report.aborted <==> Settled(h.report) < count)
            && h.report.requests <= 2 * count - 1
            && (!h.lost && 2 * count - 1 <= maxRequests ==> Settled(h.report) == count)
            && (!h.lost && FloorLog2(count) + 1 <= maxRequests ==> 0 in h.report.accepted || 0 in h.report.rejected)
  {
    var g := Progress(w, EMPTY_REPORT, false);
    ResolvePrefix(send, 0, count, maxRequests, g);
    ResolveTerminates(send, 0, count, maxRequests, g);
    if FloorLog2(count) + 1 <= maxRequests { ResolveProgresses(send, 0, count, maxRequests, g); }
  }

  /** Everything is settled: the good ones are accepted, the bad ones refused. */
  ghost predicate Isolates(r: BatchReport, good: nat -> bool, n: nat) {
    && Prefix(r, n)
    && (forall i: nat :: i in r.accepted <==> i < n && good(i))
    && (forall i: nat :: i in r.rejected <==> i < n && !good(i))
  }

  lemma ResolveIsolates<W(!new)>(send: SendFn<W>, count: nat, maxRequests: int, g: Progress<W>, good: nat -> bool)
    requires 0 < count && SoundVerdicts(send, good, count)
    requires Prefix(g.report, 0) && Sorted(g.report, good) && !g.report.aborted && !g.lost
    ensures var r := Resolve(send, 0, count, maxRequests, g).report;
            !r.aborted ==> Isolates(r, good, count)
  {
    ResolvePrefix(send, 0, count, maxRequests, g);
    ResolveSorts(send, 0, count, maxRequests, g, good, count);
    var r := Resolve(send, 0, count, maxRequests, g).report;
  }

  /**
   Isolation: a server that refuses a range just while it holds a bad record has exactly the bad records
   refused and all others accepted, if and only if the budget covers `Needed` requests.
   */
  lemma BisectionIsolates<W(!new)>(send: SendFn<W>, count: nat, maxRequests: int, w: W, good: nat -> bool)
    requires 0 < count && ExactVerdicts(send, good, count)
    ensures var r := Bisection(send, count, maxRequests, w).report;
            && (r.aborted <==> maxRequests < Needed(good, 0, count))
            && (!r.aborted ==> r.requests == Needed(good, 0, count) && Isolates(r, good, count))
  {
    var g := Progress(w, EMPTY_REPORT, false);
    ResolveCost(send, 0, count, maxRequests, g, good, count);
    ResolveIsolates(send, count, maxRequests, g, good);
  }

  /** That many are at most 1 + 2k ceil(log2 n) for k bad records among n. */
  lemma NeededAtMost(good: nat -> bool, n: nat)
    requires 0 < n
    ensures Needed(good, 0, n) <= 1 + 2 * BadCount(good, 0, n) * CeilLog2(n)
  {
    NeededIsLogarithmic(good, 0, n);
  }

  /** The round of sync.cpp: one bad record in a batch of 100 takes at most 15 of the 20 requests. */
  lemma OneBadRecordInAHundred<W(!new)>(send: SendFn<W>, w: W, good: nat -> bool)
    requires ExactVerdicts(send, good, 100) && BadCount(good, 0, 100) == 1
    ensures var r := Bisection(send, 100, 20, w).report;
            !r.aborted && r.requests <= 15 && |r.accepted| == 99 && |r.rejected| == 1
  {
    assert CeilLog2(100) == 7 by { assert CeilLog2(25) == 5 by { assert CeilLog2(4) == 2; } }
    NeededAtMost(good, 100);
    BisectionIsolates(send, 100, 20, w, good);
    RefusedIsBadCount(Bisection(send, 100, 20, w).report, good, 100);
  }

  /** The refused list has as many entries as there are bad records. */
  lemma {:induction false} RefusedIsBadCount(r: BatchReport, good: nat -> bool, n: nat)
    requires Increasing(r.rejected)
    requires forall i: nat :: i in r.rejected <==> i < n && !good(i)
    ensures |r.rejected| == BadCount(good, 0, n)
  {
    var s := set i: nat | i in r.rejected;
    BadSetSize(good, n);
    assert s == set i: nat | i < n && !good(i);
    IncreasingSize(r.rejected);
  }

  lemma {:induction false} BadSetSize(good: nat -> bool, n: nat)
    ensures |set i: nat | i < n && !good(i)| == BadCount(good, 0, n)
  {
    if n > 0 {
      BadSetSize(good, n - 1);
      BadCountSplits(good, 0, n - 1, n);
      var t := set i: nat | i < n - 1 && !good(i);
      assert (set i: nat | i < n && !good(i)) == if good(n - 1) then t else t + {n - 1};
    }
  }

  lemma {:induction false} IncreasingSize(s: seq<nat>)
    requires Increasing(s)
    ensures |set i: nat | i in s| == |s|
  {
    if s != [] {
      var t := s[..|s| - 1];
      IncreasingSize(t);
      assert s == t + [s[|s| - 1]];
      assert (set i: nat | i in s) == (set i: nat | i in t) + {s[|s| - 1]};
    }
  }
}
