/** The cross-process rolling-window limiter (`vector_lake/embedding_scheduler.py`,
    `MinuteRateLimiter`). Times are real seconds; each transaction is one step. */
module RateLimiter {
  import opened Ordering

  datatype Reservation = Reservation(at: real, tokens: nat)
  datatype Limits = Limits(rpm: int, tpm: int)
  datatype Verdict = Granted | WaitFor(seconds: real)
  datatype Outcome = Reserved(at: real) | TooLarge | BudgetExceeded(wait: real)

  const WINDOW := 60.0

  /** The whole part of a share, but at least one. */
  function Whole(share: real): (r: int)
    ensures if share >= 1.0 then r as real <= share < r as real + 1.0 else r == 1
  {
    Max(1, share.Floor)
  }

  function Effective(limit: int, utilization: real): (r: int)
    ensures r >= 1 && r == Whole(limit as real * utilization)
    ensures utilization <= 1.0 && limit >= 1 ==> r <= limit
  {
    var share := limit as real * utilization;
    if utilization <= 1.0 && limit >= 1 then
      ShareIsPart(limit as real, utilization);
      Whole(share)
    else Whole(share)
  }

  lemma ShareIsPart(x: real, u: real)
    requires x >= 0.0 && u <= 1.0
    ensures x * u <= x
  {
    assert x * (1.0 - u) >= 0.0;
  }

  // ---------------------------------------------------------------- one attempt

  /** The rows later than `cutoff`. */
  function Later(rows: seq<Reservation>, cutoff: real): seq<Reservation> {
    if rows == [] then []
    else
      var last, before := rows[|rows| - 1], Later(rows[..|rows| - 1], cutoff);
      if last.at > cutoff then before + [last] else before
  }

  function Tokens(rows: seq<Reservation>): nat {
    if rows == [] then 0 else Tokens(rows[..|rows| - 1]) + rows[|rows| - 1].tokens
  }

  function Oldest(rows: seq<Reservation>): real
    requires |rows| > 0
  {
    var last := rows[|rows| - 1].at;
    if |rows| == 1 then last
    else
      var rest := Oldest(rows[..|rows| - 1]);
      if last < rest then last else rest
  }

  lemma {:induction false} OldestIsARow(rows: seq<Reservation>) returns (k: nat)
    requires |rows| > 0
    ensures k < |rows| && rows[k].at == Oldest(rows) && forall i | 0 <= i < |rows| :: Oldest(rows) <= rows[i].at
  {
    var n := |rows| - 1;
    k := n;
    if n > 0 {
      var first := OldestIsARow(rows[..n]);
      assert forall i | 0 <= i < n :: rows[..n][i] == rows[i];
      if rows[first].at <= rows[n].at { k := first; }
    }
  }

  predicate Fits(rows: seq<Reservation>, tokens: nat, limits: Limits) {
    |rows| + 1 <= limits.rpm && Tokens(rows) + tokens <= limits.tpm
  }

  /** How long to sleep; a missing or zero `oldest` counts as now. */
  function Delay(rows: seq<Reservation>, now: real): (r: real)
    ensures r >= 0.01
  {
    var oldest := if |rows| == 0 || Oldest(rows) == 0.0 then now else Oldest(rows);
    var wait := oldest + WINDOW - now + 0.05;
    if wait < 0.01 then 0.01 else wait
  }

  /** The durable transaction: purge, check, insert. */
  function Attempted(rows: seq<Reservation>, now: real, tokens: nat, limits: Limits): (seq<Reservation>, Verdict) {
    var recent := Later(rows, now - WINDOW);
    if Fits(recent, tokens, limits) then (recent + [Reservation(now, tokens)], Granted)
    else (recent, WaitFor(Delay(recent, now)))
  }

  lemma LaterSnoc(rows: seq<Reservation>, r: Reservation, cutoff: real)
    ensures Later(rows + [r], cutoff) == if r.at > cutoff then Later(rows, cutoff) + [r] else Later(rows, cutoff)
  {
    assert (rows + [r])[..|rows|] == rows;
  }

  lemma {:induction false} LaterTwice(rows: seq<Reservation>, early: real, late: real)
    requires early <= late
    ensures Later(Later(rows, early), late) == Later(rows, late)
  {
    if rows != [] {
      var n := |rows| - 1;
      LaterTwice(rows[..n], early, late);
      if rows[n].at > early { LaterSnoc(Later(rows[..n], early), rows[n], late); }
    }
  }

  /** A purge keeps exactly the rows later than the cutoff, each as often as before. */
  lemma {:induction false} LaterCounts(rows: seq<Reservation>, cutoff: real, r: Reservation)
    ensures multiset(Later(rows, cutoff))[r] == if r.at > cutoff then multiset(rows)[r] else 0
  {
    if |rows| > 0 {
      var n := |rows| - 1;
      assert rows == rows[..n] + [rows[n]];
      LaterCounts(rows[..n], cutoff, r);
    }
  }

  // ---------------------------------------------------------------- the limiter object

  method SumOf(rows: seq<Reservation>) returns (total: nat)
    ensures total == Tokens(rows)
  {
    total := 0;
    for i := 0 to |rows|
      invariant total == Tokens(rows[..i])
    {
      assert rows[..i + 1][..i] == rows[..i];
      total := total + rows[i].tokens;
    }
    assert rows[..|rows|] == rows;
  }

  class MinuteRateLimiter {
    const limits: Limits
    var rows: seq<Reservation>

    constructor (rpm: int, tpm: int, utilization: real)
      ensures limits == Limits(Effective(rpm, utilization), Effective(tpm, utilization)) && rows == []
      ensures limits.rpm >= 1 && limits.tpm >= 1
    {
      limits := Limits(Effective(rpm, utilization), Effective(tpm, utilization));
      rows := [];
    }

    method Attempt(now: real, tokens: nat) returns (verdict: Verdict)
      modifies `rows
      ensures (rows, verdict) == Attempted(old(rows), now, tokens, limits)
    {
      var recent := Recent(now - WINDOW);
      rows := recent;
      var count := |rows|;
      var used := SumOf(rows);
      if count + 1 <= limits.rpm && used + tokens <= limits.tpm {
        rows := rows + [Reservation(now, tokens)];
        return Granted;
      }
      verdict := WaitFor(Delay(rows, now));
    }

    method Recent(cutoff: real) returns (recent: seq<Reservation>)
      ensures recent == Later(rows, cutoff)
    {
      recent := [];
      for i := 0 to |rows|
        invariant recent == Later(rows[..i], cutoff)
      {
        assert rows[..i + 1][..i] == rows[..i];
        if rows[i].at > cutoff { recent := recent + [rows[i]]; }
      }
      assert rows[..|rows|] == rows;
    }

    /** One pass of the loop: the outcome, or how long to sleep. Without `durable` the check leaves no trace. */
    method Pass(now: real, tokens: nat, deadline: Option<real>, durable: bool)
      returns (outcome: Option<Outcome>, wait: real, ghost recent: seq<Reservation>)
      modifies `rows
      ensures recent == Later(old(rows), now - WINDOW) && wait == Delay(recent, now)
      ensures outcome.None? ==> !Fits(recent, tokens, limits) && (durable ==> rows == recent)
      ensures outcome.Some? ==> Settled(recent, now, tokens, limits, deadline, durable, outcome.value, rows)
      ensures outcome.Some? ==> !outcome.value.TooLarge?
      ensures !durable ==> rows == old(rows)
    {
      var seen := Recent(now - WINDOW);
      recent, wait := seen, Delay(seen, now);
      var granted: bool;
      if durable {
        var verdict := Attempt(now, tokens);
        granted := verdict == Granted;
      } else {
        var used := SumOf(seen);
        granted := |seen| + 1 <= limits.rpm && used + tokens <= limits.tpm;
      }
      if granted {
        outcome := Some(Reserved(now));
      } else if deadline.Some? && wait > deadline.value - now {
        outcome := Some(BudgetExceeded(wait));
      } else {
        outcome := None;
      }
    }

    /** The whole call when nobody else reserves meanwhile. The n-th sleep lasts `lag(n)` longer than
        asked for; `requestTokens` is the caller's count. It ends after at most one pass per row.
        `recent` are the rows of the 60 seconds before its last pass. */
    method Reserve(start: real, requestTokens: int, deadline: Option<real>, durable: bool, lag: nat -> real)
      returns (outcome: Outcome, attempts: nat, ghost last: real, ghost recent: seq<Reservation>)
      requires limits.rpm >= 1 && limits.tpm >= 1
      requires start >= 0.0 && forall n :: lag(n) >= 0.0
      modifies `rows
      ensures attempts <= |old(rows)| + 1 && last >= start && recent == Later(old(rows), last - WINDOW)
      ensures outcome.TooLarge? <==> Max(1, requestTokens) > limits.tpm
      ensures Settled(recent, last, Max(1, requestTokens), limits, deadline, durable, outcome, rows)
      ensures !durable || outcome.TooLarge? ==> rows == old(rows)
    {
      attempts, last, recent := 0, start, Later(rows, start - WINDOW);
      var tokens := Max(1, requestTokens);
      if tokens > limits.tpm { return TooLarge, attempts, last, recent; }
      var now := start;
      ghost var was := rows;
      LaterIsPart(was, now - WINDOW);
      while true
        invariant now >= start && recent == Later(was, now - WINDOW)
        invariant Later(rows, now - WINDOW) == recent && (!durable ==> rows == was)
        invariant attempts + |recent| <= |was|
        decreases |recent|
      {
        ghost var seen;
        var verdict, wait;
        attempts, last := attempts + 1, now;
        verdict, wait, seen := Pass(now, tokens, deadline, durable);
        if verdict.Some? { return verdict.value, attempts, last, recent; }
        EmptyWindowFits(recent, tokens, limits);
        now := now + wait + lag(attempts - 1);
        SleepNarrows(was, rows, last, now);
        recent := Later(was, now - WINDOW);
      }
    }
  }

  /** What a call that ends at `now` reports and leaves in the table, `recent` being the rows of the last 60 seconds. */
  predicate Settled(recent: seq<Reservation>, now: real, tokens: nat, limits: Limits,
                    deadline: Option<real>, durable: bool, outcome: Outcome, rows: seq<Reservation>) {
    match outcome
    case TooLarge => true
    case Reserved(at) =>
      at == now && Fits(recent, tokens, limits) && (durable ==> rows == recent + [Reservation(now, tokens)])
    case BudgetExceeded(wait) =>
      && deadline.Some? && wait > deadline.value - now && wait == Delay(recent, now)
      && !Fits(recent, tokens, limits) && (durable ==> rows == recent)
  }

  lemma EmptyWindowFits(recent: seq<Reservation>, tokens: nat, limits: Limits)
    requires limits.rpm >= 1 && tokens <= limits.tpm && !Fits(recent, tokens, limits)
    ensures |recent| > 0
  {
  }

  lemma {:induction false} LaterDropsSome(rows: seq<Reservation>, cutoff: real, i: nat)
    requires i < |rows| && rows[i].at <= cutoff
    ensures |Later(rows, cutoff)| < |rows|
  {
    var n := |rows| - 1;
    LaterIsPart(rows[..n], cutoff);
    if i < n { LaterDropsSome(rows[..n], cutoff, i); }
  }

  lemma DelayReaches(recent: seq<Reservation>, now: real, at: real)
    requires now >= 0.0 && |recent| > 0 && at == Oldest(recent)
    ensures now + Delay(recent, now) - WINDOW > at
  {
  }

  /** The sleep ends a twentieth of a second after the oldest row leaves the window, and takes at least a hundredth. */
  lemma SleepEndsAfterOldest(recent: seq<Reservation>, now: real, k: nat)
    requires k < |recent| && recent[k].at != 0.0 && forall i | 0 <= i < |recent| :: recent[k].at <= recent[i].at
    ensures now + Delay(recent, now) == if recent[k].at + 60.05 >= now + 0.01 then recent[k].at + 60.05 else now + 0.01
  {
    var first := OldestIsARow(recent);
  }

  /** Every sleep outlasts the oldest row in the window. */
  lemma WaitingExpiresARow(rows: seq<Reservation>, now: real, later: real)
    requires now >= 0.0 && |Later(rows, now - WINDOW)| > 0
    requires later >= now + Delay(Later(rows, now - WINDOW), now)
    ensures |Later(rows, later - WINDOW)| < |Later(rows, now - WINDOW)|
  {
    LaterTwice(rows, now - WINDOW, later - WINDOW);
    OldestExpires(Later(rows, now - WINDOW), now, later);
  }

  /** Whether the pass purged or not, the next one sees the same rows, fewer than before. */
  lemma SleepNarrows(was: seq<Reservation>, rows: seq<Reservation>, now: real, later: real)
    requires now >= 0.0 && |Later(was, now - WINDOW)| > 0 && (rows == was || rows == Later(was, now - WINDOW))
    requires later >= now + Delay(Later(was, now - WINDOW), now)
    ensures Later(rows, later - WINDOW) == Later(was, later - WINDOW)
    ensures |Later(was, later - WINDOW)| < |Later(was, now - WINDOW)| && later >= now
  {
    WaitingExpiresARow(was, now, later);
    LaterTwice(was, now - WINDOW, later - WINDOW);
  }

  lemma OldestExpires(recent: seq<Reservation>, now: real, later: real)
    requires now >= 0.0 && |recent| > 0 && later >= now + Delay(recent, now)
    ensures |Later(recent, later - WINDOW)| < |recent|
  {
    var i := OldestIsARow(recent);
    DelayReaches(recent, now, recent[i].at);
    LaterDropsSome(recent, later - WINDOW, i);
  }

  // ---------------------------------------------------------------- the rolling window

  datatype Request = Request(now: real, tokens: nat)

  /** The table and, in commit order, every reservation ever granted. */
  datatype World = World(rows: seq<Reservation>, granted: seq<Reservation>)

  /** The table and the history after one attempt. */
  function Step(w: World, q: Request, limits: Limits): World {
    var (rows, verdict) := Attempted(w.rows, q.now, q.tokens, limits);
    World(rows, if verdict == Granted then w.granted + [Reservation(q.now, q.tokens)] else w.granted)
  }

  /** A run: the requests in commit order and the worlds between them. */
  ghost predicate Run(ws: seq<World>, qs: seq<Request>, limits: Limits) {
    && |ws| == |qs| + 1 && |ws[0].rows| == 0 && |ws[0].granted| == 0
    && forall i :: 0 <= i < |qs| ==> StepAt(ws, qs, limits, i)
  }

  /** One step of a run, under a name of its own so that a run unfolds only where a step is asked for. */
  predicate StepAt(ws: seq<World>, qs: seq<Request>, limits: Limits, i: nat)
    requires |ws| == |qs| + 1 && i < |qs|
  {
    ws[i + 1] == Step(ws[i], qs[i], limits)
  }

  lemma {:induction false} RunExists(qs: seq<Request>, limits: Limits) returns (ws: seq<World>)
    ensures Run(ws, qs, limits)
  {
    if qs == [] {
      ws := [World([], [])];
    } else {
      var n := |qs| - 1;
      var before := RunExists(qs[..n], limits);
      ws := before + [Step(before[n], qs[n], limits)];
      forall i | 0 <= i < n ensures StepAt(ws, qs, limits, i) { assert StepAt(before, qs[..n], limits, i); }
    }
  }

  /** The reservations granted in the window `(start, start + 60]`. */
  function Window(granted: seq<Reservation>, start: real): seq<Reservation> {
    if granted == [] then []
    else
      var last, before := granted[|granted| - 1], Window(granted[..|granted| - 1], start);
      if start < last.at <= start + WINDOW then before + [last] else before
  }

  /** The window holds exactly the reservations after its start and at most 60 seconds later. */
  lemma {:induction false} WindowCounts(granted: seq<Reservation>, start: real, r: Reservation)
    ensures multiset(Window(granted, start))[r] == if start < r.at <= start + 60.0 then multiset(granted)[r] else 0
  {
    if |granted| > 0 {
      var n := |granted| - 1;
      assert granted == granted[..n] + [granted[n]];
      WindowCounts(granted[..n], start, r);
    }
  }

  ghost predicate WithinLimits(granted: seq<Reservation>, limits: Limits) {
    forall start: real :: WindowOk(granted, start, limits)
  }

  predicate WindowOk(granted: seq<Reservation>, start: real, limits: Limits) {
    |Window(granted, start)| <= limits.rpm && Tokens(Window(granted, start)) <= limits.tpm
  }

  lemma WindowSnoc(rows: seq<Reservation>, r: Reservation, start: real)
    ensures Window(rows + [r], start) == if start < r.at <= start + WINDOW then Window(rows, start) + [r] else Window(rows, start)
  {
    assert (rows + [r])[..|rows|] == rows;
  }

  lemma TokensSnoc(rows: seq<Reservation>, r: Reservation)
    ensures Tokens(rows + [r]) == Tokens(rows) + r.tokens
  {
    assert (rows + [r])[..|rows|] == rows;
  }

  /** A step in the terms of its purge: granted or not, table and history change together. */
  predicate Stepped(w: World, q: Request, limits: Limits, w': World) {
    var recent, r := Later(w.rows, q.now - WINDOW), Reservation(q.now, q.tokens);
    || (Fits(recent, q.tokens, limits) && w'.rows == recent + [r] && w'.granted == w.granted + [r])
    || (!Fits(recent, q.tokens, limits) && w'.rows == recent && w'.granted == w.granted)
  }

  lemma RunStep(ws: seq<World>, qs: seq<Request>, limits: Limits, n: nat)
    requires Run(ws, qs, limits) && n < |qs|
    ensures Stepped(ws[n], qs[n], limits, ws[n + 1])
  {
    assert StepAt(ws, qs, limits, n);
  }

  // ---------------------------------------------------------------- no window overflows

  function Times(qs: seq<Request>): seq<real> { seq(|qs|, i requires 0 <= i < |qs| => qs[i].now) }

  /** Two samples that some window of sixty seconds holds together. */
  predicate Near(s: real, t: real) { -WINDOW < s - t < WINDOW }

  /** In commit order, no sample is purged by a second one while a third still falls near it. */
  predicate NothingPurgedEarly(times: seq<real>) {
    forall i, j, k | 0 <= i < j < k < |times| && times[i] + WINDOW <= times[j] :: !Near(times[i], times[k])
  }

  /** The sampled clock does not go back in commit order. */
  predicate ClockForward(qs: seq<Request>) { forall i, j | 0 <= i < j < |qs| :: qs[i].now <= qs[j].now }

  lemma ForwardClockPurgesNothingEarly(qs: seq<Request>)
    requires ClockForward(qs)
    ensures NothingPurgedEarly(Times(qs))
  {
    var times := Times(qs);
    forall i, j, k | 0 <= i < j < k < |times| && times[i] + WINDOW <= times[j] ensures !Near(times[i], times[k]) {
      assert qs[j].now <= qs[k].now;
    }
  }

  lemma {:induction false} LaterIsPart(rows: seq<Reservation>, cutoff: real)
    ensures |Later(rows, cutoff)| <= |rows| && Tokens(Later(rows, cutoff)) <= Tokens(rows)
  {
    if rows != [] {
      var n := |rows| - 1;
      LaterIsPart(rows[..n], cutoff);
      TokensSnoc(Later(rows[..n], cutoff), rows[n]);
    }
  }

  lemma {:induction false} LaterRows(rows: seq<Reservation>, cutoff: real, r: Reservation)
    requires r in Later(rows, cutoff)
    ensures r in rows && r.at > cutoff
  {
    var n := |rows| - 1;
    if rows[n].at <= cutoff || r != rows[n] { LaterRows(rows[..n], cutoff, r); }
  }

  lemma {:induction false} WindowIsPart(rows: seq<Reservation>, start: real)
    ensures |Window(rows, start)| <= |rows| && Tokens(Window(rows, start)) <= Tokens(rows)
  {
    if rows != [] {
      var n := |rows| - 1;
      WindowIsPart(rows[..n], start);
      TokensSnoc(Window(rows[..n], start), rows[n]);
    }
  }

  /** A purge that spares the window's rows leaves the window alone. */
  lemma {:induction false} PurgeKeepsWindow(rows: seq<Reservation>, cutoff: real, start: real)
    requires forall r | r in rows && start < r.at <= start + WINDOW :: r.at > cutoff
    ensures Window(Later(rows, cutoff), start) == Window(rows, start)
  {
    if rows != [] {
      var n := |rows| - 1;
      assert rows[n] in rows && forall r | r in rows[..n] :: r in rows;
      PurgeKeepsWindow(rows[..n], cutoff, start);
      WindowSnoc(Later(rows[..n], cutoff), rows[n], start);
    }
  }

  /** Every row of the table stems from a request. */
  lemma {:induction false} RowsAreRequests(ws: seq<World>, qs: seq<Request>, limits: Limits, n: nat, r: Reservation) returns (i: nat)
    requires Run(ws, qs, limits) && n <= |qs| && r in ws[n].rows
    ensures i < n && qs[i].now == r.at
  {
    RunStep(ws, qs, limits, n - 1);
    if r == Reservation(qs[n - 1].now, qs[n - 1].tokens) {
      i := n - 1;
    } else {
      LaterRows(ws[n - 1].rows, qs[n - 1].now - WINDOW, r);
      i := RowsAreRequests(ws, qs, limits, n - 1, r);
    }
  }

  /** The table still holds every grant of a window that a later sample falls in. */
  lemma {:induction false} TableHoldsTheWindow(ws: seq<World>, qs: seq<Request>, limits: Limits, n: nat, k: nat, start: real)
    requires Run(ws, qs, limits) && n <= k < |qs| && NothingPurgedEarly(Times(qs)) && start < qs[k].now <= start + WINDOW
    ensures Window(ws[n].rows, start) == Window(ws[n].granted, start)
  {
    if n > 0 {
      var w, q, times := ws[n - 1], qs[n - 1], Times(qs);
      TableHoldsTheWindow(ws, qs, limits, n - 1, k, start);
      forall r | r in w.rows && start < r.at <= start + WINDOW ensures r.at > q.now - WINDOW {
        var i := RowsAreRequests(ws, qs, limits, n - 1, r);
        assert times[i] == r.at && Near(times[i], times[k]) && times[n - 1] == q.now;
      }
      PurgeKeepsWindow(w.rows, q.now - WINDOW, start);
      RunStep(ws, qs, limits, n - 1);
      StepAddsToBoth(w, q, limits, ws[n], start);
    }
  }

  /** A grant enters the table and the history alike. */
  lemma StepAddsToBoth(w: World, q: Request, limits: Limits, w': World, start: real)
    requires Stepped(w, q, limits, w') && Window(Later(w.rows, q.now - WINDOW), start) == Window(w.granted, start)
    ensures Window(w'.rows, start) == Window(w'.granted, start)
  {
    WindowSnoc(Later(w.rows, q.now - WINDOW), Reservation(q.now, q.tokens), start);
    WindowSnoc(w.granted, Reservation(q.now, q.tokens), start);
  }

  /** A grant that fits beside the window's rows keeps the window within its limits. */
  lemma StepKeepsWindow(w: World, q: Request, limits: Limits, w': World, start: real)
    requires Stepped(w, q, limits, w') && WindowOk(w.granted, start, limits)
    requires start < q.now <= start + WINDOW ==> Window(w.rows, start) == Window(w.granted, start)
    ensures WindowOk(w'.granted, start, limits)
  {
    if w'.granted != w.granted {
      WindowSnoc(w.granted, Reservation(q.now, q.tokens), start);
      if start < q.now <= start + WINDOW {
        TokensSnoc(Window(w.granted, start), Reservation(q.now, q.tokens));
        PurgeKeepsWindow(w.rows, q.now - WINDOW, start);
        WindowIsPart(Later(w.rows, q.now - WINDOW), start);
      }
    }
  }

  /** Then no 60-second window ever holds more than the effective requests and tokens per minute. */
  lemma {:induction false} EveryWindowWithinLimits(ws: seq<World>, qs: seq<Request>, limits: Limits, n: nat)
    requires Run(ws, qs, limits) && n <= |qs| && limits.rpm >= 1 && limits.tpm >= 1 && NothingPurgedEarly(Times(qs))
    ensures WithinLimits(ws[n].granted, limits)
  {
    if n == 0 {
      forall start: real ensures WindowOk(ws[0].granted, start, limits) { WindowIsPart(ws[0].granted, start); }
    } else {
      var w, q, w' := ws[n - 1], qs[n - 1], ws[n];
      EveryWindowWithinLimits(ws, qs, limits, n - 1);
      RunStep(ws, qs, limits, n - 1);
      forall start: real ensures WindowOk(w'.granted, start, limits) {
        assert WindowOk(w.granted, start, limits);
        if start < q.now <= start + WINDOW { TableHoldsTheWindow(ws, qs, limits, n - 1, n - 1, start); }
        StepKeepsWindow(w, q, limits, w', start);
      }
    }
  }

  // ---------------------------------------------------------------- and when one does

  /** Limits the configuration can yield and requests that `reserve` does not turn away. */
  predicate Servable(qs: seq<Request>, limits: Limits) {
    limits.rpm >= 1 && limits.tpm >= 1 && forall i | 0 <= i < |qs| :: 1 <= qs[i].tokens <= limits.tpm
  }

  /** Sample times in commit order keep every choice of limits and request sizes within the limits
      if and only if nothing is purged early. */
  lemma LimitsHoldIff(times: seq<real>)
    ensures (forall ws: seq<World>, qs, limits | Run(ws, qs, limits) && Times(qs) == times && Servable(qs, limits) ::
              WithinLimits(ws[|qs|].granted, limits))
      <==> NothingPurgedEarly(times)
  {
    if NothingPurgedEarly(times) {
      forall ws: seq<World>, qs, limits | Run(ws, qs, limits) && Times(qs) == times && Servable(qs, limits)
        ensures WithinLimits(ws[|qs|].granted, limits)
      {
        EveryWindowWithinLimits(ws, qs, limits, |qs|);
      }
    } else {
      var i, j, k :| 0 <= i < j < k < |times| && times[i] + WINDOW <= times[j] && Near(times[i], times[k]);
      var ws, qs, limits, start := EarlyPurgeOverflows(times, i, j, k);
      assert !WindowOk(ws[|qs|].granted, start, limits);
    }
  }

  /** Two requests of `n` tokens among `n`, the others of one. */
  predicate TwoLarge(qs: seq<Request>, i: nat, k: nat) {
    forall m | 0 <= m < |qs| :: qs[m].tokens == if m == i || m == k then |qs| else 1
  }

  /** Under `2n - 1` tokens a minute the first large request is purged early, so the second is
      granted into the same window. */
  lemma EarlyPurgeOverflows(times: seq<real>, i: nat, j: nat, k: nat)
    returns (ws: seq<World>, qs: seq<Request>, limits: Limits, start: real)
    requires i < j < k < |times| && times[i] + WINDOW <= times[j] && Near(times[i], times[k])
    ensures Run(ws, qs, limits) && Times(qs) == times && Servable(qs, limits)
    ensures !WindowOk(ws[|qs|].granted, start, limits)
  {
    qs, limits := WithTwoLarge(times, i, k), Limits(|times|, 2 * |times| - 1);
    start := (if times[i] >= times[k] then times[i] else times[k]) - WINDOW;
    ws := RunExists(qs, limits);
    BothLargeCount(ws, qs, limits, i, j, k, start);
    WindowGrows(ws, qs, limits, k + 1, |qs|, start);
  }

  function WithTwoLarge(times: seq<real>, i: nat, k: nat): (qs: seq<Request>)
    ensures Times(qs) == times && TwoLarge(qs, i, k)
    ensures |qs| == |times| && forall m | 0 <= m < |qs| :: qs[m].now == times[m]
  {
    seq(|times|, m requires 0 <= m < |times| => Request(times[m], if m == i || m == k then |times| else 1))
  }

  lemma BothLargeCount(ws: seq<World>, qs: seq<Request>, limits: Limits, i: nat, j: nat, k: nat, start: real)
    requires Run(ws, qs, limits) && i < j < k < |qs| && TwoLarge(qs, i, k) && limits == Limits(|qs|, 2 * |qs| - 1)
    requires qs[i].now + WINDOW <= qs[j].now && start < qs[i].now <= start + WINDOW && start < qs[k].now <= start + WINDOW
    ensures Tokens(Window(ws[k + 1].granted, start)) >= 2 * |qs|
  {
    LightTable(ws, qs, limits, i);
    GrantCounts(ws, qs, limits, i, start, 0);
    WindowGrows(ws, qs, limits, i + 1, k, start);
    PurgedTable(ws, qs, limits, i, j, k);
    GrantCounts(ws, qs, limits, k, start, |qs|);
  }

  lemma RequestIsGranted(ws: seq<World>, qs: seq<Request>, limits: Limits, n: nat)
    requires Run(ws, qs, limits) && n < |qs| && Fits(Later(ws[n].rows, qs[n].now - WINDOW), qs[n].tokens, limits)
    ensures ws[n + 1].rows == Later(ws[n].rows, qs[n].now - WINDOW) + [Reservation(qs[n].now, qs[n].tokens)]
    ensures ws[n + 1].granted == ws[n].granted + [Reservation(qs[n].now, qs[n].tokens)]
  {
    RunStep(ws, qs, limits, n);
  }

  /** A request that fits is granted, and its tokens count in every window it falls in. */
  lemma GrantCounts(ws: seq<World>, qs: seq<Request>, limits: Limits, n: nat, start: real, before: nat)
    requires Run(ws, qs, limits) && n < |qs| && start < qs[n].now <= start + WINDOW
    requires |ws[n].rows| + 1 <= limits.rpm && Tokens(ws[n].rows) + qs[n].tokens <= limits.tpm
    requires Tokens(Window(ws[n].granted, start)) >= before
    ensures Tokens(Window(ws[n + 1].granted, start)) >= before + qs[n].tokens
  {
    var w, last := ws[n], Reservation(qs[n].now, qs[n].tokens);
    LaterIsPart(w.rows, qs[n].now - WINDOW);
    RequestIsGranted(ws, qs, limits, n);
    WindowSnoc(w.granted, last, start);
    TokensSnoc(Window(w.granted, start), last);
  }

  lemma {:induction false} WindowGrows(ws: seq<World>, qs: seq<Request>, limits: Limits, m: nat, n: nat, start: real)
    requires Run(ws, qs, limits) && m <= n <= |qs|
    ensures Tokens(Window(ws[m].granted, start)) <= Tokens(Window(ws[n].granted, start))
    decreases n
  {
    if m < n {
      WindowGrows(ws, qs, limits, m, n - 1, start);
      RunStep(ws, qs, limits, n - 1);
      WindowAfterStep(ws[n - 1], qs[n - 1], limits, ws[n], start);
    }
  }

  lemma WindowAfterStep(w: World, q: Request, limits: Limits, w': World, start: real)
    requires Stepped(w, q, limits, w')
    ensures Tokens(Window(w.granted, start)) <= Tokens(Window(w'.granted, start))
  {
    WindowSnoc(w.granted, Reservation(q.now, q.tokens), start);
    TokensSnoc(Window(w.granted, start), Reservation(q.now, q.tokens));
  }

  /** At most one row more per attempt. */
  lemma StepCounts(ws: seq<World>, qs: seq<Request>, limits: Limits, n: nat)
    requires Run(ws, qs, limits) && n < |qs|
    ensures var recent := Later(ws[n].rows, qs[n].now - WINDOW);
      |ws[n + 1].rows| <= |recent| + 1 <= |ws[n].rows| + 1
      && Tokens(ws[n + 1].rows) <= Tokens(recent) + qs[n].tokens <= Tokens(ws[n].rows) + qs[n].tokens
  {
    RunStep(ws, qs, limits, n);
    LaterIsPart(ws[n].rows, qs[n].now - WINDOW);
    TokensSnoc(Later(ws[n].rows, qs[n].now - WINDOW), Reservation(qs[n].now, qs[n].tokens));
  }

  lemma {:induction false} LightTable(ws: seq<World>, qs: seq<Request>, limits: Limits, n: nat)
    requires Run(ws, qs, limits) && n <= |qs| && forall m | 0 <= m < n :: qs[m].tokens == 1
    ensures |ws[n].rows| <= n && Tokens(ws[n].rows) <= n
  {
    if n > 0 {
      LightTable(ws, qs, limits, n - 1);
      StepCounts(ws, qs, limits, n - 1);
    }
  }

  lemma {:induction false} LaterCommutes(rows: seq<Reservation>, a: real, b: real)
    ensures Later(Later(rows, a), b) == Later(Later(rows, b), a)
  {
    if rows != [] {
      var n := |rows| - 1;
      LaterCommutes(rows[..n], a, b);
      if rows[n].at > a { LaterSnoc(Later(rows[..n], a), rows[n], b); }
      if rows[n].at > b { LaterSnoc(Later(rows[..n], b), rows[n], a); }
    }
  }

  /** A step shows at most its own reservation in addition, and that only when later than `cutoff`. */
  lemma SeenAfterStep(w: World, q: Request, limits: Limits, w': World, cutoff: real)
    requires Stepped(w, q, limits, w')
    ensures var seen, seen' := Later(w.rows, cutoff), Later(w'.rows, cutoff);
      && |seen'| <= |seen| + (if q.now > cutoff then 1 else 0)
      && Tokens(seen') <= Tokens(seen) + (if q.now > cutoff then q.tokens else 0)
  {
    var recent, last := Later(w.rows, q.now - WINDOW), Reservation(q.now, q.tokens);
    LaterSnoc(recent, last, cutoff);
    LaterCommutes(w.rows, q.now - WINDOW, cutoff);
    LaterIsPart(Later(w.rows, cutoff), q.now - WINDOW);
    TokensSnoc(Later(recent, cutoff), last);
  }

  /** Seen from `cutoff` on, the table never counts request `i`. */
  lemma {:induction false} OutOfSight(ws: seq<World>, qs: seq<Request>, limits: Limits, i: nat, n: nat, cutoff: real)
    requires Run(ws, qs, limits) && i < n <= |qs| && qs[i].now <= cutoff && forall m | 0 <= m < n && m != i :: qs[m].tokens == 1
    ensures var seen := Later(ws[n].rows, cutoff); |seen| < n && Tokens(seen) < n
    decreases n
  {
    var w := ws[n - 1];
    RunStep(ws, qs, limits, n - 1);
    SeenAfterStep(w, qs[n - 1], limits, ws[n], cutoff);
    if n - 1 == i {
      LightTable(ws, qs, limits, i);
      LaterIsPart(w.rows, cutoff);
    } else {
      OutOfSight(ws, qs, limits, i, n - 1, cutoff);
    }
  }

  /** Once request `j` has purged request `i`, the table counts at most the others. */
  lemma {:induction false} PurgedTable(ws: seq<World>, qs: seq<Request>, limits: Limits, i: nat, j: nat, n: nat)
    requires Run(ws, qs, limits) && i < j < n <= |qs| && qs[i].now + WINDOW <= qs[j].now && forall m | 0 <= m < n && m != i :: qs[m].tokens == 1
    ensures |ws[n].rows| < n && Tokens(ws[n].rows) < n
    decreases n
  {
    StepCounts(ws, qs, limits, n - 1);
    if n - 1 == j {
      OutOfSight(ws, qs, limits, i, j, qs[j].now - WINDOW);
    } else {
      PurgedTable(ws, qs, limits, i, j, n - 1);
    }
  }

  /** The clock is sampled before the transaction, which may wait for the lock up to this long. */
  const LOCK_BUDGET := 20.0

  /** A fifth of a second is enough: the request at 80.1 purges the one at 20.0, and the one sampled
      at 79.9 but committed after it no longer sees it. */
  lemma LateCommitBreaksTheWindow()
    returns (ws: seq<World>, qs: seq<Request>, commits: seq<real>, limits: Limits, start: real)
    ensures Run(ws, qs, limits) && Times(qs) == [20.0, 80.1, 79.9] && Servable(qs, limits) && commits == [20.0, 80.1, 80.1]
    ensures forall i | 0 <= i < |qs| :: qs[i].now <= commits[i] <= qs[i].now + 0.2 <= qs[i].now + LOCK_BUDGET
    ensures !WindowOk(ws[|qs|].granted, start, limits)
  {
    commits := [20.0, 80.1, 80.1];
    ws, qs, limits, start := EarlyPurgeOverflows([20.0, 80.1, 79.9], 0, 1, 2);
    assert qs[0].now == Times(qs)[0] && qs[1].now == Times(qs)[1] && qs[2].now == Times(qs)[2];
  }

  // ---------------------------------------------------------------- and nothing waits without need

  /** With samples in commit order, whatever the table has purged is out of every later window. */
  lemma {:induction false} TableIsTheWindow(ws: seq<World>, qs: seq<Request>, limits: Limits, n: nat, now: real)
    requires Run(ws, qs, limits) && ClockForward(qs) && n <= |qs| && forall i | 0 <= i < n :: qs[i].now <= now
    ensures Later(ws[n].rows, now - WINDOW) == Later(ws[n].granted, now - WINDOW)
    decreases n
  {
    if n > 0 {
      TableIsTheWindow(ws, qs, limits, n - 1, qs[n - 1].now);
      RunStep(ws, qs, limits, n - 1);
      StepKeepsTheWindow(ws[n - 1], qs[n - 1], limits, ws[n], now);
    }
  }

  lemma StepKeepsTheWindow(w: World, q: Request, limits: Limits, w': World, now: real)
    requires Stepped(w, q, limits, w')
    requires q.now <= now && Later(w.rows, q.now - WINDOW) == Later(w.granted, q.now - WINDOW)
    ensures Later(w'.rows, now - WINDOW) == Later(w'.granted, now - WINDOW)
  {
    var recent, last := Later(w.rows, q.now - WINDOW), Reservation(q.now, q.tokens);
    LaterTwice(w.rows, q.now - WINDOW, now - WINDOW);
    LaterTwice(w.granted, q.now - WINDOW, now - WINDOW);
    LaterSnoc(recent, last, now - WINDOW);
    LaterSnoc(w.granted, last, now - WINDOW);
  }

  /** Then a request is made to wait only when it would not fit in the 60 seconds that end with it,
      counting every reservation granted so far. */
  lemma GrantedIffWindowHasRoom(ws: seq<World>, qs: seq<Request>, limits: Limits, n: nat)
    requires Run(ws, qs, limits) && ClockForward(qs) && n < |qs|
    ensures var recent, q := Later(ws[n].granted, qs[n].now - 60.0), qs[n];
            ws[n + 1].granted != ws[n].granted <==> |recent| + 1 <= limits.rpm && Tokens(recent) + q.tokens <= limits.tpm
  {
    TableIsTheWindow(ws, qs, limits, n, qs[n].now);
    RunStep(ws, qs, limits, n);
  }
}
