/** The delay before requests while the cloud throttles them, shared by all requests (retry_handler.go). */
module Backoffs {
  const DECAY_INTERVAL_SECONDS: int := 20
  const DECAY_FRACTION: real := 0.8
  const MAX_DELAY_SECONDS: nat := 60
  const NANOSECONDS: nat := 1_000_000_000

  /** The decayed counts, and when they were last decayed. */
  datatype Counts = Counts(errors: real, requests: real, lastDecay: int)

  /** The counts start with a bias of four requests. */
  function Initial(now: int): Counts {
    Counts(0.0, 4.0, now)
  }

  /** A request at some second; factor is the decay in case one is due. */
  datatype Request = Request(now: int, factor: real)

  predicate Decays(c: Counts, r: Request) {
    r.now - c.lastDecay > DECAY_INTERVAL_SECONDS
  }

  /** The factor that applies: none unless a decay is due. */
  function Factor(c: Counts, r: Request): real {
    if Decays(c, r) then r.factor else 1.0
  }

  function Counted(c: Counts, r: Request): Counts {
    Counts(c.errors * Factor(c, r), c.requests * Factor(c, r) + 1.0, if Decays(c, r) then r.now else c.lastDecay)
  }

  function Failed(c: Counts): Counts {
    c.(errors := c.errors + 1.0)
  }

  function ErrorFraction(c: Counts): real {
    if c.requests > 0.5 then c.errors / c.requests else 0.0
  }

  /** In whole seconds, rounded down. */
  function Delay(c: Counts): int {
    if ErrorFraction(c) < 0.1 then 0
    else (((MAX_DELAY_SECONDS * NANOSECONDS) as real * ErrorFraction(c)).Floor) / NANOSECONDS
  }

  /** No delay below a tenth of errors; from there on as many whole seconds as sixty times the errors go into the requests. */
  lemma DelayIs(c: Counts)
    requires 0.0 <= c.errors
    ensures c.requests <= 0.5 || 10.0 * c.errors < c.requests ==> Delay(c) == 0
    ensures c.requests > 0.5 && 10.0 * c.errors >= c.requests ==>
              Delay(c) as real * c.requests <= 60.0 * c.errors < (Delay(c) + 1) as real * c.requests
  {
    if c.requests > 0.5 {
      var f := Quotient(c.errors, c.requests);
      if f >= 0.1 {
        WholeSeconds(f);
        Scaled(Delay(c) as real, f, (Delay(c) + 1) as real, c.requests, c.errors);
      }
    }
  }

  lemma Quotient(errors: real, requests: real) returns (f: real)
    requires 0.0 <= errors && requests > 0.5
    ensures f == errors / requests && f * requests == errors && 0.0 <= f
    ensures 10.0 * errors < requests <==> f < 0.1
  {
    f := errors / requests;
    assert f * requests == errors;
    if f < 0.1 {
      assert f * requests < 0.1 * requests;
    } else {
      assert f * requests >= 0.1 * requests;
    }
  }

  lemma WholeSeconds(f: real)
    requires 0.0 <= f
    ensures var d := (((MAX_DELAY_SECONDS * NANOSECONDS) as real * f).Floor) / NANOSECONDS;
            d as real <= 60.0 * f < (d + 1) as real
  {
    var x := 60_000_000_000.0 * f;
    var ns := x.Floor;
    var d := ns / NANOSECONDS;
    assert d * 1_000_000_000 <= ns < (d + 1) * 1_000_000_000;
    assert ns + 1 <= (d + 1) * 1_000_000_000;
  }

  lemma Scaled(least: real, f: real, above: real, requests: real, errors: real)
    requires least <= 60.0 * f < above && requests > 0.0 && f * requests == errors
    ensures least * requests <= 60.0 * errors < above * requests
  {
    assert (60.0 * f) * requests == 60.0 * errors;
    assert least * requests <= (60.0 * f) * requests;
    assert (60.0 * f) * requests < above * requests;
  }

  class Backoff {
    const decayIntervalSeconds: int
    const maxDelaySeconds: nat
    var countErrorsRequestLimit: real
    var countRequests: real
    var lastDecay: int

    function Value(): Counts
      reads this
    {
      Counts(countErrorsRequestLimit, countRequests, lastDecay)
    }

    ghost predicate Valid() {
      decayIntervalSeconds == DECAY_INTERVAL_SECONDS && maxDelaySeconds == MAX_DELAY_SECONDS
    }

    constructor (now: int)
      ensures Valid() && Value() == Initial(now)
      ensures countErrorsRequestLimit == 0.0 && countRequests == 4.0 && lastDecay == now
    {
      decayIntervalSeconds, maxDelaySeconds := DECAY_INTERVAL_SECONDS, MAX_DELAY_SECONDS;
      countErrorsRequestLimit, countRequests, lastDecay := 0.0, 4.0, now;
    }

    method ComputeDelayForRequest(now: int, decay: real) returns (delay: int)
      requires Valid()
      modifies this
      ensures Value() == Counted(old(Value()), Request(now, decay))
      ensures delay == Delay(Value())
      ensures now - old(lastDecay) <= 20 ==>
                countErrorsRequestLimit == old(countErrorsRequestLimit) && countRequests == old(countRequests) + 1.0
                && lastDecay == old(lastDecay)
      ensures now - old(lastDecay) > 20 ==>
                countErrorsRequestLimit == old(countErrorsRequestLimit) * decay && countRequests == old(countRequests) * decay + 1.0
                && lastDecay == now
    {
      var timeDeltaSeconds := now - lastDecay;
      if timeDeltaSeconds > decayIntervalSeconds {
        countErrorsRequestLimit := countErrorsRequestLimit * decay;
        countRequests := countRequests * decay;
        lastDecay := now;
      }
      countRequests := countRequests + 1.0;
      var errorFraction := 0.0;
      if countRequests > 0.5 {
        errorFraction := countErrorsRequestLimit / countRequests;
      }
      if errorFraction < 0.1 {
        return 0;
      }
      var nanoseconds := ((maxDelaySeconds * NANOSECONDS) as real * errorFraction).Floor;
      return nanoseconds / NANOSECONDS;
    }

    method ReportError()
      modifies this
      ensures Value() == Failed(old(Value()))
      ensures countErrorsRequestLimit == old(countErrorsRequestLimit) + 1.0
      ensures countRequests == old(countRequests) && lastDecay == old(lastDecay)
    {
      countErrorsRequestLimit := countErrorsRequestLimit + 1.0;
    }
  }

  // ---------- Runs ----------

  /** A call for a request, or an error in answer to the request at an earlier position. */
  datatype Event = Call(request: Request) | Throttled(answered: nat)

  function After(c: Counts, run: seq<Event>): Counts {
    if run == [] then c
    else
      var was := After(c, run[..|run| - 1]);
      match run[|run| - 1]
      case Call(r) => Counted(was, r)
      case Throttled(_) => Failed(was)
  }

  /** The requests since the last decay that no error answered yet. */
  function Pending(c: Counts, run: seq<Event>): set<nat> {
    if run == [] then {}
    else
      var before := run[..|run| - 1];
      match run[|run| - 1]
      case Call(r) => (if Decays(After(c, before), r) then {} else Pending(c, before)) + {|run| - 1}
      case Throttled(k) => Pending(c, before) - {k}
  }

  predicate Factors(run: seq<Event>) {
    forall e :: e in run && e.Call? ==> 0.0 < e.request.factor < 1.0
  }

  /** Every error answers an earlier request of its own, with no decay in between. */
  predicate Answers(c: Counts, run: seq<Event>) {
    forall i :: 0 <= i < |run| && run[i].Throttled? ==> run[i].answered in Pending(c, run[..i])
  }

  /** In such a run the requests exceed the errors, by more than the requests that may still fail. */
  lemma {:induction false} ErrorsStayBelowRequests(now: int, run: seq<Event>)
    requires Factors(run) && Answers(Initial(now), run)
    ensures 0.0 <= After(Initial(now), run).errors
    ensures After(Initial(now), run).errors + |Pending(Initial(now), run)| as real < After(Initial(now), run).requests
    ensures forall k :: k in Pending(Initial(now), run) ==> k < |run|
    decreases |run|
  {
    if run != [] {
      var before, last := run[..|run| - 1], run[|run| - 1];
      assert last in run && forall e :: e in before ==> e in run;
      assert forall i :: 0 <= i < |before| ==> before[..i] == run[..i];
      ErrorsStayBelowRequests(now, before);
      var c := After(Initial(now), before);
      if last.Call? {
        CallKeepsBelow(c, last.request, |Pending(Initial(now), before)|);
        var kept := if Decays(c, last.request) then {} else Pending(Initial(now), before);
        assert |kept + {|run| - 1}| == |kept| + 1;
      } else {
        assert run[..|run| - 1] == before && last.answered in Pending(Initial(now), before);
      }
    }
  }

  lemma ScaledBelow(a: real, b: real, f: real)
    requires 0.0 <= a < b && 0.0 < f
    ensures 0.0 <= a * f < b * f
  {
  }

  /** A call keeps the errors below the requests by the pending ones: all of them, or just this one after a decay. */
  lemma CallKeepsBelow(c: Counts, r: Request, pending: nat)
    requires 0.0 <= c.errors && c.errors + pending as real < c.requests && 0.0 < r.factor < 1.0
    ensures var d := Counted(c, r);
            && 0.0 <= d.errors && 1.0 <= d.requests
            && d.errors + (if Decays(c, r) then 1 else pending + 1) as real < d.requests
  {
    if Decays(c, r) {
      ScaledBelow(c.errors, c.requests, r.factor);
    }
  }

  /** For counts that may occur, the delay is below the maximum exactly when the errors are below the requests. */
  lemma DelayBelowMaxIff(c: Counts)
    requires 0.0 <= c.errors && 1.0 <= c.requests
    ensures 0 <= Delay(c)
    ensures Delay(c) < MAX_DELAY_SECONDS <==> c.errors < c.requests
  {
    var f := ErrorFraction(c);
    FractionBelowOneIff(c.errors, c.requests);
    var ns := ((MAX_DELAY_SECONDS * NANOSECONDS) as real * f).Floor;
    if f < 1.0 {
      assert (MAX_DELAY_SECONDS * NANOSECONDS) as real * f < (MAX_DELAY_SECONDS * NANOSECONDS) as real;
      assert ns < MAX_DELAY_SECONDS * NANOSECONDS;
    } else {
      assert (MAX_DELAY_SECONDS * NANOSECONDS) as real * f >= (MAX_DELAY_SECONDS * NANOSECONDS) as real;
      assert ns >= MAX_DELAY_SECONDS * NANOSECONDS;
    }
  }

  lemma FractionBelowOneIff(a: real, b: real)
    requires 0.0 <= a && 1.0 <= b
    ensures 0.0 <= a / b && (a / b < 1.0 <==> a < b)
  {
    var q := a / b;
    assert q * b == a;
  }

  /** The bound: after any such run, the next request is counted with a divisor of at least one and waits less than the maximum. */
  lemma DelayIsBounded(now: int, run: seq<Event>, r: Request)
    requires Factors(run) && Answers(Initial(now), run) && 0.0 < r.factor < 1.0
    ensures var c := Counted(After(Initial(now), run), r);
            1.0 <= c.requests && 0.0 <= c.errors < c.requests && 0 <= Delay(c) < MAX_DELAY_SECONDS
  {
    ErrorsStayBelowRequests(now, run);
    var was := After(Initial(now), run);
    CallKeepsBelow(was, r, |Pending(Initial(now), run)|);
    DelayBelowMaxIff(Counted(was, r));
  }

  // ---------- An error that answers a request from before a decay ----------

  function Repeated(e: Event, n: nat): seq<Event> {
    seq(n, _ => e)
  }

  lemma {:induction false} ManyCalls(c: Counts, r: Request, n: nat)
    requires !Decays(c, r)
    ensures After(c, Repeated(Call(r), n)) == c.(requests := c.requests + n as real)
  {
    if n > 0 {
      assert Repeated(Call(r), n)[..n - 1] == Repeated(Call(r), n - 1);
      ManyCalls(c, r, n - 1);
    }
  }

  /** One error for each of the first n requests. */
  function ErrorsFor(n: nat): seq<Event> {
    seq(n, i requires 0 <= i < n => Throttled(i))
  }

  lemma {:induction false} EachError(c: Counts, n: nat)
    ensures After(c, ErrorsFor(n)) == c.(errors := c.errors + n as real)
  {
    if n > 0 {
      assert ErrorsFor(n)[..n - 1] == ErrorsFor(n - 1);
      EachError(c, n - 1);
    }
  }

  lemma {:induction false} AfterBoth(c: Counts, a: seq<Event>, b: seq<Event>)
    ensures After(c, a + b) == After(After(c, a), b)
  {
    if b == [] {
      assert a + b == a;
    } else {
      assert (a + b)[..|a + b| - 1] == a + b[..|b| - 1];
      AfterBoth(c, a, b[..|b| - 1]);
    }
  }

  /** Forty requests in one second, one request when a decay is due, and only then an error for each of the forty. */
  function LateRun(t: int, factor: real): seq<Event> {
    Repeated(Call(Request(t, factor)), 40) + [Call(Request(t + 21, factor))] + ErrorsFor(40)
  }

  /**
   Without the proviso on decays the maximum can be passed, although every error answers an earlier request of
   its own. The factor is any that a decay of more than one interval may have.
   */
  lemma LateErrorsPassTheMaximum(t: int, factor: real)
    requires 0.0 < factor <= DECAY_FRACTION
    ensures var run := LateRun(t, factor);
            && Factors(run)
            && (forall i :: 0 <= i < 40 ==> run[i] == Call(Request(t, factor)) && run[41 + i] == Throttled(i))
            && Delay(Counted(After(Initial(t), run), Request(t + 21, factor))) > MAX_DELAY_SECONDS
  {
    var early, decay, late := Repeated(Call(Request(t, factor)), 40), [Call(Request(t + 21, factor))], ErrorsFor(40);
    ManyCalls(Initial(t), Request(t, factor), 40);
    var c := After(Initial(t), early);
    assert (early + decay)[..|early + decay| - 1] == early;
    var d := After(Initial(t), early + decay);
    assert d == Counted(c, Request(t + 21, factor));
    assert d.requests == 44.0 * factor + 1.0 && d.requests <= 36.2;
    AfterBoth(Initial(t), early + decay, late);
    EachError(d, 40);
    var last := Counted(After(Initial(t), early + decay + late), Request(t + 21, factor));
    assert last.errors == 40.0 && last.requests <= 37.2;
    AboveMaximum(last);
  }

  /** Errors at least a sixtieth above the requests make the delay exceed the maximum by a whole second. */
  lemma AboveMaximum(c: Counts)
    requires 1.0 <= c.requests && 60.0 * c.errors >= 61.0 * c.requests
    ensures Delay(c) > MAX_DELAY_SECONDS
  {
    var f := ErrorFraction(c);
    assert f * c.requests == c.errors;
    assert 60.0 * f >= 61.0;
    var ns := ((MAX_DELAY_SECONDS * NANOSECONDS) as real * f).Floor;
    assert (MAX_DELAY_SECONDS * NANOSECONDS) as real * f >= 61.0 * NANOSECONDS as real;
    assert ns >= 61 * NANOSECONDS;
  }

  // ---------- Every request fails ----------

  /** Requests one after the other, each answered by an error before the next. */
  function AllFail(c: Counts, rs: seq<Request>): Counts {
    if rs == [] then c else Failed(Counted(AllFail(c, rs[..|rs| - 1]), rs[|rs| - 1]))
  }

  /** The product of the decay factors applied along the way. */
  function Applied(c: Counts, rs: seq<Request>): real {
    if rs == [] then 1.0
    else Applied(c, rs[..|rs| - 1]) * Factor(AllFail(c, rs[..|rs| - 1]), rs[|rs| - 1])
  }

  /** Only the bias is left between the counts, decayed as often as they were. */
  lemma {:induction false} OnlyTheBiasRemains(now: int, rs: seq<Request>)
    ensures AllFail(Initial(now), rs).requests - AllFail(Initial(now), rs).errors == 4.0 * Applied(Initial(now), rs)
  {
    if rs != [] {
      var before := rs[..|rs| - 1];
      OnlyTheBiasRemains(now, before);
      BiasStep(AllFail(Initial(now), before), Applied(Initial(now), before), rs[|rs| - 1]);
    }
  }

  /** A request that fails scales the difference between the counts by the factor that applies. */
  lemma BiasStep(c: Counts, product: real, r: Request)
    requires c.requests - c.errors == 4.0 * product
    ensures var d := Failed(Counted(c, r)); d.requests - d.errors == 4.0 * (product * Factor(c, r))
  {
    ScaledDifference(c.requests, c.errors, product, Factor(c, r));
  }

  lemma ScaledDifference(a: real, b: real, x: real, f: real)
    requires a - b == 4.0 * x
    ensures a * f - b * f == 4.0 * (x * f)
  {
    assert a * f - b * f == (a - b) * f;
  }

  // ---------- Recovery ----------

  function NoneFail(c: Counts, rs: seq<Request>): Counts {
    if rs == [] then c else Counted(NoneFail(c, rs[..|rs| - 1]), rs[|rs| - 1])
  }

  /** How far the errors are above a tenth of the requests. */
  function Excess(c: Counts): real {
    10.0 * c.errors - c.requests
  }

  function Above(x: real): real {
    if x > 0.0 then x else 0.0
  }

  lemma NoDelayIffNoExcess(c: Counts)
    requires 0.0 <= c.errors && 1.0 <= c.requests
    ensures ErrorFraction(c) < 0.1 <==> Excess(c) < 0.0
    ensures Excess(c) < 0.0 ==> Delay(c) == 0
  {
    var f := c.errors / c.requests;
    assert f * c.requests == c.errors;
    if f < 0.1 {
      assert f * c.requests < 0.1 * c.requests;
    } else {
      assert f * c.requests >= 0.1 * c.requests;
    }
  }

  /** A request without an error maps the excess q to f q - 1. */
  lemma ExcessShrinks(c: Counts, r: Request)
    requires 0.0 < r.factor < 1.0
    ensures Excess(Counted(c, r)) == Factor(c, r) * Excess(c) - 1.0
    ensures Excess(Counted(c, r)) <= Above(Excess(c)) - 1.0
  {
    var f := Factor(c, r);
    assert f * Excess(c) == 10.0 * (c.errors * f) - c.requests * f;
    if Excess(c) > 0.0 {
      assert f * Excess(c) <= Excess(c);
    } else {
      assert f * Excess(c) <= 0.0;
    }
  }

  lemma CountsStayNonNegative(c: Counts, r: Request)
    requires 0.0 <= c.errors && 0.0 <= c.requests && 0.0 < r.factor < 1.0
    ensures 0.0 <= Counted(c, r).errors && 1.0 <= Counted(c, r).requests
  {
  }

  lemma {:induction false} ExcessAfter(c: Counts, rs: seq<Request>)
    requires 0.0 <= c.errors && 0.0 <= c.requests
    requires forall r :: r in rs ==> 0.0 < r.factor < 1.0
    ensures var d := NoneFail(c, rs);
            && 0.0 <= d.errors && (rs != [] ==> 1.0 <= d.requests) && 0.0 <= d.requests
            && (Excess(d) < 0.0 || Excess(d) <= Above(Excess(c)) - |rs| as real)
  {
    if rs != [] {
      var before, last := rs[..|rs| - 1], rs[|rs| - 1];
      assert last in rs && forall r :: r in before ==> r in rs;
      ExcessAfter(c, before);
      var d := NoneFail(c, before);
      ExcessShrinks(d, last);
      CountsStayNonNegative(d, last);
    }
  }

  /** From any counts, and whatever the clock does, so many requests without an error end the delay for good. */
  lemma RecoveryIsBounded(c: Counts, rs: seq<Request>)
    requires 0.0 <= c.errors && 0.0 <= c.requests
    requires forall r :: r in rs ==> 0.0 < r.factor < 1.0
    requires |rs| >= Above(Excess(c)).Floor + 1
    ensures Delay(NoneFail(c, rs)) == 0
  {
    ExcessAfter(c, rs);
    NoDelayIffNoExcess(NoneFail(c, rs));
  }
}
