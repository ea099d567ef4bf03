/**
 The proxy's reserve/settle ledger (bench/provider_proxy.py). Every method runs under one lock, so an
 execution of many threads is a sequence of whole calls; amounts of money are exact reals.
 */
module Budget {
  import opened Wrappers

  const MAX_HARD_REQUEST_BYTES: nat := 8 * 1024 * 1024
  const MAX_HARD_RESPONSE_BYTES: nat := 16 * 1024 * 1024

  // ---- The policy ----

  /** The caps as read from the policy file, their integers already checked nonnegative. */
  datatype Policy = Policy(
    maxRequestBytes: Option<nat>, maxResponseBytes: Option<nat>, maxInflight: Option<nat>, maxTurns: Option<nat>,
    maxInput: Option<nat>, maxOutput: Option<nat>,
    maxSpend: Option<real>, reservation: Option<real>, inputRate: Option<real>, outputRate: Option<real>,
    listenPort: Option<nat>)

  predicate NonNegative(x: Option<real>) {
    x.Some? ==> x.value >= 0.0
  }

  predicate From1To(x: Option<nat>, high: nat) {
    x.Some? && 1 <= x.value <= high
  }

  /** What `load_policy` demands of the caps. */
  predicate ValidPolicy(p: Policy) {
    && From1To(p.maxRequestBytes, MAX_HARD_REQUEST_BYTES)
    && From1To(p.maxResponseBytes, MAX_HARD_RESPONSE_BYTES)
    && From1To(p.maxInflight, 32)
    && (p.maxInput.Some? ==> p.maxRequestBytes.value <= p.maxInput.value)
    && (p.maxSpend.None? ==> p.reservation.None?)
    && (p.maxSpend.Some? ==> p.reservation.Some? && 0.0 < p.reservation.value <= p.maxSpend.value)
    && NonNegative(p.inputRate) && NonNegative(p.outputRate)
    && From1To(p.listenPort, 65535)
  }

  /** The cap checks of `load_policy`, in its order. */
  method CheckCaps(p: Policy) returns (r: Result<Policy>)
    ensures r.Success? <==> ValidPolicy(p)
    ensures r.Success? ==> r.value == p
  {
    if !From1To(p.maxRequestBytes, MAX_HARD_REQUEST_BYTES) {
      return Failure("request byte ceiling is invalid");
    }
    if !From1To(p.maxResponseBytes, MAX_HARD_RESPONSE_BYTES) {
      return Failure("response byte ceiling is invalid");
    }
    if !From1To(p.maxInflight, 32) {
      return Failure("inflight ceiling is invalid");
    }
    if p.maxInput.Some? && p.maxRequestBytes.value > p.maxInput.value {
      return Failure("request byte ceiling exceeds input-token cap");
    }
    if !NonNegative(p.maxSpend) || !NonNegative(p.reservation) || !NonNegative(p.inputRate)
        || !NonNegative(p.outputRate) {
      return Failure("numeric policy value must be nonnegative");
    }
    if p.maxSpend.None? {
      if p.reservation.Some? {
        return Failure("unbounded spend cannot carry a reservation");
      }
    } else if p.reservation.None? || p.reservation.value <= 0.0 || p.reservation.value > p.maxSpend.value {
      return Failure("spend cap requires an operator reservation");
    }
    if !From1To(p.listenPort, 65535) {
      return Failure("listen port is invalid");
    }
    r := Success(p);
  }

  /** `reservation_usd or 0.0`. */
  function Reservation(p: Policy): real {
    if p.reservation.Some? then p.reservation.value else 0.0
  }

  // ---- Admission and settlement on values ----

  datatype Ledger = Ledger(turns: int, inflight: int, reserved: real, settled: real,
                           inputReserved: int, inputSettled: int, outputReserved: int, outputSettled: int)

  datatype Ticket = Ticket(input: nat, output: nat)

  datatype Usage = Usage(input: Option<nat>, output: Option<nat>, uncertain: bool)

  function Admitted(p: Policy, l: Ledger, t: Ticket): Result<Ledger>
    requires ValidPolicy(p)
  {
    if p.maxTurns.Some? && l.turns >= p.maxTurns.value then Failure("turn cap exhausted")
    else if l.inflight >= p.maxInflight.value then Failure("inflight cap exhausted")
    else if p.maxSpend.Some? && l.settled + l.reserved + Reservation(p) > p.maxSpend.value
        then Failure("spend reservation exhausted")
    else if p.maxInput.Some? && l.inputSettled + l.inputReserved + t.input > p.maxInput.value
        then Failure("input token cap exhausted")
    else if p.maxOutput.Some? && l.outputSettled + l.outputReserved + t.output > p.maxOutput.value
        then Failure("output token cap exhausted")
    else Success(l.(turns := l.turns + 1, inflight := l.inflight + 1, reserved := l.reserved + Reservation(p),
                    inputReserved := l.inputReserved + t.input, outputReserved := l.outputReserved + t.output))
  }

  /** No counter of the ledger, open reservations included, is over its cap. */
  predicate WithinCaps(p: Policy, l: Ledger) {
    && (p.maxTurns.Some? ==> l.turns <= p.maxTurns.value)
    && (p.maxInflight.Some? ==> l.inflight <= p.maxInflight.value)
    && (p.maxSpend.Some? ==> l.reserved + l.settled <= p.maxSpend.value)
    && (p.maxInput.Some? ==> l.inputReserved + l.inputSettled <= p.maxInput.value)
    && (p.maxOutput.Some? ==> l.outputReserved + l.outputSettled <= p.maxOutput.value)
  }

  /** A request is admitted exactly when the ledger with its reservations added is within every cap. */
  lemma AdmitsExactlyWithinCaps(p: Policy, l: Ledger, t: Ticket)
    requires ValidPolicy(p)
    ensures var l' := Ledger(l.turns + 1, l.inflight + 1, l.reserved + Reservation(p), l.settled,
                             l.inputReserved + t.input, l.inputSettled, l.outputReserved + t.output, l.outputSettled);
            && (Admitted(p, l, t).Success? <==> WithinCaps(p, l'))
            && (Admitted(p, l, t).Success? ==> Admitted(p, l, t).value == l')
  {
  }

  function EstimatedCost(p: Policy, u: Usage): Option<real> {
    if u.input.Some? && u.output.Some? && p.inputRate.Some? && p.outputRate.Some?
    then Some((u.input.value as real * p.inputRate.value + u.output.value as real * p.outputRate.value) / 1_000_000.0)
    else None
  }

  function Charged(p: Policy, u: Usage): real {
    var cost := EstimatedCost(p, u);
    if u.uncertain || cost.None? || cost.value <= Reservation(p) then Reservation(p) else cost.value
  }

  /** The rates are per million tokens, each for its own kind; `CostsAdd` says that costs add up. */
  lemma CostIsByTheMillion(p: Policy, uncertain: bool)
    requires p.inputRate.Some? && p.outputRate.Some?
    ensures EstimatedCost(p, Usage(Some(1_000_000), Some(0), uncertain)) == Some(p.inputRate.value)
    ensures EstimatedCost(p, Usage(Some(0), Some(1_000_000), uncertain)) == Some(p.outputRate.value)
  {
    CostOf(p, 1_000_000, 0, uncertain);
    CostOf(p, 0, 1_000_000, uncertain);
    var cost := EstimatedCost(p, Usage(Some(0), Some(1_000_000), uncertain)).value;
    hide EstimatedCost;
    assert cost * 1_000_000.0 == 1_000_000.0 * p.outputRate.value;
  }

  lemma CostOf(p: Policy, input: nat, output: nat, uncertain: bool)
    requires p.inputRate.Some? && p.outputRate.Some?
    ensures var cost := EstimatedCost(p, Usage(Some(input), Some(output), uncertain));
            cost.Some? && cost.value * 1_000_000.0
                          == input as real * p.inputRate.value + output as real * p.outputRate.value
  {
  }

  lemma CostsAdd(p: Policy, x: nat, y: nat, u: nat, v: nat)
    requires p.inputRate.Some? && p.outputRate.Some?
    ensures EstimatedCost(p, Usage(Some(x + y), Some(u + v), false)).value
            == EstimatedCost(p, Usage(Some(x), Some(u), false)).value
               + EstimatedCost(p, Usage(Some(y), Some(v), false)).value
  {
    var i, o := p.inputRate.value, p.outputRate.value;
    assert (x + y) as real == x as real + y as real && (u + v) as real == u as real + v as real;
    assert (x as real + y as real) * i == x as real * i + y as real * i;
    assert (u as real + v as real) * o == u as real * o + v as real * o;
  }

  /** The cost is known exactly when both token counts and both rates are. */
  lemma CostIsKnownExactlyWhen(p: Policy, u: Usage)
    ensures EstimatedCost(p, u).Some? <==>
              u.input.Some? && u.output.Some? && p.inputRate.Some? && p.outputRate.Some?
  {
  }

  /** A certain, known cost above the reservation is charged; in every other case the reservation is. */
  lemma ChargedIs(p: Policy, u: Usage)
    ensures Charged(p, u) >= Reservation(p)
    ensures Charged(p, u) > Reservation(p) <==>
              !u.uncertain && EstimatedCost(p, u).Some? && EstimatedCost(p, u).value > Reservation(p)
    ensures Charged(p, u) > Reservation(p) ==> Some(Charged(p, u)) == EstimatedCost(p, u)
  {
  }

  /** The usage report of a settlement, without the counters that are read after the lock is released. */
  datatype Report = Report(inputTokens: Option<nat>, outputTokens: Option<nat>, estimatedCost: Option<real>,
                           reserved: real, charged: real, overshoot: real, rateEstimated: bool)

  /** How far the charge exceeds what was reserved for it. */
  function Excess(p: Policy, u: Usage): real {
    Charged(p, u) - Reservation(p)
  }

  function OrReserved(used: Option<nat>, reserved: nat): nat {
    if used.Some? then used.value else reserved
  }

  function Settled(p: Policy, l: Ledger, t: Ticket, u: Usage): Ledger {
    l.(inflight := l.inflight - 1, reserved := l.reserved - Reservation(p), settled := l.settled + Charged(p, u),
       inputReserved := l.inputReserved - t.input, outputReserved := l.outputReserved - t.output,
       inputSettled := l.inputSettled + OrReserved(u.input, t.input),
       outputSettled := l.outputSettled + OrReserved(u.output, t.output))
  }

  function Overshoot(p: Policy, l: Ledger): real {
    if p.maxSpend.Some? && l.settled + l.reserved > p.maxSpend.value then l.settled + l.reserved - p.maxSpend.value
        else 0.0
  }

  /** The overshoot is the least amount that the cap would have to grow by; without a cap there is none. */
  lemma OvershootIs(p: Policy, l: Ledger, more: real)
    ensures Overshoot(p, l) >= 0.0 && (p.maxSpend.None? ==> Overshoot(p, l) == 0.0)
    ensures p.maxSpend.Some? && more >= 0.0 ==>
              (l.settled + l.reserved <= p.maxSpend.value + more <==> Overshoot(p, l) <= more)
  {
  }

  // ---- The ledger with its outstanding tickets ----

  /**
   `open` holds the tickets admitted and not yet settled; `since` the excess of every settlement since the
   last admission, and `atLast` how many tickets were open right after it; `repeats` the tickets that were
   settled a second time.
   */
  datatype State = State(ledger: Ledger, open: seq<Ticket>, since: seq<real>, atLast: nat, repeats: seq<Ticket>)

  datatype Event =
    | Admit(ticket: Ticket)
    | Settle(index: nat, usage: Usage)
    | SettleAgain(ticket: Ticket)

  function Empty(): State {
    State(Ledger(0, 0, 0.0, 0.0, 0, 0, 0, 0), [], [], 0, [])
  }

  function Without<T>(xs: seq<T>, i: nat): seq<T>
    requires i < |xs|
  {
    xs[..i] + xs[i + 1..]
  }

  /** One call under the lock. A refused admission and a settlement without a ticket change nothing. */
  function Step(p: Policy, s: State, e: Event): State
    requires ValidPolicy(p)
  {
    match e
    case Admit(t) =>
      (match Admitted(p, s.ledger, t)
       case Failure(_) => s
       case Success(l) => State(l, s.open + [t], [], |s.open| + 1, s.repeats))
    case Settle(i, u) =>
      if i >= |s.open| then s
      else s.(ledger := Settled(p, s.ledger, s.open[i], u), open := Without(s.open, i),
              since := s.since + [Excess(p, u)])
    case SettleAgain(t) =>
      s.(ledger := Settled(p, s.ledger, t, Usage(None, None, true)), repeats := s.repeats + [t])
  }

  function Play(p: Policy, events: seq<Event>): State
    requires ValidPolicy(p)
  {
    if events == [] then Empty() else Step(p, Play(p, events[..|events| - 1]), events[|events| - 1])
  }

  function SumInput(ts: seq<Ticket>): nat {
    if ts == [] then 0 else SumInput(ts[..|ts| - 1]) + ts[|ts| - 1].input
  }

  function SumOutput(ts: seq<Ticket>): nat {
    if ts == [] then 0 else SumOutput(ts[..|ts| - 1]) + ts[|ts| - 1].output
  }

  function SumReal(xs: seq<real>): real {
    if xs == [] then 0.0 else SumReal(xs[..|xs| - 1]) + xs[|xs| - 1]
  }

  /** `n` times an amount. */
  function Times(n: int, amount: real): real {
    n as real * amount
  }

  lemma TimesStep(n: int, amount: real)
    ensures Times(n + 1, amount) == Times(n, amount) + amount
    ensures Times(n - 1, amount) == Times(n, amount) - amount
  {
    assert (n + 1) as real == n as real + 1.0;
    assert (n - 1) as real == n as real - 1.0;
  }

  lemma WithoutFront<T>(xs: seq<T>, i: nat)
    requires i < |xs|
    ensures var n := |xs| - 1;
            Without(xs, i) == if i == n then xs[..n] else Without(xs[..n], i) + [xs[n]]
  {
  }

  lemma {:induction false} SumsWithout(ts: seq<Ticket>, i: nat)
    requires i < |ts|
    ensures SumInput(Without(ts, i)) == SumInput(ts) - ts[i].input
    ensures SumOutput(Without(ts, i)) == SumOutput(ts) - ts[i].output
  {
    var n := |ts| - 1;
    WithoutFront(ts, i);
    hide Without;
    if i < n {
      SumsWithout(ts[..n], i);
      SumSnoc(Without(ts[..n], i), ts[n]);
    }
  }

  lemma SumSnoc(ts: seq<Ticket>, t: Ticket)
    ensures SumInput(ts + [t]) == SumInput(ts) + t.input && SumOutput(ts + [t]) == SumOutput(ts) + t.output
  {
    assert (ts + [t])[..|ts|] == ts;
  }

  lemma SumRealSnoc(xs: seq<real>, x: real)
    ensures SumReal(xs + [x]) == SumReal(xs) + x
  {
    assert (xs + [x])[..|xs|] == xs;
  }

  /** The counters are those of the open tickets, less one for every repeated settlement. */
  ghost predicate Counted(p: Policy, s: State)
    requires ValidPolicy(p)
  {
    && s.ledger.inflight == |s.open| - |s.repeats|
    && s.ledger.reserved == Times(|s.open| - |s.repeats|, Reservation(p))
    && s.ledger.inputReserved == SumInput(s.open) - SumInput(s.repeats)
    && s.ledger.outputReserved == SumOutput(s.open) - SumOutput(s.repeats)
    && |s.since| + |s.open| == s.atLast
    && (p.maxTurns.Some? ==> s.ledger.turns <= p.maxTurns.value)
    && s.ledger.inflight <= p.maxInflight.value
    && s.ledger.inputSettled >= 0 && s.ledger.outputSettled >= 0
  }

  lemma {:induction false} StepCounts(p: Policy, s: State, e: Event)
    requires ValidPolicy(p) && Counted(p, s)
    ensures Counted(p, Step(p, s, e))
  {
    hide Times, SumInput, SumOutput, Charged, Excess, Reservation, ValidPolicy;
    TimesStep(|s.open| - |s.repeats|, Reservation(p));
    match e
    case Admit(t) =>
      SumSnoc(s.open, t);
      hide Admitted;
      AdmittedIs(p, s.ledger, t);
    case Settle(i, u) =>
      if i < |s.open| { SumsWithout(s.open, i); }
    case SettleAgain(t) =>
      SumSnoc(s.repeats, t);
  }

  lemma AdmittedIs(p: Policy, l: Ledger, t: Ticket)
    requires ValidPolicy(p)
    ensures match Admitted(p, l, t)
            case Failure(_) => true
            case Success(l') =>
              l' == l.(turns := l.turns + 1, inflight := l.inflight + 1, reserved := l.reserved + Reservation(p),
                       inputReserved := l.inputReserved + t.input, outputReserved := l.outputReserved + t.output)
              && (p.maxTurns.Some? ==> l.turns < p.maxTurns.value) && l.inflight < p.maxInflight.value
  {
    hide Reservation;
  }

  lemma {:induction false} PlayCounts(p: Policy, events: seq<Event>)
    requires ValidPolicy(p)
    ensures Counted(p, Play(p, events))
  {
    hide Counted, Step, ValidPolicy;
    if events == [] {
      EmptyCounts(p);
    } else {
      PlayCounts(p, events[..|events| - 1]);
      StepCounts(p, Play(p, events[..|events| - 1]), events[|events| - 1]);
    }
  }

  lemma EmptyCounts(p: Policy)
    requires ValidPolicy(p)
    ensures Counted(p, Empty())
  {
  }

  ghost predicate SettledOnce(events: seq<Event>) {
    forall i :: 0 <= i < |events| ==> !events[i].SettleAgain?
  }

  lemma {:induction false} RepeatsAreSettleAgain(p: Policy, events: seq<Event>)
    requires ValidPolicy(p)
    ensures Play(p, events).repeats == [] <==> SettledOnce(events)
  {
    hide ValidPolicy, Admitted, Settled, Excess;
    if events != [] {
      var n := |events| - 1;
      RepeatsAreSettleAgain(p, events[..n]);
      assert events == events[..n] + [events[n]];
      assert SettledOnce(events) <==> SettledOnce(events[..n]) && !events[n].SettleAgain?;
    }
  }

  /**
   Over every interleaving the counters match the outstanding tickets exactly when no ticket was settled
   twice; each repeat leaves `inflight` one lower, and lets one more request through the inflight cap.
   */
  lemma {:induction false} CountersMatchTickets(p: Policy, events: seq<Event>)
    requires ValidPolicy(p)
    ensures var s := Play(p, events);
            && (s.ledger.inflight == |s.open| <==> SettledOnce(events))
            && s.ledger.inflight == |s.open| - |s.repeats|
            && |s.open| <= p.maxInflight.value + |s.repeats|
            && (SettledOnce(events) ==>
                  s.ledger.reserved == Times(|s.open|, Reservation(p))
                  && s.ledger.inputReserved == SumInput(s.open) && s.ledger.outputReserved == SumOutput(s.open))
            && (p.maxTurns.Some? ==> s.ledger.turns <= p.maxTurns.value)
  {
    hide Play, Times, SumInput, SumOutput, ValidPolicy, SettledOnce, Reservation;
    PlayCounts(p, events);
    RepeatsAreSettleAgain(p, events);
    if SettledOnce(events) { NoRepeats(); }
  }

  lemma NoRepeats()
    ensures SumInput([]) == 0 && SumOutput([]) == 0
  {
  }

  // ---- The spend cap ----

  ghost predicate SpendBounded(p: Policy, s: State)
    requires ValidPolicy(p)
  {
    p.maxSpend.Some? ==> s.ledger.settled + s.ledger.reserved <= p.maxSpend.value + SumReal(s.since)
  }

  lemma StepSpends(p: Policy, s: State, e: Event)
    requires ValidPolicy(p) && SpendBounded(p, s)
    ensures SpendBounded(p, Step(p, s, e))
  {
    hide SumReal, Reservation, EstimatedCost;
    match e
    case Admit(t) => EmptySum();
    case Settle(i, u) => SumRealSnoc(s.since, Excess(p, u));
    case SettleAgain(t) =>
  }

  lemma EmptySum()
    ensures SumReal([]) == 0.0
  {
  }

  ghost predicate AllNonNegative(xs: seq<real>) {
    forall i :: 0 <= i < |xs| ==> xs[i] >= 0.0
  }

  lemma {:induction false} PlaySpends(p: Policy, events: seq<Event>)
    requires ValidPolicy(p)
    ensures SpendBounded(p, Play(p, events)) && AllNonNegative(Play(p, events).since)
  {
    if events != [] {
      PlaySpends(p, events[..|events| - 1]);
      StepSpends(p, Play(p, events[..|events| - 1]), events[|events| - 1]);
    }
  }

  /**
   The total committed exceeds the spend cap by at most the excess charges of the settlements since the last
   admission, and those tickets were among the at most `max_inflight_requests` open right after it.
   */
  lemma SpendCapHolds(p: Policy, events: seq<Event>)
    requires ValidPolicy(p) && SettledOnce(events)
    ensures var s := Play(p, events);
            && |s.since| + |s.open| == s.atLast <= p.maxInflight.value
            && AllNonNegative(s.since)
            && (p.maxSpend.Some? ==> s.ledger.settled + s.ledger.reserved <= p.maxSpend.value + SumReal(s.since)
                                     && Overshoot(p, s.ledger) <= SumReal(s.since))
  {
    PlayCounts(p, events);
    PlaySpends(p, events);
    AtLastBounded(p, events);
    SumNonNegative(Play(p, events).since);
  }

  lemma {:induction false} AtLastBounded(p: Policy, events: seq<Event>)
    requires ValidPolicy(p) && SettledOnce(events)
    ensures Play(p, events).atLast <= p.maxInflight.value
  {
    if events != [] {
      var n := |events| - 1;
      AtLastBounded(p, events[..n]);
      PlayCounts(p, events[..n]);
      RepeatsAreSettleAgain(p, events[..n]);
    }
  }

  lemma {:induction false} SumNonNegative(xs: seq<real>)
    requires AllNonNegative(xs)
    ensures SumReal(xs) >= 0.0
  {
    if xs != [] { SumNonNegative(xs[..|xs| - 1]); }
  }

  function Admissions(p: Policy, events: seq<Event>): nat
    requires ValidPolicy(p)
  {
    if events == [] then 0
    else
      var front, last := events[..|events| - 1], events[|events| - 1];
      Admissions(p, front) + if last.Admit? && Admitted(p, Play(p, front).ledger, last.ticket).Success? then 1 else 0
  }

  function TotalExcess(p: Policy, events: seq<Event>): real
    requires ValidPolicy(p)
  {
    if events == [] then 0.0
    else
      var front, last := events[..|events| - 1], events[|events| - 1];
      TotalExcess(p, front) + if last.Settle? && last.index < |Play(p, front).open| then Excess(p, last.usage) else 0.0
  }

  /** Conservation: money reserved or settled is one reservation per admitted turn plus every excess charge. */
  lemma {:induction false} MoneyIsConserved(p: Policy, events: seq<Event>)
    requires ValidPolicy(p)
    ensures var l := Play(p, events).ledger;
            l.turns == Admissions(p, events)
            && l.settled + l.reserved == Times(Admissions(p, events), Reservation(p)) + TotalExcess(p, events)
  {
    hide Times, Reservation, ValidPolicy, EstimatedCost, Admitted;
    if events == [] {
      TimesZero(Reservation(p));
    } else {
      var front := events[..|events| - 1];
      var s, e := Play(p, front), events[|events| - 1];
      MoneyIsConserved(p, front);
      TimesStep(Admissions(p, front), Reservation(p));
      if e.Admit? { AdmittedIs(p, s.ledger, e.ticket); }
    }
  }

  lemma TimesZero(amount: real)
    ensures Times(0, amount) == 0.0
  {
  }

  // ---- The token caps ----

  /** Every settlement reports at most what its ticket reserved. */
  ghost predicate WithinReservations(p: Policy, events: seq<Event>)
    requires ValidPolicy(p)
  {
    events == []
    || (WithinReservations(p, events[..|events| - 1])
        && var s, e := Play(p, events[..|events| - 1]), events[|events| - 1];
           e.Settle? && e.index < |s.open| ==>
             OrReserved(e.usage.input, s.open[e.index].input) <= s.open[e.index].input
             && OrReserved(e.usage.output, s.open[e.index].output) <= s.open[e.index].output)
  }

  /** Token totals stay within the caps while no usage exceeds its reservation. */
  lemma {:induction false} TokenCapsHold(p: Policy, events: seq<Event>)
    requires ValidPolicy(p) && WithinReservations(p, events)
    ensures var l := Play(p, events).ledger;
            (p.maxInput.Some? ==> l.inputSettled + l.inputReserved <= p.maxInput.value)
            && (p.maxOutput.Some? ==> l.outputSettled + l.outputReserved <= p.maxOutput.value)
  {
    if events != [] { TokenCapsHold(p, events[..|events| - 1]); }
  }

  // ---- Request normalization ----

  /** The request's output cap field. */
  datatype CapField = Missing | Null | Number(n: int) | OtherValue

  datatype Request = Request(model: string, outputCap: CapField, rest: string)

  ghost predicate Normalizable(p: Policy, model: string, rawBytes: nat, request: Option<Request>, size: Request -> nat)
    requires ValidPolicy(p)
  {
    && rawBytes <= p.maxRequestBytes.value
    && request.Some? && request.value.model == model
    && (match p.maxOutput
        case Some(cap) =>
          (request.value.outputCap.Missing? || request.value.outputCap.Null?
           || (request.value.outputCap.Number? && 0 <= request.value.outputCap.n <= cap))
          && size(request.value.(outputCap := Number(cap))) <= p.maxRequestBytes.value
        case None =>
          (request.value.outputCap.Missing? || (request.value.outputCap.Number? && request.value.outputCap.n >= 0))
          && size(request.value) <= p.maxRequestBytes.value)
  }

  /** `normalize_request`; `request` is the parsed body, if it is a JSON object. */
  method NormalizeRequest(p: Policy, model: string, rawBytes: nat, request: Option<Request>, size: Request -> nat)
      returns (r: Result<(Request, nat)>)
    requires ValidPolicy(p)
    ensures r.Success? <==> Normalizable(p, model, rawBytes, request, size)
    ensures r.Success? ==> Ticket(size(r.value.0), r.value.1) == TicketOf(p, request.value, size)
    ensures r.Success? ==>
              var (sent, reserved) := r.value;
              && size(sent) <= p.maxRequestBytes.value
              && (p.maxInput.Some? ==> size(sent) <= p.maxInput.value)
              && sent == request.value.(outputCap := sent.outputCap)
              && (p.maxOutput.Some? ==> reserved == p.maxOutput.value && sent.outputCap == Number(reserved))
              && (p.maxOutput.None? ==> sent == request.value
                                        && reserved == if sent.outputCap.Number? then sent.outputCap.n else 0)
  {
    if rawBytes > p.maxRequestBytes.value {
      return Failure("request byte cap exceeded");
    }
    if request.None? {
      return Failure("request must be JSON");
    }
    var value := request.value;
    if value.model != model {
      return Failure("request model is not pinned");
    }
    if p.maxOutput.Some? {
      if value.outputCap.OtherValue? || (value.outputCap.Number? && value.outputCap.n < 0) {
        return Failure("requested output cap is invalid");
      }
      if value.outputCap.Number? && value.outputCap.n > p.maxOutput.value {
        return Failure("requested output cap exceeds policy");
      }
      value := value.(outputCap := Number(p.maxOutput.value));
    }
    if size(value) > p.maxRequestBytes.value {
      return Failure("normalized request byte cap exceeded");
    }
    if value.outputCap.Missing? {
      return Success((value, 0));
    }
    if !value.outputCap.Number? || value.outputCap.n < 0 {
      return Failure("normalized output cap is invalid");
    }
    r := Success((value, value.outputCap.n));
  }

  /** What is sent upstream for a request. */
  function SentRequest(p: Policy, request: Request): Request {
    if p.maxOutput.Some? then request.(outputCap := Number(p.maxOutput.value)) else request
  }

  /** What a request reserves: one input token for each byte sent, and its output cap. */
  function TicketOf(p: Policy, request: Request, size: Request -> nat): Ticket {
    var sent := SentRequest(p, request);
    Ticket(size(sent), if sent.outputCap.Number? && sent.outputCap.n >= 0 then sent.outputCap.n else 0)
  }

  /** Under a valid policy the first request that can be normalized is admitted, unless the policy allows no turns. */
  lemma FirstRequestIsAdmitted(p: Policy, model: string, rawBytes: nat, request: Request, size: Request -> nat)
    requires ValidPolicy(p) && Normalizable(p, model, rawBytes, Some(request), size)
    ensures Admitted(p, Empty().ledger, TicketOf(p, request, size)).Success? <==> p.maxTurns != Some(0)
  {
  }

  /** What a valid policy bounds: the sizes, the requests at once, and every amount of money from below. */
  lemma PolicyBounds(p: Policy, u: Usage)
    requires ValidPolicy(p)
    ensures 0 < p.maxRequestBytes.value <= 8 * 1024 * 1024 && 0 < p.maxResponseBytes.value <= 16 * 1024 * 1024
    ensures 0 < p.maxInflight.value <= 32 && 0 < p.listenPort.value < 0x10000
    ensures p.maxSpend.None? ==> Reservation(p) == 0.0
    ensures p.maxSpend.Some? ==> 0.0 < Reservation(p) <= p.maxSpend.value
    ensures EstimatedCost(p, u).Some? ==> EstimatedCost(p, u).value >= 0.0
    ensures Charged(p, u) >= 0.0
  {
    if u.input.Some? && p.inputRate.Some? { NonNegativeProduct(u.input.value as real, p.inputRate.value); }
    if u.output.Some? && p.outputRate.Some? { NonNegativeProduct(u.output.value as real, p.outputRate.value); }
  }

  lemma NonNegativeProduct(x: real, y: real)
    requires x >= 0.0 && y >= 0.0
    ensures x * y >= 0.0
  {
  }

  /** Every admitted request went through normalization. */
  ghost predicate Normalized(p: Policy, events: seq<Event>) {
    forall i :: 0 <= i < |events| && events[i].Admit? && p.maxOutput.Some? ==>
        events[i].ticket.output == p.maxOutput.value
  }

  ghost predicate OneAtATime(p: Policy, s: State)
    requires p.maxOutput.Some?
  {
    && |s.open| <= 1 && s.ledger.outputSettled >= 0
    && (forall i :: 0 <= i < |s.open| ==> s.open[i].output == p.maxOutput.value)
    && s.ledger.outputReserved == if s.open == [] then 0 else p.maxOutput.value
  }

  lemma {:induction false} SerialUnderOutputCap(p: Policy, events: seq<Event>)
    requires ValidPolicy(p) && Normalized(p, events) && SettledOnce(events) && p.maxOutput.Some?
             && p.maxOutput.value > 0
    ensures OneAtATime(p, Play(p, events))
  {
    hide ValidPolicy;
    if events != [] {
      var n := |events| - 1;
      var s, e := Play(p, events[..n]), events[n];
      SerialUnderOutputCap(p, events[..n]);
      hide Play;
      SerialStep(p, s, e);
      assert Play(p, events) == Step(p, s, e) by { PlaySnoc(p, events); }
    }
  }

  lemma PlaySnoc(p: Policy, events: seq<Event>)
    requires ValidPolicy(p) && events != []
    ensures Play(p, events) == Step(p, Play(p, events[..|events| - 1]), events[|events| - 1])
  {
  }

  lemma SerialStep(p: Policy, s: State, e: Event)
    requires ValidPolicy(p) && p.maxOutput.Some? && p.maxOutput.value > 0 && OneAtATime(p, s)
    requires !e.SettleAgain? && (e.Admit? ==> e.ticket.output == p.maxOutput.value)
    ensures OneAtATime(p, Step(p, s, e))
  {
    hide Reservation, Charged, Excess;
  }

  /**
   Because normalization reserves the whole output cap for each request, a nonzero cap allows one request at
   a time, and a next one exactly when the other caps allow it, none is open and no output was ever charged.
   */
  lemma OutputCapSerializes(p: Policy, events: seq<Event>, t: Ticket)
    requires ValidPolicy(p) && Normalized(p, events + [Admit(t)]) && SettledOnce(events)
    requires p.maxOutput.Some? && p.maxOutput.value > 0
    ensures var s := Play(p, events);
            && |s.open| <= 1
            && (Admitted(p, s.ledger, t).Success? <==>
                  s.open == [] && s.ledger.outputSettled == 0
                  && (p.maxTurns.Some? ==> s.ledger.turns < p.maxTurns.value)
                  && (p.maxSpend.Some? ==> s.ledger.settled + Reservation(p) <= p.maxSpend.value)
                  && (p.maxInput.Some? ==> s.ledger.inputSettled + t.input <= p.maxInput.value))
  {
    var all := events + [Admit(t)];
    assert all[|events|] == Admit(t);
    forall i | 0 <= i < |events| ensures events[i] == all[i] {}
    SerialUnderOutputCap(p, events);
    CountersMatchTickets(p, events);
    hide Play, SettledOnce;
    TimesZero(Reservation(p));
    assert Play(p, events).open == [] ==> SumInput(Play(p, events).open) == 0;
    hide Times, SumInput, SumOutput, Reservation;
  }

  // ---- The request handler ----

  /** The model the policy pins and the encoded size of a request. */
  datatype Endpoint = Endpoint(model: string, size: Request -> nat)

  /** Requests waiting for the provider hold an open ticket; `answering` are settled and being written to a client. */
  datatype Server = Server(budget: State, answering: seq<Ticket>)

  /** What happens to some request: everything but the client's side is up to the network. */
  datatype HandlerEvent =
    | Arrives(rawBytes: nat, request: Option<Request>)
    | ProviderAnswers(waiting: nat, usage: Usage)
    | ProviderFails(waiting: nat)
    | ClientReads(answer: nat)
    | ClientFails(answer: nat)

  /** The call that `do_POST` makes under the lock, if any. */
  ghost function CallOf(p: Policy, ep: Endpoint, s: Server, e: HandlerEvent): Option<Event>
    requires ValidPolicy(p)
  {
    match e
    case Arrives(rawBytes, request) =>
      if Normalizable(p, ep.model, rawBytes, request, ep.size) then Some(Admit(TicketOf(p, request.value, ep.size)))
          else None
    case ProviderAnswers(i, usage) => if i < |s.budget.open| then Some(Settle(i, usage)) else None
    case ProviderFails(i) => if i < |s.budget.open| then Some(Settle(i, Usage(None, None, true))) else None
    case ClientReads(_) => None
    case ClientFails(j) => if j < |s.answering| then Some(SettleAgain(s.answering[j])) else None
  }

  /** One step of `do_POST` for one request: the exception handler settles whatever failed after the admission. */
  ghost function HandlerStep(p: Policy, ep: Endpoint, s: Server, e: HandlerEvent): Server
    requires ValidPolicy(p)
  {
    var call := CallOf(p, ep, s, e);
    var budget := if call.Some? then Step(p, s.budget, call.value) else s.budget;
    var answering :=
      match e
      case ProviderAnswers(i, _) => if i < |s.budget.open| then s.answering + [s.budget.open[i]] else s.answering
      case ClientReads(j) => if j < |s.answering| then Without(s.answering, j) else s.answering
      case ClientFails(j) => if j < |s.answering| then Without(s.answering, j) else s.answering
      case _ => s.answering;
    Server(budget, answering)
  }

  ghost function Serve(p: Policy, ep: Endpoint, events: seq<HandlerEvent>): Server
    requires ValidPolicy(p)
  {
    if events == [] then Server(Empty(), [])
    else HandlerStep(p, ep, Serve(p, ep, events[..|events| - 1]), events[|events| - 1])
  }

  /** The calls on the ledger in the order of the lock. */
  ghost function Calls(p: Policy, ep: Endpoint, events: seq<HandlerEvent>): seq<Event>
    requires ValidPolicy(p)
  {
    if events == [] then []
    else
      var front, last := events[..|events| - 1], events[|events| - 1];
      var call := CallOf(p, ep, Serve(p, ep, front), last);
      Calls(p, ep, front) + if call.Some? then [call.value] else []
  }

  /** How often writing an answer to its client failed. */
  ghost function FailedWrites(p: Policy, ep: Endpoint, events: seq<HandlerEvent>): nat
    requires ValidPolicy(p)
  {
    if events == [] then 0
    else
      var front, last := events[..|events| - 1], events[|events| - 1];
      FailedWrites(p, ep, front) + if WriteFails(Serve(p, ep, front), last) then 1 else 0
  }

  lemma PlayMore(p: Policy, calls: seq<Event>, e: Event)
    requires ValidPolicy(p)
    ensures Play(p, calls + [e]) == Step(p, Play(p, calls), e)
  {
    assert (calls + [e])[..|calls|] == calls;
  }

  ghost predicate WriteFails(s: Server, e: HandlerEvent) {
    e.ClientFails? && e.answer < |s.answering|
  }

  lemma HandlerStepIs(p: Policy, ep: Endpoint, s: Server, e: HandlerEvent)
    requires ValidPolicy(p)
    ensures var call := CallOf(p, ep, s, e);
            var s' := HandlerStep(p, ep, s, e);
            && s'.budget == (if call.Some? then Step(p, s.budget, call.value) else s.budget)
            && |s'.budget.repeats| == |s.budget.repeats| + (if WriteFails(s, e) then 1 else 0)
            && (call.Some? && call.value.Admit? && p.maxOutput.Some? ==> call.value.ticket.output == p.maxOutput.value)
  {
    hide ValidPolicy, Admitted, Settled, Excess, Normalizable;
  }

  lemma NormalizedMore(p: Policy, calls: seq<Event>, call: Event)
    requires Normalized(p, calls)
    requires call.Admit? && p.maxOutput.Some? ==> call.ticket.output == p.maxOutput.value
    ensures Normalized(p, calls + [call])
  {
  }

  /** The handler's effect on the ledger is the trace of its calls; it settles again once for each failed write. */
  lemma {:induction false} ServeIsPlay(p: Policy, ep: Endpoint, events: seq<HandlerEvent>)
    requires ValidPolicy(p)
    ensures Serve(p, ep, events).budget == Play(p, Calls(p, ep, events))
    ensures |Serve(p, ep, events).budget.repeats| == FailedWrites(p, ep, events)
    ensures Normalized(p, Calls(p, ep, events))
  {
    if events == [] {
      PlayNothing(p);
    } else {
      var front, last := events[..|events| - 1], events[|events| - 1];
      ServeIsPlay(p, ep, front);
      HandlerStepIs(p, ep, Serve(p, ep, front), last);
      var call := CallOf(p, ep, Serve(p, ep, front), last);
      hide ValidPolicy, Play, Step, HandlerStep, CallOf, Normalized;
      if call.Some? {
        PlayMore(p, Calls(p, ep, front), call.value);
        NormalizedMore(p, Calls(p, ep, front), call.value);
      } else {
        assert Calls(p, ep, front) + [] == Calls(p, ep, front);
      }
    }
  }

  lemma PlayNothing(p: Policy)
    requires ValidPolicy(p)
    ensures Play(p, []) == Empty()
  {
  }

  /**
   Over every interleaving of requests, the counters match the waiting requests if and only if no write to a
   client failed after its settlement; each such failure lets one more request past the inflight cap.
   */
  lemma CountersMatchUnlessAWriteFails(p: Policy, ep: Endpoint, events: seq<HandlerEvent>)
    requires ValidPolicy(p)
    ensures var s := Serve(p, ep, events).budget;
            && (s.ledger.inflight == |s.open| <==> FailedWrites(p, ep, events) == 0)
            && (SettledOnce(Calls(p, ep, events)) <==> FailedWrites(p, ep, events) == 0)
            && s.ledger.inflight == |s.open| - FailedWrites(p, ep, events)
            && |s.open| <= p.maxInflight.value + FailedWrites(p, ep, events)
  {
    hide Serve, Calls, Play, FailedWrites, ValidPolicy, SettledOnce;
    ServeIsPlay(p, ep, events);
    CountersMatchTickets(p, Calls(p, ep, events));
  }

  /** A request body of a kilobyte, one request at a time, no other cap. */
  function OneAtATimePolicy(): Policy {
    Policy(Some(1024), Some(65536), Some(1), None, None, None, None, None, None, None, Some(8080))
  }

  lemma ArrivesAlone(ep: Endpoint, request: Request, s: Server)
    requires request.model == ep.model && request.outputCap.Missing? && ep.size(request) <= 1024
    requires s.budget.ledger.inflight <= 0
    ensures var p := OneAtATimePolicy();
            var s' := HandlerStep(p, ep, s, Arrives(ep.size(request), Some(request)));
            && s'.budget.open == s.budget.open + [TicketOf(p, request, ep.size)] && s'.answering == s.answering
            && s'.budget.ledger.inflight == s.budget.ledger.inflight + 1
  {
    var p := OneAtATimePolicy();
    assert Normalizable(p, ep.model, ep.size(request), Some(request), ep.size);
    hide TicketOf, Normalizable;
  }

  lemma AnswerIsLost(ep: Endpoint, s: Server, usage: Usage)
    requires |s.budget.open| == 1 && s.answering == []
    ensures var p := OneAtATimePolicy();
            var s' := HandlerStep(p, ep, HandlerStep(p, ep, s, ProviderAnswers(0, usage)), ClientFails(0));
            s'.budget.open == [] && s'.answering == [] && s'.budget.ledger.inflight == s.budget.ledger.inflight - 2
  {
  }

  /** A request is answered, its answer is lost, and two more requests arrive. */
  function LostAnswer(ep: Endpoint, request: Request, usage: Usage): seq<HandlerEvent> {
    var arrives := Arrives(ep.size(request), Some(request));
    [arrives, ProviderAnswers(0, usage), ClientFails(0), arrives, arrives]
  }

  /**
   At an input: under an inflight cap of one, any request that fits the body limit is sent twice at once after
   the answer to an earlier one could not be written.
   */
  lemma FailedClientWriteBreaksTheCap(ep: Endpoint, request: Request, usage: Usage)
    requires request.model == ep.model && request.outputCap.Missing? && ep.size(request) <= 1024
    ensures ValidPolicy(OneAtATimePolicy()) && OneAtATimePolicy().maxInflight == Some(1)
    ensures var s := Serve(OneAtATimePolicy(), ep, LostAnswer(ep, request, usage)).budget;
            |s.open| == 2 && s.ledger.inflight == 1
  {
    var p, events := OneAtATimePolicy(), LostAnswer(ep, request, usage);
    assert ValidPolicy(p);
    hide ValidPolicy, OneAtATimePolicy, Serve, HandlerStep, TicketOf;
    ServeSteps(p, ep, events);
    ArrivesAlone(ep, request, Serve(p, ep, events[..0]));
    AnswerIsLost(ep, Serve(p, ep, events[..1]), usage);
    ArrivesAlone(ep, request, Serve(p, ep, events[..3]));
    ArrivesAlone(ep, request, Serve(p, ep, events[..4]));
    assert events[..5] == events;
  }

  lemma {:induction false} ServeSteps(p: Policy, ep: Endpoint, events: seq<HandlerEvent>)
    requires ValidPolicy(p)
    ensures Serve(p, ep, events[..0]) == Server(Empty(), [])
    ensures forall n :: 0 <= n < |events| ==>
              Serve(p, ep, events[..n + 1]) == HandlerStep(p, ep, Serve(p, ep, events[..n]), events[n])
  {
    forall n | 0 <= n < |events|
      ensures Serve(p, ep, events[..n + 1]) == HandlerStep(p, ep, Serve(p, ep, events[..n]), events[n])
    {
      assert events[..n + 1][..n] == events[..n];
    }
  }

  // ---- The lock-protected object ----

  class BudgetLedger {
    const policy: Policy
    var turns: int
    var inflight: int
    var reserved: real
    var settled: real
    var inputReserved: int
    var inputSettled: int
    var outputReserved: int
    var outputSettled: int
    ghost var open: seq<Ticket>
    ghost var since: seq<real>
    ghost var atLast: nat
    ghost var repeats: seq<Ticket>

    function Contents(): Ledger
      reads this
    {
      Ledger(turns, inflight, reserved, settled, inputReserved, inputSettled, outputReserved, outputSettled)
    }

    ghost function Abstract(): State
      reads this
    {
      State(Contents(), open, since, atLast, repeats)
    }

    ghost predicate Valid()
      reads this
    {
      ValidPolicy(policy) && Counted(policy, Abstract()) && SpendBounded(policy, Abstract())
    }

    constructor (policy: Policy)
      requires ValidPolicy(policy)
      ensures Valid() && this.policy == policy && Abstract() == Empty()
    {
      this.policy := policy;
      turns, inflight, reserved, settled := 0, 0, 0.0, 0.0;
      inputReserved, inputSettled, outputReserved, outputSettled := 0, 0, 0, 0;
      open, since, atLast, repeats := [], [], 0, [];
    }

    /** `admit`. */
    method Admit(inputReservation: nat, outputReservation: nat) returns (r: Result<real>)
      requires Valid()
      modifies this
      ensures Valid()
      ensures Abstract() == Step(policy, old(Abstract()), Event.Admit(Ticket(inputReservation, outputReservation)))
      ensures r.Success? <==> Admitted(policy, old(Contents()), Ticket(inputReservation, outputReservation)).Success?
      ensures r.Success? ==>
                r.value == Reservation(policy) && open == old(open) + [Ticket(inputReservation, outputReservation)]
      ensures r.Failure? ==> Abstract() == old(Abstract())
    {
      hide Counted, SpendBounded, Reservation;
      ghost var t := Ticket(inputReservation, outputReservation);
      StepCounts(policy, Abstract(), Event.Admit(t));
      StepSpends(policy, Abstract(), Event.Admit(t));
      if policy.maxTurns.Some? && turns >= policy.maxTurns.value {
        return Failure("turn cap exhausted");
      }
      if inflight >= policy.maxInflight.value {
        return Failure("inflight cap exhausted");
      }
      var reservation := Reservation(policy);
      if policy.maxSpend.Some? && settled + reserved + reservation > policy.maxSpend.value {
        return Failure("spend reservation exhausted");
      }
      if policy.maxInput.Some? && inputSettled + inputReserved + inputReservation > policy.maxInput.value {
        return Failure("input token cap exhausted");
      }
      if policy.maxOutput.Some? && outputSettled + outputReserved + outputReservation > policy.maxOutput.value {
        return Failure("output token cap exhausted");
      }
      turns := turns + 1;
      inflight := inflight + 1;
      reserved := reserved + reservation;
      inputReserved := inputReserved + inputReservation;
      outputReserved := outputReserved + outputReservation;
      since, atLast := [], |open| + 1;
      open := open + [Ticket(inputReservation, outputReservation)];
      r := Success(reservation);
    }

    /** `settle`, by the holder of the open ticket `i`. */
    method Settle(ghost i: nat, inputReservation: nat, outputReservation: nat, usage: Usage)
        returns (report: Report)
      requires Valid() && i < |open| && open[i] == Ticket(inputReservation, outputReservation)
      modifies this
      ensures Valid()
      ensures Abstract() == Step(policy, old(Abstract()), Event.Settle(i, usage))
      ensures report.charged == Charged(policy, usage) >= report.reserved == Reservation(policy)
      ensures report.overshoot == Overshoot(policy, Contents())
      ensures report.inputTokens == usage.input && report.outputTokens == usage.output
      ensures report.estimatedCost == EstimatedCost(policy, usage) && report.rateEstimated == report.estimatedCost.Some?
    {
      hide Counted, SpendBounded, ValidPolicy, Reservation, EstimatedCost;
      StepCounts(policy, Abstract(), Event.Settle(i, usage));
      StepSpends(policy, Abstract(), Event.Settle(i, usage));
      var estimated := EstimatedCost(policy, usage);
      var reservation := Reservation(policy);
      var charged := if usage.uncertain || estimated.None? || estimated.value <= reservation then reservation
          else estimated.value;
      assert charged == Charged(policy, usage);
      inflight := inflight - 1;
      reserved := reserved - reservation;
      settled := settled + charged;
      inputReserved := inputReserved - inputReservation;
      outputReserved := outputReserved - outputReservation;
      inputSettled := inputSettled + OrReserved(usage.input, inputReservation);
      outputSettled := outputSettled + OrReserved(usage.output, outputReservation);
      since := since + [charged - reservation];
      open := Without(open, i);
      report := Report(usage.input, usage.output, estimated, reservation, charged, Overshoot(policy, Contents()),
                       estimated.Some?);
    }
  }
}
