/** The consecutive-failure circuit breaker in front of the wallet. */
module CircuitBreaker {
  datatype Mode = Closed | Open | HalfOpen

  datatype Options = Options(failureThreshold: int, cooldownMs: int)

  datatype Circuit = Circuit(mode: Mode, failures: nat, openedAt: int)

  /** What can happen to the breaker, in any interleaving: a call asks to start, or an admitted call ends. */
  datatype Event = Begin(now: int) | Succeed | Fail(now: int)

  predicate Refuses(opts: Options, c: Circuit, now: int) {
    c.mode == Open && now - c.openedAt < opts.cooldownMs
  }

  function React(opts: Options, c: Circuit, e: Event): Circuit {
    match e
    case Begin(now) => if c.mode == Open && !Refuses(opts, c, now) then c.(mode := HalfOpen) else c
    case Succeed => c.(mode := Closed, failures := 0)
    case Fail(now) =>
      var failed := c.(failures := c.failures + 1);
      if c.mode == HalfOpen || failed.failures >= opts.failureThreshold then failed.(mode := Open, openedAt := now) else failed
  }

  const INITIAL := Circuit(Closed, 0, 0)

  function AfterEvents(opts: Options, events: seq<Event>): Circuit {
    if events == [] then INITIAL else React(opts, AfterEvents(opts, events[..|events| - 1]), events[|events| - 1])
  }

  function Threshold(opts: Options): nat {
    if opts.failureThreshold < 1 then 1 else opts.failureThreshold
  }

  /** However calls overlap, an open or half-open circuit has counted enough failures. */
  lemma {:induction false} OpenMeansFailures(opts: Options, events: seq<Event>)
    ensures AfterEvents(opts, events).mode != Closed ==> AfterEvents(opts, events).failures >= Threshold(opts)
  {
    if events != [] {
      OpenMeansFailures(opts, events[..|events| - 1]);
    }
  }

  // Calls one after another

  datatype Call = Call(start: int, end: int, succeeds: bool)

  /** A call runs from its start to its end, unless it is refused at its start. */
  function AfterCall(opts: Options, c: Circuit, call: Call): Circuit {
    if Refuses(opts, c, call.start) then c
    else React(opts, React(opts, c, Begin(call.start)), if call.succeeds then Succeed else Fail(call.end))
  }

  function AfterCalls(opts: Options, calls: seq<Call>): Circuit {
    if calls == [] then INITIAL else AfterCall(opts, AfterCalls(opts, calls[..|calls| - 1]), calls[|calls| - 1])
  }

  /** The calls that ran, by the history specification alone. */
  function Executed(opts: Options, calls: seq<Call>): seq<Call> {
    if calls == [] then []
    else
      var ran, last := Executed(opts, calls[..|calls| - 1]), calls[|calls| - 1];
      if RefusedAfter(opts, ran, last.start) then ran else ran + [last]
  }

  /** Length of the trailing run of failures. */
  function TrailingFailures(ran: seq<Call>): (n: nat)
    ensures n > 0 <==> ran != [] && !ran[|ran| - 1].succeeds
  {
    if ran == [] || ran[|ran| - 1].succeeds then 0 else 1 + TrailingFailures(ran[..|ran| - 1])
  }

  /** History specification: refused when the last calls that ran have failed often enough, the last of
      them less than the cooldown ago. */
  predicate RefusedAfter(opts: Options, ran: seq<Call>, now: int) {
    TrailingFailures(ran) >= Threshold(opts) && now - ran[|ran| - 1].end < opts.cooldownMs
  }

  predicate Reflects(opts: Options, c: Circuit, ran: seq<Call>) {
    && c.mode != HalfOpen && c.failures == TrailingFailures(ran)
    && (c.mode == Open <==> TrailingFailures(ran) >= Threshold(opts))
    && (c.mode == Open ==> c.openedAt == ran[|ran| - 1].end)
  }

  lemma CallReflected(opts: Options, c: Circuit, ran: seq<Call>, call: Call)
    requires Reflects(opts, c, ran)
    ensures Refuses(opts, c, call.start) <==> RefusedAfter(opts, ran, call.start)
    ensures Reflects(opts, AfterCall(opts, c, call), if RefusedAfter(opts, ran, call.start) then ran else ran + [call])
  {
    assert (ran + [call])[..|ran|] == ran;
  }

  /** For calls one after another the breaker is its history specification: it refuses exactly when the
      trailing failures of the calls that ran reach the threshold and the last one is recent. */
  lemma {:induction false} BreakerIsItsHistory(opts: Options, calls: seq<Call>, now: int)
    ensures Reflects(opts, AfterCalls(opts, calls), Executed(opts, calls))
    ensures Refuses(opts, AfterCalls(opts, calls), now) <==> RefusedAfter(opts, Executed(opts, calls), now)
  {
    if calls != [] {
      var front, last := calls[..|calls| - 1], calls[|calls| - 1];
      BreakerIsItsHistory(opts, front, last.start);
      CallReflected(opts, AfterCalls(opts, front), Executed(opts, front), last);
    }
  }

  class Breaker {
    const opts: Options
    var state: Mode
    var failures: nat
    var openedAt: int

    ghost function Current(): Circuit
      reads this
    {
      Circuit(state, failures, openedAt)
    }

    constructor (opts: Options)
      ensures this.opts == opts && Current() == INITIAL
    {
      this.opts := opts;
      state, failures, openedAt := Closed, 0, 0;
    }

    /** The admission check at the start of a call. */
    method Admit(now: int) returns (admitted: bool)
      modifies this
      ensures Current() == React(opts, old(Current()), Begin(now)) && admitted == !Refuses(opts, old(Current()), now)
    {
      if state == Open {
        if now - openedAt < opts.cooldownMs {
          return false;
        }
        state := HalfOpen;
      }
      admitted := true;
    }

    method OnSuccess()
      modifies this
      ensures Current() == React(opts, old(Current()), Succeed)
    {
      failures := 0;
      state := Closed;
    }

    method OnFailure(now: int)
      modifies this
      ensures Current() == React(opts, old(Current()), Fail(now))
    {
      failures := failures + 1;
      if state == HalfOpen || failures >= opts.failureThreshold {
        state := Open;
        openedAt := now;
      }
    }

    /** One call, alone: refused exactly as the history of the calls that ran says. */
    method Execute(call: Call, ghost ran: seq<Call>) returns (refused: bool)
      requires Reflects(opts, Current(), ran)
      modifies this
      ensures refused == RefusedAfter(opts, ran, call.start)
      ensures Current() == AfterCall(opts, old(Current()), call) && Reflects(opts, Current(), if refused then ran else ran + [call])
    {
      CallReflected(opts, Current(), ran, call);
      var admitted := Admit(call.start);
      refused := !admitted;
      if admitted {
        if call.succeeds {
          OnSuccess();
        } else {
          OnFailure(call.end);
        }
      }
    }
  }
}
