/** How the merchant-wallet client reads an HTTP answer, behind the circuit breaker. */
module WalletReply {
  import opened Domain
  import opened Text
  import opened Wallet
  import CB = CircuitBreaker

  datatype Body = Body(success: bool, errorCode: int, message: string)

  /** An answer with status 2xx, an error answer with or without a body, or no answer at all. */
  datatype Http = Ok(body: Body) | Error(status: int, errorBody: Option<Body>) | NoAnswer

  function UpperChar(c: char): char {
    if 'a' <= c <= 'z' then c - 32 as char else c
  }

  function Upper(s: string): string {
    seq(|s|, i requires 0 <= i < |s| => UpperChar(s[i]))
  }

  predicate IsSuccess(b: Body) {
    b.success && b.errorCode == 0
  }

  predicate IsDuplicateTransaction(b: Body) {
    b.errorCode != 0 && Contains(Upper(b.message), "DUPLICATE")
  }

  function ParseTransactionResponse(b: Body, amount: int): Reply {
    if IsSuccess(b) || IsDuplicateTransaction(b) then Done
    else if amount < 0 then InsufficientFunds
    else Unavailable
  }

  /** The answer to one transaction, once the breaker has let the call through. */
  function ReadTransaction(h: Http, amount: int): Reply {
    match h
    case Ok(b) => ParseTransactionResponse(b, amount)
    case Error(_, Some(b)) => ParseTransactionResponse(b, amount)
    case Error(status, None) => if status in {400, 402, 409} then InsufficientFunds else Unavailable
    case NoAnswer => Unavailable
  }

  /** The answer to a batch: never a refusal. */
  function ReadBatch(h: Http): Reply {
    match h
    case Ok(b) => if IsSuccess(b) || IsDuplicateTransaction(b) then Done else Unavailable
    case Error(_, Some(b)) => if IsSuccess(b) || IsDuplicateTransaction(b) then Done else Unavailable
    case _ => Unavailable
  }

  predicate Carries(h: Http, b: Body) {
    h == Ok(b) || (h.Error? && h.errorBody == Some(b))
  }

  /** The answer, whatever its status, carries a body that reports success without an error code, or that
      reports an error and mentions a duplicate, in whatever case. */
  ghost predicate Accepting(h: Http) {
    exists b :: Carries(h, b)
                && ((b.success && b.errorCode == 0) || (b.errorCode != 0 && Contains(Lower(b.message), "duplicate")))
  }

  lemma DuplicateInAnyCase(s: string)
    ensures Contains(Upper(s), "DUPLICATE") <==> Contains(Lower(s), "duplicate")
  {
    forall i | 0 <= i <= |s| - 9 ensures OccursAt(Upper(s), "DUPLICATE", i) <==> OccursAt(Lower(s), "duplicate", i) {
      var u, l := Upper(s)[i..i + 9], Lower(s)[i..i + 9];
      forall k | 0 <= k < 9 ensures u[k] == "DUPLICATE"[k] <==> l[k] == "duplicate"[k] {
        assert u[k] == UpperChar(s[i + k]) && l[k] == LowerChar(s[i + k]);
        assert "duplicate"[k] as int == "DUPLICATE"[k] as int + 32 && 'A' <= "DUPLICATE"[k] <= 'Z';
        SameLetter(s[i + k], "DUPLICATE"[k]);
      }
      assert (u == "DUPLICATE") <==> forall k :: 0 <= k < 9 ==> u[k] == "DUPLICATE"[k];
      assert (l == "duplicate") <==> forall k :: 0 <= k < 9 ==> l[k] == "duplicate"[k];
    }
  }

  lemma SameLetter(c: char, capital: char)
    requires 'A' <= capital <= 'Z'
    ensures UpperChar(c) == capital <==> LowerChar(c) == (capital as int + 32) as char
  {}

  /** A transaction or a batch is done exactly when the answer is an accepting one. A transaction is refused
      for lack of funds when the merchant rejects a negative amount in a body, or answers 400, 402 or 409
      without one; a batch never is. The breaker counts only an accepting 2xx answer as a success. */
  lemma AnswersMean(h: Http, amount: int)
    ensures ReadTransaction(h, amount) == Done <==> Accepting(h)
    ensures ReadTransaction(h, amount) == InsufficientFunds
            <==> (!Accepting(h) && amount < 0 && exists b :: Carries(h, b)) || h in {Error(400, None), Error(402, None), Error(409, None)}
    ensures ReadBatch(h) == if Accepting(h) then Done else Unavailable
    ensures CountsAsSuccess(h, ReadTransaction(h, amount)) <==> h.Ok? && Accepting(h)
    ensures CountsAsSuccess(h, ReadBatch(h)) <==> h.Ok? && Accepting(h)
  {
    hide Contains, Upper, Lower;
    forall b: Body ensures IsDuplicateTransaction(b) <==> b.errorCode != 0 && Contains(Lower(b.message), "duplicate") {
      DuplicateInAnyCase(b.message);
    }
    match h
    case Ok(b) => assert Carries(h, b);
    case Error(_, Some(b)) => assert Carries(h, b);
    case Error(_, None) =>
    case NoAnswer =>
  }

  /** The breaker counts a call as successful only when a 2xx answer was accepted inside it. */
  predicate CountsAsSuccess(h: Http, reply: Reply) {
    h.Ok? && reply == Done
  }

  class WalletClient {
    const breaker: CB.Breaker

    constructor (breaker: CB.Breaker)
      ensures this.breaker == breaker
    {
      this.breaker := breaker;
    }

    method PostTransaction(amount: int, h: Http, start: int, end: int) returns (reply: Reply)
      modifies breaker
      ensures var refused := CB.Refuses(breaker.opts, old(breaker.Current()), start);
              && reply == (if refused then Unavailable else ReadTransaction(h, amount))
              && breaker.Current() == CB.AfterCall(breaker.opts, old(breaker.Current()), CallOf(h, amount, start, end))
    {
      var admitted := breaker.Admit(start);
      if !admitted {
        return Unavailable;
      }
      reply := ReadTransaction(h, amount);
      if CountsAsSuccess(h, reply) {
        breaker.OnSuccess();
      } else {
        breaker.OnFailure(end);
      }
    }

    /** An empty batch is not sent. A batch is never refused for lack of funds. */
    method PostTransactionBatch(size: nat, h: Http, start: int, end: int) returns (reply: Reply)
      modifies breaker
      ensures reply != InsufficientFunds
      ensures var refused := CB.Refuses(breaker.opts, old(breaker.Current()), start);
              reply == if size == 0 then Done else if refused then Unavailable else ReadBatch(h)
      ensures breaker.Current() == if size == 0 then old(breaker.Current())
                                   else CB.AfterCall(breaker.opts, old(breaker.Current()), CB.Call(start, end, CountsAsSuccess(h, ReadBatch(h))))
    {
      if size == 0 {
        return Done;
      }
      var admitted := breaker.Admit(start);
      if !admitted {
        return Unavailable;
      }
      reply := ReadBatch(h);
      if CountsAsSuccess(h, reply) {
        breaker.OnSuccess();
      } else {
        breaker.OnFailure(end);
      }
    }
  }

  function CallOf(h: Http, amount: int, start: int, end: int): CB.Call {
    CB.Call(start, end, CountsAsSuccess(h, ReadTransaction(h, amount)))
  }

  /** One call that the merchant refuses in an ordinary 2xx answer. */
  predicate RefusedDebit(call: CB.Call, h: Http, amount: int) {
    h.Ok? && ReadTransaction(h, amount) == InsufficientFunds && call == CallOf(h, amount, call.start, call.end)
  }

  /** Refusals for lack of funds count as failures of the wallet: after as many of them in a row as the
      threshold, every call within the cooldown is refused, credits and other users' debits included. */
  lemma RefusalsTripTheBreaker(opts: CB.Options, ran: seq<CB.Call>, refusals: seq<CB.Call>, answers: seq<Http>,
                                                  amounts: seq<int>, now: int)
    requires |answers| == |amounts| == |refusals| >= CB.Threshold(opts)
    requires forall i :: 0 <= i < |refusals| ==> RefusedDebit(refusals[i], answers[i], amounts[i])
    ensures CB.TrailingFailures(ran + refusals) >= CB.Threshold(opts)
    ensures CB.RefusedAfter(opts, ran + refusals, now) <==> now - refusals[|refusals| - 1].end < opts.cooldownMs
  {
    hide ReadTransaction;
    forall i | 0 <= i < |refusals| ensures !refusals[i].succeeds {
      assert RefusedDebit(refusals[i], answers[i], amounts[i]);
    }
    FailuresTrail(ran, refusals);
    assert (ran + refusals)[|ran + refusals| - 1] == refusals[|refusals| - 1];
  }

  lemma {:induction false} FailuresTrail(ran: seq<CB.Call>, more: seq<CB.Call>)
    requires forall i :: 0 <= i < |more| ==> !more[i].succeeds
    ensures CB.TrailingFailures(ran + more) == CB.TrailingFailures(ran) + |more|
  {
    if more == [] {
      assert ran + more == ran;
    } else {
      assert (ran + more)[..|ran + more| - 1] == ran + more[..|more| - 1];
      FailuresTrail(ran, more[..|more| - 1]);
    }
  }
}
