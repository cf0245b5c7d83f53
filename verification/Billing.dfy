/** One request's billing session: service/billing_session.go over service/funding_source.go. The two ledgers
    `funds` and `tokens` hold what the session has taken so far from the funding source and from the token. */
module Billing {
  import opened Prelude

  datatype State = State(
    playground: bool,
    wallet: bool,            // paid from the wallet; otherwise from a subscription
    preConsumed: int,
    tokenConsumed: int,
    extraReserved: int,
    trusted: bool,
    fundingSettled: bool,
    settled: bool,
    refunded: bool,
    consumed: int,           // what the funding source will give back on a refund
    funds: int,
    tokens: int)

  function TokenShare(playground: bool, amount: int): int {
    if playground then 0 else amount
  }

  // ---------------------------------------------------------------- the operations, as functions

  /** What a session starts from: who pays, the estimated quota, whether the user is trusted, and which writes succeed:
      those of the token and of the source, and that of the token's rollback when the source fails. */
  datatype Start = Start(playground: bool, wallet: bool, quota: int, trust: bool, tokenOk: bool, fundsOk: bool,
                         rollbackOk: bool)

  /** What the session asks for: a subscription is never trusted, and always pays at least 1 in advance. */
  function Asked(o: Start): int {
    if o.wallet then if o.trust then 0 else o.quota
    else if o.quota <= 0 then 1 else o.quota
  }

  /** A new session and its preConsume. Without a positive amount nothing is written; a playground has no token. */
  function Opened(o: Start): (bool, State) {
    var asked := Asked(o);
    var s := State(o.playground, o.wallet, 0, 0, 0, o.wallet && o.trust, false, false, false, 0, 0, 0);
    if asked <= 0 then (true, s.(preConsumed := asked))
    else if !o.tokenOk && !o.playground then (false, s)
    else
      var s1 := s.(tokenConsumed := asked, tokens := TokenShare(o.playground, asked));
      if o.fundsOk then (true, s1.(preConsumed := asked, consumed := asked, funds := asked))
      else (false, if o.playground then s1
                   else s1.(tokenConsumed := 0, tokens := if o.rollbackOk then 0 else s1.tokens))
  }

  predicate NeedsRefund(s: State) {
    !s.settled && !s.refunded && !s.fundingSettled && (s.tokenConsumed > 0 || (!s.wallet && s.consumed > 0))
  }

  /** When the token cannot pay, the source is paid back; `rollbackOk` says whether that write succeeds. A playground
      has no token that could fail. */
  function Reserved(s: State, target: int, fundsOk: bool, tokenOk: bool, rollbackOk: bool): State {
    var delta, tokenPays := target - s.preConsumed, tokenOk || s.playground;
    if s.settled || s.refunded || s.trusted || delta <= 0 || !fundsOk || (!tokenPays && rollbackOk) then s
    else if !tokenPays then
      s.(funds := s.funds + delta, consumed := if s.wallet then s.consumed + delta else s.consumed)
    else
      s.(preConsumed := target, tokenConsumed := s.tokenConsumed + delta, extraReserved := s.extraReserved + delta,
         consumed := if s.wallet then s.consumed + delta else s.consumed,
         funds := s.funds + delta, tokens := s.tokens + TokenShare(s.playground, delta))
  }

  function Settled(s: State, actual: int, fundsOk: bool, tokenOk: bool): State {
    var delta := actual - s.preConsumed;
    if s.settled then s
    else if delta == 0 then s.(settled := true)
    else if !s.fundingSettled && !fundsOk then s
    else
      var s1 := if s.fundingSettled then s else s.(fundingSettled := true, funds := s.funds + delta);
      s1.(settled := true, tokens := if tokenOk then s1.tokens + TokenShare(s.playground, delta) else s1.tokens)
  }

  /** Three writes, each of which may fail: the source, the extra reservations of a subscription, and the token. */
  function Refunded(s: State, fundsOk: bool, extraOk: bool, tokenOk: bool): State {
    if s.settled || s.refunded || !NeedsRefund(s) then s
    else
      var source := if fundsOk then s.consumed else 0;
      var extra := if s.extraReserved > 0 && !s.wallet && extraOk then s.extraReserved else 0;
      var token := if s.tokenConsumed > 0 && tokenOk then TokenShare(s.playground, s.tokenConsumed) else 0;
      s.(refunded := true, funds := s.funds - source - extra, tokens := s.tokens - token)
  }

  // ---------------------------------------------------------------- the session object

  class Session {
    const playground: bool
    const wallet: bool
    var preConsumed: int
    var tokenConsumed: int
    var extraReserved: int
    var trusted: bool
    var fundingSettled: bool
    var settled: bool
    var refunded: bool
    var consumed: int
    var funds: int
    var tokens: int

    function Now(): State
      reads this
    {
      State(playground, wallet, preConsumed, tokenConsumed, extraReserved, trusted, fundingSettled, settled, refunded,
            consumed, funds, tokens)
    }

    constructor (playground: bool, wallet: bool)
      ensures this.playground == playground && this.wallet == wallet
      ensures Now() == State(playground, wallet, 0, 0, 0, false, false, false, false, 0, 0, 0)
    {
      this.playground, this.wallet := playground, wallet;
      preConsumed, tokenConsumed, extraReserved := 0, 0, 0;
      trusted, fundingSettled, settled, refunded := false, false, false, false;
      consumed, funds, tokens := 0, 0, 0;
    }

    method PreConsume(quota: int, trust: bool, tokenOk: bool, fundsOk: bool, rollbackOk: bool) returns (ok: bool)
      requires Now() == State(playground, wallet, 0, 0, 0, false, false, false, false, 0, 0, 0)
      modifies this
      ensures (ok, Now()) == Opened(Start(playground, wallet, quota, trust, tokenOk, fundsOk, rollbackOk))
    {
      var effective := if !wallet && quota <= 0 then 1 else quota;
      if wallet && trust {
        trusted := true;
        effective := 0;
      }
      if effective > 0 {
        if !playground {
          if !tokenOk { return false; }
          tokens := tokens + effective;
        }
        tokenConsumed := effective;
      }
      if effective > 0 && !fundsOk {
        if tokenConsumed > 0 && !playground {
          if rollbackOk { tokens := tokens - tokenConsumed; }
          tokenConsumed := 0;
        }
        return false;
      }
      if effective > 0 {
        funds := funds + effective;
        consumed := effective;
      }
      preConsumed := effective;
      return true;
    }

    method Reserve(target: int, fundsOk: bool, tokenOk: bool, rollbackOk: bool) returns (ok: bool)
      modifies this
      ensures Now() == Reserved(old(Now()), target, fundsOk, tokenOk, rollbackOk)
      ensures ok && !settled && !refunded && !trusted ==> preConsumed >= target
      ensures ok <==> || old(settled || refunded || trusted) || target <= old(preConsumed)
                      || (fundsOk && (tokenOk || playground))
    {
      if settled || refunded || trusted || target <= preConsumed { return true; }
      var delta := target - preConsumed;
      if !fundsOk { return false; }
      funds := funds + delta;
      if wallet { consumed := consumed + delta; }
      if !playground && !tokenOk {
        if rollbackOk {
          funds := funds - delta;
          if wallet { consumed := consumed - delta; }
        }
        return false;
      }
      if !playground { tokens := tokens + delta; }
      preConsumed := preConsumed + delta;
      tokenConsumed := tokenConsumed + delta;
      extraReserved := extraReserved + delta;
      return true;
    }

    method Settle(actual: int, fundsOk: bool, tokenOk: bool) returns (ok: bool)
      modifies this
      ensures Now() == Settled(old(Now()), actual, fundsOk, tokenOk)
      ensures ok <==> || old(settled) || actual == old(preConsumed)
                      || ((fundsOk || old(fundingSettled)) && (tokenOk || playground))
      ensures ok ==> settled
    {
      if settled { return true; }
      var delta := actual - preConsumed;
      if delta == 0 {
        settled := true;
        return true;
      }
      if !fundingSettled {
        if !fundsOk { return false; }
        funds := funds + delta;
        fundingSettled := true;
      }
      if !playground {
        if tokenOk { tokens := tokens + delta; }
      }
      settled := true;
      return playground || tokenOk;
    }

    method Refund(fundsOk: bool, extraOk: bool, tokenOk: bool)
      modifies this
      ensures Now() == Refunded(old(Now()), fundsOk, extraOk, tokenOk)
    {
      if settled || refunded || !NeedsRefund(Now()) { return; }
      refunded := true;
      if fundsOk { funds := funds - consumed; }
      if extraReserved > 0 && !wallet {
        if extraOk { funds := funds - extraReserved; }
      }
      if tokenConsumed > 0 && !playground {
        if tokenOk { tokens := tokens - tokenConsumed; }
      }
    }
  }

  // ---------------------------------------------------------------- runs

  datatype Op =
    | Reserve(target: int, fundsOk: bool, tokenOk: bool, rollbackOk: bool)
    | Settle(actual: int, fundsOk: bool, tokenOk: bool)
    | Refund(fundsOk: bool, extraOk: bool, tokenOk: bool)

  function Apply(s: State, op: Op): State {
    match op
    case Reserve(target, fundsOk, tokenOk, rollbackOk) => Reserved(s, target, fundsOk, tokenOk, rollbackOk)
    case Settle(actual, fundsOk, tokenOk) => Settled(s, actual, fundsOk, tokenOk)
    case Refund(fundsOk, extraOk, tokenOk) => Refunded(s, fundsOk, extraOk, tokenOk)
  }

  function Run(s: State, ops: seq<Op>): State
    decreases |ops|
  {
    if ops == [] then s else Run(Apply(s, ops[0]), ops[1..])
  }

  /** Once settled, nothing later changes what was charged; a refund then is a no-op. */
  lemma {:induction false} SettledIsFinal(s: State, ops: seq<Op>)
    requires s.settled
    ensures Run(s, ops) == s
  {
    if ops != [] { SettledIsFinal(s, ops[1..]); }
  }

  // ---------------------------------------------------------------- what a run charges

  /** What has happened to a session: how much of failed reservations is stranded with the source, the call that
      refunded the session and the call that settled it. */
  datatype History = History(stranded: nat, refund: Option<Op>, settle: Option<Op>)

  /** A reservation is stranded when the source is charged, the token cannot pay and the rollback fails. */
  function StrandedBy(s: State, op: Op): nat {
    if op.Reserve? && !s.settled && !s.refunded && !s.trusted && op.target > s.preConsumed
       && op.fundsOk && !op.tokenOk && !s.playground && !op.rollbackOk
    then op.target - s.preConsumed
    else 0
  }

  function Noted(h: History, s: State, op: Op): History {
    var t := Apply(s, op);
    History(h.stranded + StrandedBy(s, op), if !s.refunded && t.refunded then Some(op) else h.refund,
            if !s.settled && t.settled then Some(op) else h.settle)
  }

  function NotedAll(h: History, s: State, ops: seq<Op>): History
    decreases |ops|
  {
    if ops == [] then h else NotedAll(Noted(h, s, ops[0]), Apply(s, ops[0]), ops[1..])
  }

  function HistoryOf(s: State, ops: seq<Op>): History {
    NotedAll(History(0, None, None), s, ops)
  }

  predicate Kinds(h: History) {
    (h.refund.Some? ==> h.refund.value.Refund?) && (h.settle.Some? ==> h.settle.value.Settle?)
  }

  /** What a refund leaves with the source: what its failed writes did not give back. A subscription never gives back
      what was stranded; a wallet counts it with the rest. */
  function Left(s: State, surplus: nat, stranded: nat, refund: Op): int
    requires refund.Refund?
  {
    if s.wallet then if refund.fundsOk then 0 else s.preConsumed + surplus + stranded
    else stranded + (if refund.fundsOk then 0 else s.consumed) + (if refund.extraOk then 0 else s.extraReserved)
  }

  /** What the customer has paid from the source: the amount held and what is stranded, or what a refund left of them;
      and the difference that a settlement adds. */
  function Paid(s: State, surplus: nat, h: History): int
    requires Kinds(h)
  {
    (if h.refund.None? then s.preConsumed + surplus + h.stranded else Left(s, surplus, h.stranded, h.refund.value)) +
    (if h.settle.None? then 0 else h.settle.value.actual - s.preConsumed)
  }

  /** The same from the token, where the write of a settlement may fail without stopping it. */
  function TokensPaid(s: State, surplus: nat, h: History): int
    requires Kinds(h)
  {
    (if h.refund.None? || !h.refund.value.tokenOk then TokenShare(s.playground, s.preConsumed + surplus) else 0) +
    (if h.settle.None? || !h.settle.value.tokenOk then 0
     else TokenShare(s.playground, h.settle.value.actual - s.preConsumed))
  }

  /** How a session stands: what it holds, what its refund would give back, and what it has taken. The surplus is what
      only a negative quota leaves behind. */
  predicate Books(s: State, surplus: nat, h: History) {
    var held := s.preConsumed + surplus;
    && Kinds(h)
    && (s.refunded <==> h.refund.Some?) && (s.settled <==> h.settle.Some?) && (s.fundingSettled ==> s.settled)
    && s.consumed >= 0 && s.extraReserved >= 0 && s.tokenConsumed == held >= 0
    && (if s.wallet then s.consumed == held + h.stranded else s.consumed + s.extraReserved == held)
    && (s.refunded ==> held > 0)
    && s.funds == Paid(s, surplus, h)
    && s.tokens == TokensPaid(s, surplus, h)
  }

  function Surplus(o: Start): nat {
    if o.wallet && !o.trust && o.quota < 0 then -o.quota else 0
  }

  lemma OpenedBooks(o: Start)
    requires Opened(o).0
    ensures Books(Opened(o).1, Surplus(o), History(0, None, None)) && Opened(o).1.preConsumed == Asked(o)
  {
  }

  lemma ReserveKeepsBooks(s: State, surplus: nat, h: History, op: Op)
    requires Books(s, surplus, h) && op.Reserve?
    ensures Books(Apply(s, op), surplus, Noted(h, s, op))
  {
  }

  /** A reservation whose writes succeed raises what is held to the target, and both ledgers with it. */
  lemma ReserveRaises(s: State, surplus: nat, h: History, target: int, rollbackOk: bool, tokenOk: bool)
    requires Books(s, surplus, h) && h.settle.None? && h.refund.None? && !s.trusted && target > s.preConsumed
    requires tokenOk || s.playground
    ensures var t, delta := Apply(s, Reserve(target, true, tokenOk, rollbackOk)), target - s.preConsumed;
            && Books(t, surplus, h) && t.preConsumed == target
            && t.funds == s.funds + delta && t.tokens == s.tokens + (if s.playground then 0 else delta)
  {
    ReserveKeepsBooks(s, surplus, h, Reserve(target, true, tokenOk, rollbackOk));
  }

  /** A settlement fails on the source and changes nothing, or adds the difference to what was pre-consumed. */
  lemma SettleKeepsBooks(s: State, surplus: nat, h: History, op: Op)
    requires Books(s, surplus, h) && h.settle.None? && op.Settle?
    ensures if op.fundsOk || op.actual == s.preConsumed
            then Books(Apply(s, op), surplus, h.(settle := Some(op))) && Apply(s, op).preConsumed == s.preConsumed
            else Apply(s, op) == s
  {
  }

  /** A refund happens exactly when something is held. */
  lemma RefundKeepsBooks(s: State, surplus: nat, h: History, op: Op)
    requires Books(s, surplus, h) && h.settle.None? && h.refund.None? && op.Refund?
    ensures if s.preConsumed + surplus > 0
            then Books(Apply(s, op), surplus, h.(refund := Some(op))) && Apply(s, op).preConsumed == s.preConsumed
            else Apply(s, op) == s
  {
  }

  /** So a refund leaves exactly what its failed writes did not give back. */
  lemma RefundLeaves(s: State, surplus: nat, h: History, op: Op)
    requires Books(s, surplus, h) && h.settle.None? && h.refund.None? && op.Refund?
    ensures var t, held := Apply(s, op), s.preConsumed + surplus;
            if held == 0 then t == s
            else && t.refunded && t.funds == Left(s, surplus, h.stranded, op)
                 && t.tokens == if op.tokenOk then 0 else TokenShare(s.playground, held)
  {
    RefundKeepsBooks(s, surplus, h, op);
  }

  /** One call, whichever of its writes fail. */
  lemma ApplyKeepsBooks(s: State, surplus: nat, h: History, op: Op)
    requires Books(s, surplus, h)
    ensures Books(Apply(s, op), surplus, Noted(h, s, op))
  {
    match op
    case Reserve(_, _, _, _) => ReserveKeepsBooks(s, surplus, h, op);
    case Settle(_, _, _) => if h.settle.None? { SettleKeepsBooks(s, surplus, h, op); }
    case Refund(_, _, _) => if h.settle.None? && h.refund.None? { RefundKeepsBooks(s, surplus, h, op); }
  }

  lemma {:induction false} RunKeepsBooks(s: State, surplus: nat, h: History, ops: seq<Op>)
    requires Books(s, surplus, h)
    ensures Books(Run(s, ops), surplus, NotedAll(h, s, ops))
    decreases |ops|
  {
    if ops != [] {
      ApplyKeepsBooks(s, surplus, h, ops[0]);
      RunKeepsBooks(Apply(s, ops[0]), surplus, Noted(h, s, ops[0]), ops[1..]);
    }
  }

  lemma OpenedRunKeepsBooks(o: Start, ops: seq<Op>)
    requires Opened(o).0
    ensures Books(Run(Opened(o).1, ops), Surplus(o), HistoryOf(Opened(o).1, ops))
  {
    OpenedBooks(o);
    RunKeepsBooks(Opened(o).1, Surplus(o), History(0, None, None), ops);
  }

  /** Over every run of calls after a successful pre-consume, for all quotas and whichever writes fail, what was taken
      from the source and from the token follows from the call that refunded the session, the call that settled it and
      the reservations that were stranded. */
  lemma ChargeFollowsRun(o: Start, ops: seq<Op>)
    requires Opened(o).0
    ensures var t, h := Run(Opened(o).1, ops), HistoryOf(Opened(o).1, ops);
            && Kinds(h)
            && (t.refunded <==> h.refund.Some?) && (t.settled <==> h.settle.Some?)
            && t.funds == Paid(t, Surplus(o), h)
            && t.tokens == TokensPaid(t, Surplus(o), h)
  {
    OpenedRunKeepsBooks(o, ops);
  }

  lemma SettledFunds(s: State, surplus: nat, h: History, actual: int, tokenOk: bool)
    requires Books(s, surplus, h) && h.settle.None?
    ensures Settled(s, actual, true, tokenOk).funds == Paid(s, surplus, h) + actual - s.preConsumed
  {
  }

  /** After every run that has not settled yet, for all quotas and whichever writes failed: a settlement that is
      written charges the actual cost if and only if what is charged so far is what counts as pre-consumed. Without a
      refund that means a quota that was not negative and no stranded reservation; after a refund, that it left exactly
      that much. */
  lemma SettleChargesActualIff(o: Start, ops: seq<Op>, actual: int, tokenOk: bool)
    requires Opened(o).0 && !Run(Opened(o).1, ops).settled
    ensures var t, h := Run(Opened(o).1, ops), HistoryOf(Opened(o).1, ops);
            && Kinds(h)
            && (Settled(t, actual, true, tokenOk).funds == actual <==>
                  if h.refund.None? then Surplus(o) == 0 && h.stranded == 0
                  else Left(t, Surplus(o), h.stranded, h.refund.value) == t.preConsumed)
  {
    OpenedRunKeepsBooks(o, ops);
    SettledFunds(Run(Opened(o).1, ops), Surplus(o), HistoryOf(Opened(o).1, ops), actual, tokenOk);
  }

  /** After a failed rollback a settlement charges exactly that amount too much, and a refund gives it back from a
      wallet but not from a subscription. */
  lemma FailedRollbackStrands(s: State, surplus: nat, h: History, target: int, actual: int)
    requires Books(s, surplus, h) && h.settle.None? && h.refund.None? && !s.trusted && !s.playground
    requires target > s.preConsumed
    ensures var t, delta := Reserved(s, target, true, false, false), target - s.preConsumed;
            && t.funds == s.funds + delta && t.preConsumed == s.preConsumed
            && Settled(t, actual, true, true).funds == actual + surplus + h.stranded + delta
            && (s.preConsumed + surplus > 0 ==>
                  Refunded(t, true, true, true).funds == if s.wallet then 0 else h.stranded + delta)
  {
    var op := Reserve(target, true, false, false);
    ReserveKeepsBooks(s, surplus, h, op);
    SettledFunds(Apply(s, op), surplus, Noted(h, s, op), actual, true);
    RefundLeaves(Apply(s, op), surplus, Noted(h, s, op), Refund(true, true, true));
  }

  /** The usual run: a quota that is not negative, nothing stranded, and a refund that is written. The customer has paid
      the amount held while the session is open, nothing after a refund, and the actual cost after a settlement; only
      when a refund came before the settlement is it less, by the amount that was held. */
  lemma UsualRunCharges(o: Start, ops: seq<Op>)
    requires Opened(o).0
    ensures var t, h := Run(Opened(o).1, ops), HistoryOf(Opened(o).1, ops);
            && Kinds(h)
            && (Surplus(o) == 0 && h.stranded == 0 &&
                (h.refund.Some? ==> h.refund.value.fundsOk && h.refund.value.extraOk) ==>
                  t.funds == (if t.refunded then 0 else t.preConsumed) +
                             (if h.settle.Some? then h.settle.value.actual - t.preConsumed else 0))
  {
    OpenedRunKeepsBooks(o, ops);
  }

  /** What is due in advance: nothing from a trusted wallet or for a quota that is not positive, but at least 1 from a
      subscription. */
  function Due(o: Start): nat {
    if !o.wallet then Max(o.quota, 1) else if o.trust then 0 else Max(o.quota, 0)
  }

  /** A pre-consume succeeds exactly when nothing is due or both writes succeed, a playground having no token to write.
      Then exactly that is taken from the source and from the token. */
  lemma OpenTakes(o: Start)
    ensures Opened(o).0 <==> Due(o) == 0 || ((o.tokenOk || o.playground) && o.fundsOk)
    ensures var s := Opened(o).1;
            Opened(o).0 ==>
              && s.funds == Due(o) && s.tokens == (if o.playground then 0 else Due(o))
              && s.preConsumed == Due(o) - Surplus(o) && !s.settled && !s.refunded
              && (s.trusted <==> o.wallet && o.trust) && s.wallet == o.wallet && s.playground == o.playground
  {
  }

  /** A failed pre-consume takes nothing from the source. The token is left charged exactly when it was charged and its
      rollback failed. */
  lemma FailedOpenLeaves(o: Start)
    requires !Opened(o).0
    ensures Opened(o).1.funds == 0
    ensures Opened(o).1.tokens == if o.tokenOk && !o.playground && !o.rollbackOk then Due(o) else 0
  {
  }
}
