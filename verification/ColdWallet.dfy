/** Moving what the hot wallet holds in excess to the cold wallet (makeColdWalletWithdrawals). */
module ColdWallet {
  import opened Prelude
  import opened Payouts
  import PayoutInvariants
  import Store

  /** Above `max` a wallet is drained down to `residual`. */
  datatype Limits = Limits(max: int, residual: int)

  /** The configuration, the balances the node reports during the pass, and the ids drawn for the requests. */
  datatype View = View(
    cold: Address, ton: Limits, jettons: map<string, Limits>,
    tonBalance: int, jettonBalance: string -> int, id: string -> string)

  function Request(v: View, currency: string, amount: int): Payouts.Request
  {
    Payouts.Request("", v.id(currency), true, currency, amount, v.cold, false, false)
  }

  /** A pass under way: the observed TON less the fees of the jetton requests made so far. */
  datatype Pass = Pass(ledger: Ledger, ton: int, made: seq<Payouts.Request>, error: bool)

  predicate Pending(p: Ledger, to: Address, currency: string)
  {
    exists q :: q in p.requests && Store.InProgress(p.requests[q], to, currency)
  }

  function Ask(s: Pass, r: Payouts.Request): Pass
  {
    match SaveRequest(s.ledger, r)
    case Ok(p) => s.(ledger := p, made := s.made + [r])
    case Err(_) => s.(error := true)
  }

  function DrainJetton(v: View, s: Pass, cur: string): Pass
    requires cur in v.jettons
  {
    if s.error || Pending(s.ledger, v.cold, cur) || v.jettonBalance(cur) <= v.jettons[cur].max then s
    else Ask(s.(ton := s.ton - JETTON_TRANSFER_TON), Request(v, cur, v.jettonBalance(cur) - v.jettons[cur].residual))
  }

  function DrainJettons(v: View, s: Pass, order: seq<string>): Pass
    requires forall cur | cur in order :: cur in v.jettons
    decreases |order|
  {
    if order == [] then s
    else DrainJetton(v, DrainJettons(v, s, order[..|order| - 1]), order[|order| - 1])
  }

  function DrainTon(v: View, s: Pass): Pass
  {
    if s.error || Pending(s.ledger, v.cold, TON) || s.ton <= v.ton.max then s
    else Ask(s, Request(v, TON, s.ton - v.ton.residual))
  }

  function WholePass(v: View, p: Ledger, order: seq<string>): Pass
    requires forall cur | cur in order :: cur in v.jettons
  {
    DrainTon(v, DrainJettons(v, Pass(p, v.tonBalance, [], false), order))
  }

  /** makeColdWalletWithdrawals, for one order of the map of jetton wallets; nothing without a cold wallet. */
  method MakeColdWalletWithdrawals(db: Store.Connection, configured: Option<View>, order: seq<string>)
    returns (made: seq<Payouts.Request>, ok: bool)
    requires configured.Some? ==> forall cur | cur in order :: cur in configured.value.jettons
    modifies db`nextId, db`requests
    ensures configured.None? ==> ok && made == [] && db.Ledger() == old(db.Ledger())
    ensures configured.Some? ==>
      var end := WholePass(configured.value, old(db.Ledger()), order);
      db.Ledger() == end.ledger && made == end.made && ok == !end.error
  {
    made, ok := [], true;
    if configured.None? { return; }
    var v := configured.value;
    var tonBalance := v.tonBalance;
    ghost var start := Pass(db.Ledger(), v.tonBalance, [], false);
    for i := 0 to |order|
      invariant ok && Pass(db.Ledger(), tonBalance, made, false) == DrainJettons(v, start, order[..i])
    {
      assert order[..i + 1][..i] == order[..i];
      tonBalance, made, ok := DrainJettonWallet(db, v, order[i], tonBalance, made);
      if !ok {
        StaysStopped(v, start, order, i + 1);
        return;
      }
    }
    assert order[..|order|] == order;
    made, ok := DrainTonWallet(db, v, tonBalance, made);
  }

  /** One turn of the loop. */
  method DrainJettonWallet(db: Store.Connection, v: View, cur: string, ton: int, made: seq<Payouts.Request>)
    returns (ton': int, made': seq<Payouts.Request>, ok: bool)
    requires cur in v.jettons
    modifies db`nextId, db`requests
    ensures Pass(db.Ledger(), ton', made', !ok) == DrainJetton(v, Pass(old(db.Ledger()), ton, made, false), cur)
  {
    ton', made', ok := ton, made, true;
    var inProgress := db.IsInProgressInternalWithdrawalRequest(v.cold, cur);
    if inProgress || v.jettonBalance(cur) <= v.jettons[cur].max { return; }
    ton' := ton - JETTON_TRANSFER_TON;
    var r := Request(v, cur, v.jettonBalance(cur) - v.jettons[cur].residual);
    var id := db.SaveWithdrawalRequest(r);
    ok := id.Ok?;
    if ok { made' := made + [r]; }
  }

  /** What follows the loop. */
  method DrainTonWallet(db: Store.Connection, v: View, ton: int, made: seq<Payouts.Request>)
    returns (made': seq<Payouts.Request>, ok: bool)
    modifies db`nextId, db`requests
    ensures Pass(db.Ledger(), ton, made', !ok) == DrainTon(v, Pass(old(db.Ledger()), ton, made, false))
  {
    made', ok := made, true;
    var inProgress := db.IsInProgressInternalWithdrawalRequest(v.cold, TON);
    if inProgress || ton <= v.ton.max { return; }
    var r := Request(v, TON, ton - v.ton.residual);
    var id := db.SaveWithdrawalRequest(r);
    ok := id.Ok?;
    if ok { made' := made + [r]; }
  }

  /** Whatever a pass saves, the ledger keeps its invariant. */
  lemma {:induction false} PassKeeps(v: View, s: Pass, order: seq<string>)
    requires forall cur | cur in order :: cur in v.jettons
    requires PayoutInvariants.Inv(s.ledger)
    ensures PayoutInvariants.Inv(DrainJettons(v, s, order).ledger)
    ensures PayoutInvariants.Inv(DrainTon(v, DrainJettons(v, s, order)).ledger)
    decreases |order|
  {
    if order != [] {
      PassKeeps(v, s, order[..|order| - 1]);
      AskKeeps(DrainJettons(v, s, order[..|order| - 1]).ledger);
    }
    AskKeeps(DrainJettons(v, s, order).ledger);
  }

  lemma AskKeeps(p: Ledger)
    requires PayoutInvariants.Inv(p)
    ensures forall r | SaveRequest(p, r).Ok? :: PayoutInvariants.Inv(SaveRequest(p, r).value)
  {
    forall r | SaveRequest(p, r).Ok? ensures PayoutInvariants.Inv(SaveRequest(p, r).value) {
      PayoutInvariants.SaveRequestKeeps(p, r);
    }
  }

  lemma {:induction false} StaysStopped(v: View, s: Pass, order: seq<string>, i: nat)
    requires forall cur | cur in order :: cur in v.jettons
    requires i <= |order| && DrainJettons(v, s, order[..i]).error
    ensures DrainJettons(v, s, order) == DrainJettons(v, s, order[..i])
    decreases |order|
  {
    if i < |order| {
      assert order[..|order| - 1][..i] == order[..i];
      StaysStopped(v, s, order[..|order| - 1], i);
    } else {
      assert order[..i] == order;
    }
  }

  // ---------------------------------------------------------------- the amounts

  ghost predicate Drains(v: View, order: seq<string>, s: Pass)
  {
    && s.ton == v.tonBalance - JETTON_TRANSFER_TON * |s.made|
    && forall r | r in s.made :: r.currency in order && r.currency in v.jettons
         && r == Request(v, r.currency, v.jettonBalance(r.currency) - v.jettons[r.currency].residual)
         && v.jettonBalance(r.currency) > v.jettons[r.currency].max
  }

  lemma {:induction false} JettonsDrain(v: View, p: Ledger, order: seq<string>)
    requires forall cur | cur in order :: cur in v.jettons
    ensures var s := DrainJettons(v, Pass(p, v.tonBalance, [], false), order); !s.error ==> Drains(v, order, s)
    decreases |order|
  {
    if order != [] { JettonsDrain(v, p, order[..|order| - 1]); }
  }

  /** Paying a jetton request leaves its wallet at the residual. Paying all requests of a pass, each jetton one
      with its fee, leaves the hot wallet with the TON residual if the pass asked for TON. */
  lemma PassDrainsToResiduals(v: View, p: Ledger, order: seq<string>)
    requires TON !in order && forall cur | cur in order :: cur in v.jettons
    requires !WholePass(v, p, order).error
    ensures forall r | r in WholePass(v, p, order).made && r.currency != TON ::
      r.currency in v.jettons && v.jettonBalance(r.currency) - r.amount == v.jettons[r.currency].residual
    ensures var made := WholePass(v, p, order).made;
      forall i | 0 <= i < |made| && made[i].currency == TON ::
        i == |made| - 1 && v.tonBalance == v.ton.residual + made[i].amount + JETTON_TRANSFER_TON * i
  {
    JettonsDrain(v, p, order);
    var s := DrainJettons(v, Pass(p, v.tonBalance, [], false), order);
    assert forall i | 0 <= i < |s.made| :: s.made[i] in s.made;
  }

  ghost predicate AllPositive(s: Pass)
  {
    forall r | r in s.made :: r.amount > 0
  }

  /** What the node may report, and ids as they may be drawn. */
  function At(v: View, ton: nat, jettons: string -> nat, id: string -> string): View
  {
    v.(tonBalance := ton, jettonBalance := c => jettons(c), id := id)
  }

  /** Whatever the balances, the ids and the ledger. */
  ghost predicate AlwaysPositive(v: View, order: seq<string>)
    requires forall cur | cur in order :: cur in v.jettons
  {
    forall ton: nat, jettons: string -> nat, id: string -> string, p: Ledger | NextIsNew(p) ::
      AllPositive(WholePass(At(v, ton, jettons, id), p, order))
  }

  /** Ids come from a counter. */
  ghost predicate NextIsNew(p: Ledger)
  {
    forall q | q in p.requests :: q < p.nextId
  }

  /** A balance is never negative. */
  predicate JettonOk(l: Limits)
  {
    l.residual <= l.max || l.residual < 0
  }

  function JettonsIn(order: seq<string>): set<string>
  {
    set cur | cur in order && cur != TON
  }

  /** The TON balance may fall below zero by the fees of the pass. A jetton that is called TON and is always requested
      keeps the pass from ever requesting TON. */
  predicate TonOk(v: View, order: seq<string>)
    requires forall cur | cur in order :: cur in v.jettons
  {
    || v.ton.residual <= v.ton.max
    || v.ton.residual < -(JETTON_TRANSFER_TON * |JettonsIn(order)|)
    || (TON in order && v.jettons[TON].max < 0)
  }

  predicate LimitsOk(v: View, order: seq<string>)
    requires forall cur | cur in order :: cur in v.jettons
  {
    TonOk(v, order) && forall cur | cur in order :: JettonOk(v.jettons[cur])
  }

  // ---------------------------------------------------------------- positive when the limits are right

  lemma {:induction false} JettonsPositive(v: View, s: Pass, order: seq<string>)
    requires forall cur | cur in order :: cur in v.jettons && JettonOk(v.jettons[cur]) && v.jettonBalance(cur) >= 0
    requires AllPositive(s)
    ensures AllPositive(DrainJettons(v, s, order))
    decreases |order|
  {
    if order != [] { JettonsPositive(v, s, order[..|order| - 1]); }
  }

  function Requested(made: seq<Payouts.Request>): set<string>
  {
    set r | r in made :: r.currency
  }

  /** Each request is of another currency, and is pending when the pass goes on. */
  ghost predicate OneEach(v: View, order: seq<string>, s: Pass)
  {
    && NextIsNew(s.ledger) && |Requested(s.made)| == |s.made|
    && (forall cur | cur in Requested(s.made) :: cur in order && Pending(s.ledger, v.cold, cur))
  }

  /** Asking makes the currency pending, and no other. */
  lemma AskMakesPending(p: Ledger, r: Payouts.Request, currency: string)
    requires SaveRequest(p, r).Ok? && NextIsNew(p) && r.isInternal
    ensures NextIsNew(SaveRequest(p, r).value)
    ensures Pending(SaveRequest(p, r).value, r.destination, currency)
       <==> Pending(p, r.destination, currency) || currency == r.currency
  {
    var p' := SaveRequest(p, r).value;
    assert p.nextId in p'.requests;
    if Pending(p, r.destination, currency) {
      var q :| q in p.requests && Store.InProgress(p.requests[q], r.destination, currency);
      assert q in p'.requests && p'.requests[q] == p.requests[q];
    }
  }

  lemma AskKeepsEach(v: View, order: seq<string>, s: Pass, cur: string, amount: int)
    requires OneEach(v, order, s) && !Pending(s.ledger, v.cold, cur)
    ensures OneEach(v, order + [cur], Ask(s, Request(v, cur, amount)))
  {
    var r := Request(v, cur, amount);
    assert forall c | c in order :: c in order + [cur];
    if SaveRequest(s.ledger, r).Ok? {
      assert Requested(s.made + [r]) == Requested(s.made) + {cur};
      forall c | c in Requested(s.made) + {cur} ensures Pending(SaveRequest(s.ledger, r).value, v.cold, c) {
        AskMakesPending(s.ledger, r, c);
      }
      AskMakesPending(s.ledger, r, cur);
    }
  }

  lemma {:induction false} EachOnce(v: View, s: Pass, order: seq<string>)
    requires (forall cur | cur in order :: cur in v.jettons) && s.made == [] && NextIsNew(s.ledger)
    ensures OneEach(v, order, DrainJettons(v, s, order))
    decreases |order|
  {
    if order != [] {
      var init, cur := order[..|order| - 1], order[|order| - 1];
      EachOnce(v, s, init);
      var s1 := DrainJettons(v, s, init);
      assert init + [cur] == order && forall c | c in init :: c in order;
      if !s1.error && !Pending(s1.ledger, v.cold, cur) {
        AskKeepsEach(v, init, s1.(ton := s1.ton - JETTON_TRANSFER_TON), cur,
                     v.jettonBalance(cur) - v.jettons[cur].residual);
      }
    }
  }

  /** A jetton whose maximum is negative is requested or pending by the end of the loop. */
  lemma {:induction false} NegativeIsPending(v: View, s: Pass, order: seq<string>, cur: string)
    requires (forall c | c in order :: c in v.jettons) && s.made == [] && NextIsNew(s.ledger)
    requires cur in order && v.jettons[cur].max < 0 <= v.jettonBalance(cur)
    ensures DrainJettons(v, s, order).error || Pending(DrainJettons(v, s, order).ledger, v.cold, cur)
    decreases |order|
  {
    var init, last := order[..|order| - 1], order[|order| - 1];
    EachOnce(v, s, init);
    if cur in init { NegativeIsPending(v, s, init, cur); }
    var s1 := DrainJettons(v, s, init);
    var r := Request(v, last, v.jettonBalance(last) - v.jettons[last].residual);
    if SaveRequest(s1.ledger, r).Ok? { AskMakesPending(s1.ledger, r, cur); }
  }

  lemma SubsetIsSmaller(a: set<string>, b: set<string>)
    requires a <= b
    ensures |a| <= |b|
  {
    assert b == a + (b - a);
  }

  /** When the pass gets to TON, it made at most one request for each other jetton. */
  lemma TonIsBounded(v: View, p: Ledger, order: seq<string>)
    requires (forall cur | cur in order :: cur in v.jettons) && NextIsNew(p)
    ensures var s := DrainJettons(v, Pass(p, v.tonBalance, [], false), order);
      !s.error && !Pending(s.ledger, v.cold, TON) ==>
        s.ton >= v.tonBalance - JETTON_TRANSFER_TON * |JettonsIn(order)|
  {
    var start := Pass(p, v.tonBalance, [], false);
    var s := DrainJettons(v, start, order);
    if !s.error && !Pending(s.ledger, v.cold, TON) {
      JettonsDrain(v, p, order);
      EachOnce(v, start, order);
      SubsetIsSmaller(Requested(s.made), JettonsIn(order));
    }
  }

  lemma LimitsMakePositive(v: View, p: Ledger, order: seq<string>)
    requires (forall cur | cur in order :: cur in v.jettons && v.jettonBalance(cur) >= 0) && v.tonBalance >= 0
    requires LimitsOk(v, order) && NextIsNew(p)
    ensures AllPositive(WholePass(v, p, order))
  {
    var start := Pass(p, v.tonBalance, [], false);
    JettonsPositive(v, start, order);
    TonIsBounded(v, p, order);
    if TON in order && v.jettons[TON].max < 0 { NegativeIsPending(v, start, order, TON); }
  }

  // ---------------------------------------------------------------- and only then

  /** The jettons above their maximum. */
  function Over(v: View, order: seq<string>): set<string>
    requires forall cur | cur in order :: cur in v.jettons
  {
    set cur | cur in order && v.jettonBalance(cur) > v.jettons[cur].max
  }

  ghost predicate DrainedOver(v: View, over: set<string>, s: Pass)
  {
    && !s.error && s.ton == v.tonBalance - JETTON_TRANSFER_TON * |over| && NextIsNew(s.ledger)
    && (forall cur {:trigger Pending(s.ledger, v.cold, cur)} :: Pending(s.ledger, v.cold, cur) <==> cur in over)
    && (forall q | q in s.ledger.requests :: s.ledger.requests[q].userQueryId in over)
    && (forall cur | cur in over && cur in v.jettons :: RequestedOf(v, cur) in s.made)
  }

  function RequestedOf(v: View, cur: string): Payouts.Request
    requires cur in v.jettons
  {
    Request(v, cur, v.jettonBalance(cur) - v.jettons[cur].residual)
  }

  /** From an empty ledger and with different ids, exactly those are requested. */
  lemma {:induction false} DrainsOver(v: View, order: seq<string>)
    requires (forall cur | cur in order :: cur in v.jettons) && forall c :: v.id(c) == c
    ensures DrainedOver(v, Over(v, order), DrainJettons(v, Pass(EMPTY, v.tonBalance, [], false), order))
    decreases |order|
  {
    if order == [] {
    } else {
      var init, cur := order[..|order| - 1], order[|order| - 1];
      DrainsOver(v, init);
      OverOneMore(v, init, cur);
      assert init + [cur] == order;
      DrainsOneMore(v, Over(v, init), DrainJettons(v, Pass(EMPTY, v.tonBalance, [], false), init), cur);
    }
  }

  lemma OverOneMore(v: View, init: seq<string>, cur: string)
    requires forall c | c in init + [cur] :: c in v.jettons
    requires forall c | c in init :: c in v.jettons
    ensures Over(v, init + [cur])
         == if v.jettonBalance(cur) > v.jettons[cur].max then Over(v, init) + {cur} else Over(v, init)
  {
    assert forall c :: c in init + [cur] <==> c in init || c == cur;
  }

  lemma DrainsOneMore(v: View, over: set<string>, s: Pass, cur: string)
    requires DrainedOver(v, over, s) && cur in v.jettons && v.id(cur) == cur
    ensures var more := if v.jettonBalance(cur) > v.jettons[cur].max then over + {cur} else over;
      DrainedOver(v, more, DrainJetton(v, s, cur))
  {
    if v.jettonBalance(cur) > v.jettons[cur].max {
      if cur in over { assert over + {cur} == over; } else { AsksOneMore(v, over, s, cur); }
    }
  }

  lemma AsksOneMore(v: View, over: set<string>, s: Pass, cur: string)
    requires DrainedOver(v, over, s) && cur in v.jettons && cur !in over && v.id(cur) == cur
    ensures DrainedOver(v, over + {cur}, Ask(s.(ton := s.ton - JETTON_TRANSFER_TON), RequestedOf(v, cur)))
  {
    var r := RequestedOf(v, cur);
    assert SaveRequest(s.ledger, r).Ok?;
    forall c ensures Pending(SaveRequest(s.ledger, r).value, v.cold, c) <==> c in over + {cur} {
      AskMakesPending(s.ledger, r, c);
    }
    AskMakesPending(s.ledger, r, cur);
  }

  function Same(): string -> string { c => c }

  /** Only this jetton has a balance. */
  function Only(cur: string, balance: nat): string -> nat
  {
    c => if c == cur then balance else 0
  }

  /** Its residual, which is above its maximum. */
  lemma JettonAsksForZero(v: View, order: seq<string>, cur: string)
    requires (forall c | c in order :: c in v.jettons) && cur in order && !JettonOk(v.jettons[cur])
    ensures !AlwaysPositive(v, order)
  {
    var jettons := Only(cur, v.jettons[cur].residual);
    var w := At(v, 0, jettons, Same());
    DrainsOver(w, order);
    assert cur in Over(w, order) && RequestedOf(w, cur).amount == 0;
    assert NextIsNew(EMPTY) && !AllPositive(WholePass(At(v, 0, jettons, Same()), EMPTY, order));
  }

  /** Balances just above the maximum. */
  function JustOver(v: View): string -> nat
  {
    c => if c != TON && c in v.jettons && v.jettons[c].max >= 0 then v.jettons[c].max + 1 else 0
  }

  /** All other jettons are requested, and their fees bring TON to its residual, which is above its maximum. */
  lemma TonAsksForZero(v: View, order: seq<string>)
    requires (forall c | c in order :: c in v.jettons) && !TonOk(v, order)
    ensures !AlwaysPositive(v, order)
  {
    var ton: nat := v.ton.residual + JETTON_TRANSFER_TON * |JettonsIn(order)|;
    var w := At(v, ton, JustOver(v), Same());
    DrainsOver(w, order);
    assert Over(w, order) == JettonsIn(order);
    assert !AllPositive(WholePass(w, EMPTY, order));
    assert NextIsNew(EMPTY) && !AllPositive(WholePass(At(v, ton, JustOver(v), Same()), EMPTY, order));
  }

  /** Every amount asked for is positive, whatever the node reports, if and only if the limits are right: no jetton
      residual is above its maximum and not negative, and no TON residual is above its maximum and within the fees
      of a pass. */
  lemma PositiveIffLimitsOk(v: View, order: seq<string>)
    requires forall cur | cur in order :: cur in v.jettons
    ensures AlwaysPositive(v, order) <==> LimitsOk(v, order)
  {
    if LimitsOk(v, order) {
      forall ton: nat, jettons: string -> nat, id: string -> string, p: Ledger | NextIsNew(p)
        ensures AllPositive(WholePass(At(v, ton, jettons, id), p, order))
      {
        var w := At(v, ton, jettons, id);
        forall cur | cur in order ensures w.jettonBalance(cur) >= 0 {
          var balance: nat := jettons(cur);
        }
        LimitsMakePositive(w, p, order);
      }
    }
    forall cur | cur in order && !JettonOk(v.jettons[cur]) ensures !AlwaysPositive(v, order) {
      JettonAsksForZero(v, order, cur);
    }
    if !TonOk(v, order) { TonAsksForZero(v, order); }
  }

  // ---------------------------------------------------------------- the default residual

  /** decimal.BigInt: the fraction is cut off. */
  function Truncated(x: real): int
  {
    if x >= 0.0 then x.Floor else -((-x).Floor)
  }

  const HYSTERESIS := 0.95

  function DefaultLimits(max: real): Limits
  {
    Limits(Truncated(max), Truncated(max * HYSTERESIS))
  }

  /** The default residual is not above the maximum when the maximum is not negative. */
  lemma DefaultResidual(max: real)
    requires max >= 0.0
    ensures 0 <= DefaultLimits(max).residual <= DefaultLimits(max).max
  {
    assert max * HYSTERESIS <= max;
  }

  /** Amounts are whole numbers of nanotons; for those it is so exactly then. The configuration accepts negative
      ones. */
  lemma DefaultResidualIff(max: int)
    ensures DefaultLimits(max as real).residual <= DefaultLimits(max as real).max <==> max >= 0
  {
    if max >= 0 {
      DefaultResidual(max as real);
    } else {
      var n := -max;
      assert (n as real) * HYSTERESIS < n as real;
      assert -(max as real * HYSTERESIS) == n as real * HYSTERESIS;
      assert (n as real * HYSTERESIS).Floor < n;
      assert -(max as real) == n as real;
    }
  }

  /** With the default residual, the one whole maximum at which a jetton request may be for nothing is -1. */
  lemma DefaultJettonOkIff(max: int)
    ensures JettonOk(DefaultLimits(max as real)) <==> max != -1
  {
    DefaultResidualIff(max);
    if max < 0 {
      var n := -max;
      assert -(max as real * HYSTERESIS) == n as real * HYSTERESIS;
      assert n >= 2 ==> n as real * HYSTERESIS >= 1.0;
    }
  }

  /** With that maximum an empty wallet makes a request for nothing. */
  lemma EmptyWalletAsksForNothing(v: View, cur: string)
    requires v.jettons == map[cur := DefaultLimits(-1.0)] && v.jettonBalance(cur) == 0
    ensures DrainJettons(v, Pass(EMPTY, v.tonBalance, [], false), [cur]).made == [Request(v, cur, 0)]
  {
    assert DefaultLimits(-1.0) == Limits(-1, 0);
    assert [cur][..0] == [];
  }

  // ---------------------------------------------------------------- what is asked for

  /** The currencies with a request of the cold wallet under way: internal, to it, and not processed. */
  function InFlight(p: Ledger, to: Address): set<string>
  {
    set q | q in p.requests && p.requests[q].isInternal && !p.requests[q].processed && p.requests[q].destination == to
      :: p.requests[q].currency
  }

  /** The jettons above their maximum that have no such request. */
  function Due(v: View, p: Ledger, order: seq<string>): set<string>
    requires forall cur | cur in order :: cur in v.jettons
  {
    set cur | cur in order && cur !in InFlight(p, v.cold) && v.jettonBalance(cur) > v.jettons[cur].max
  }

  /** A request to the cold wallet, new and with a drawn id, down to the residual. */
  predicate ToCold(v: View, r: Payouts.Request, balance: int, residual: int)
  {
    && r.userId == "" && r.userQueryId == v.id(r.currency) && r.isInternal && !r.processing && !r.processed
    && r.destination == v.cold && r.amount == balance - residual
  }

  /** What the loop over `order` asks for, and what is under way after it. */
  ghost predicate AsksJettons(v: View, p: Ledger, order: seq<string>, s: Pass)
    requires forall cur | cur in order :: cur in v.jettons
  {
    && Requested(s.made) == Due(v, p, order)
    && InFlight(s.ledger, v.cold) == InFlight(p, v.cold) + Due(v, p, order)
  }

  lemma PendingIsInFlight(p: Ledger, to: Address, currency: string)
    ensures Pending(p, to, currency) <==> currency in InFlight(p, to)
  {
  }

  /** Asking adds the currency to those under way. */
  lemma AskAdds(p: Ledger, r: Payouts.Request)
    requires NextIsNew(p) && SaveRequest(p, r).Ok? && r.isInternal
    ensures InFlight(SaveRequest(p, r).value, r.destination) == InFlight(p, r.destination) + {r.currency}
  {
    var p' := SaveRequest(p, r).value;
    forall c ensures c in InFlight(p', r.destination) <==> c in InFlight(p, r.destination) || c == r.currency {
      PendingIsInFlight(p, r.destination, c);
      PendingIsInFlight(p', r.destination, c);
      AskMakesPending(p, r, c);
    }
  }

  lemma MadeAdds(made: seq<Payouts.Request>, r: Payouts.Request)
    ensures Requested(made + [r]) == Requested(made) + {r.currency}
  {
  }

  lemma JettonDue(v: View, p: Ledger, init: seq<string>, cur: string)
    requires (forall c | c in init :: c in v.jettons) && cur !in init && cur in v.jettons
    ensures Due(v, p, init + [cur])
         == Due(v, p, init)
            + if cur in InFlight(p, v.cold) || v.jettonBalance(cur) <= v.jettons[cur].max then {} else {cur}
    ensures cur !in Due(v, p, init)
  {
  }

  lemma LastAsked(v: View, p: Ledger, init: seq<string>, s: Pass, cur: string)
    requires (forall c | c in init :: c in v.jettons) && cur !in init && cur in v.jettons
    requires NextIsNew(s.ledger) && AsksJettons(v, p, init, s) && !DrainJetton(v, s, cur).error
    ensures AsksJettons(v, p, init + [cur], DrainJetton(v, s, cur))
  {
    PendingIsInFlight(s.ledger, v.cold, cur);
    JettonDue(v, p, init, cur);
    if !Pending(s.ledger, v.cold, cur) && v.jettonBalance(cur) > v.jettons[cur].max {
      var r := Request(v, cur, v.jettonBalance(cur) - v.jettons[cur].residual);
      AskAdds(s.ledger, r);
      MadeAdds(s.made, r);
    }
  }

  lemma {:induction false} JettonsAsked(v: View, p: Ledger, order: seq<string>)
    requires (forall cur | cur in order :: cur in v.jettons) && NextIsNew(p)
    requires forall i, j | 0 <= i < j < |order| :: order[i] != order[j]
    requires !DrainJettons(v, Pass(p, v.tonBalance, [], false), order).error
    ensures AsksJettons(v, p, order, DrainJettons(v, Pass(p, v.tonBalance, [], false), order))
    decreases |order|
  {
    if order != [] {
      var init, cur := order[..|order| - 1], order[|order| - 1];
      JettonsAsked(v, p, init);
      EachOnce(v, Pass(p, v.tonBalance, [], false), init);
      assert order == init + [cur];
      LastAsked(v, p, init, DrainJettons(v, Pass(p, v.tonBalance, [], false), init), cur);
    }
  }

  /** The requests are those for the jettons that are due, and one for TON if there is none under way and what the fees
      leave of it is above the maximum. */
  ghost predicate AsksWhatIsDue(v: View, due: set<string>, ton: int, tonInFlight: bool, made: seq<Payouts.Request>)
  {
    && ton == v.tonBalance - JETTON_TRANSFER_TON * |due|
    && Requested(made) == due + (if !tonInFlight && ton > v.ton.max then {TON} else {})
    && |made| == |Requested(made)|
    && forall r | r in made ::
         if r.currency == TON then ToCold(v, r, ton, v.ton.residual)
         else r.currency in v.jettons && ToCold(v, r, v.jettonBalance(r.currency), v.jettons[r.currency].residual)
  }

  /** One request for each jetton that is due. */
  ghost predicate JettonsMade(v: View, due: set<string>, made: seq<Payouts.Request>)
  {
    && Requested(made) == due && |made| == |due| && TON !in due
    && forall r | r in made :: r.currency != TON && r.currency in v.jettons
         && ToCold(v, r, v.jettonBalance(r.currency), v.jettons[r.currency].residual)
  }

  /** The loop alone. */
  lemma LoopAsksWhatIsDue(v: View, p: Ledger, order: seq<string>)
    requires (forall cur | cur in order :: cur in v.jettons) && TON !in order && NextIsNew(p)
    requires forall i, j | 0 <= i < j < |order| :: order[i] != order[j]
    requires !DrainJettons(v, Pass(p, v.tonBalance, [], false), order).error
    ensures var s := DrainJettons(v, Pass(p, v.tonBalance, [], false), order);
      && JettonsMade(v, Due(v, p, order), s.made) && s.ton == v.tonBalance - JETTON_TRANSFER_TON * |Due(v, p, order)|
      && (TON in InFlight(s.ledger, v.cold) <==> TON in InFlight(p, v.cold))
  {
    JettonsAsked(v, p, order);
    JettonsDrain(v, p, order);
    EachOnce(v, Pass(p, v.tonBalance, [], false), order);
  }

  lemma TonSkipped(v: View, due: set<string>, ton: int, tonInFlight: bool, made: seq<Payouts.Request>)
    requires JettonsMade(v, due, made) && ton == v.tonBalance - JETTON_TRANSFER_TON * |due|
    requires tonInFlight || ton <= v.ton.max
    ensures AsksWhatIsDue(v, due, ton, tonInFlight, made)
  {
  }

  lemma TonAdded(v: View, due: set<string>, ton: int, made: seq<Payouts.Request>, r: Payouts.Request)
    requires JettonsMade(v, due, made) && ton == v.tonBalance - JETTON_TRANSFER_TON * |due|
    requires ton > v.ton.max && r.currency == TON && ToCold(v, r, ton, v.ton.residual)
    ensures AsksWhatIsDue(v, due, ton, false, made + [r])
  {
    MadeAdds(made, r);
    forall x | x in made + [r] ensures x == r || (x in made && x.currency != TON) {}
  }

  lemma DrainTonAsks(v: View, due: set<string>, s: Pass)
    requires JettonsMade(v, due, s.made) && s.ton == v.tonBalance - JETTON_TRANSFER_TON * |due|
    requires !DrainTon(v, s).error
    ensures AsksWhatIsDue(v, due, s.ton, TON in InFlight(s.ledger, v.cold), DrainTon(v, s).made)
  {
    var r := Request(v, TON, s.ton - v.ton.residual);
    PendingIsInFlight(s.ledger, v.cold, TON);
    if Pending(s.ledger, v.cold, TON) || s.ton <= v.ton.max {
      TonSkipped(v, due, s.ton, TON in InFlight(s.ledger, v.cold), s.made);
    } else {
      TonAdded(v, due, s.ton, s.made, r);
      assert DrainTon(v, s).made == s.made + [r];
    }
  }

  /** A pass asks for exactly those jettons that are above their maximum and have no request of the cold wallet under
      way, and for TON likewise with what the fees of these requests leave of it. A processed request stands in the way
      of none. */
  lemma AsksExactlyWhatIsDue(v: View, p: Ledger, order: seq<string>)
    requires (forall cur | cur in order :: cur in v.jettons) && TON !in order && NextIsNew(p)
    requires forall i, j | 0 <= i < j < |order| :: order[i] != order[j]
    requires !WholePass(v, p, order).error
    ensures exists ton ::
      AsksWhatIsDue(v, Due(v, p, order), ton, TON in InFlight(p, v.cold), WholePass(v, p, order).made)
  {
    LoopAsksWhatIsDue(v, p, order);
    DrainTonAsks(v, Due(v, p, order), DrainJettons(v, Pass(p, v.tonBalance, [], false), order));
  }

  // ---------------------------------------------------------------- at most one request at a time

  /** The thread that makes the passes may have looked for a request to `to` and found none. */
  datatype World = World(ledger: PayoutInvariants.State, found: Option<(Address, string)>)

  datatype Step =
    | Other(step: PayoutInvariants.Step)
    | Look(to: Address, currency: string)
    | SaveCold(request: Payouts.Request)
    | Restart

  /** Only a pass saves internal requests: the API saves external ones (`is_internal` is false). */
  ghost predicate Next(w: World, step: Step, w': World)
  {
    match step
    case Other(s) =>
      (s.Save? ==> !s.w.isInternal) && PayoutInvariants.Next(w.ledger, s, w'.ledger) && w'.found == w.found
    case Look(to, currency) =>
      w' == w.(found := if Pending(w.ledger.ledger, to, currency) then None else Some((to, currency)))
    case SaveCold(r) =>
      && r.isInternal && w.found == Some((r.destination, r.currency)) && w'.found == None
      && PayoutInvariants.Next(w.ledger, PayoutInvariants.Save(r), w'.ledger)
    case Restart => PayoutInvariants.Next(w.ledger, PayoutInvariants.Crash, w'.ledger) && w'.found == None
  }

  ghost predicate Run(ws: seq<World>, steps: seq<Step>)
  {
    && |ws| == |steps| + 1 && ws[0] == World(PayoutInvariants.State(EMPTY, []), None)
    && forall i | 0 <= i < |steps| :: Next(ws[i], steps[i], ws[i + 1])
  }

  ghost predicate OneAtATime(p: Ledger)
  {
    forall q, o | q in p.requests && o in p.requests
                  && p.requests[q].isInternal && !p.requests[q].processed
                  && Store.InProgress(p.requests[o], p.requests[q].destination, p.requests[q].currency) :: q == o
  }

  ghost predicate Inv(w: World)
  {
    && (forall q | q in w.ledger.ledger.requests :: q < w.ledger.ledger.nextId)
    && OneAtATime(w.ledger.ledger)
    && (w.found.Some? ==> !Pending(w.ledger.ledger, w.found.value.0, w.found.value.1))
  }

  /** No request appears, none becomes another, none becomes unprocessed. */
  ghost predicate Carries(p: Ledger, p': Ledger)
  {
    && p'.nextId == p.nextId && p'.requests.Keys == p.requests.Keys
    && forall q | q in p.requests ::
         && p'.requests[q].isInternal == p.requests[q].isInternal
         && p'.requests[q].destination == p.requests[q].destination
         && p'.requests[q].currency == p.requests[q].currency
         && (p.requests[q].processed ==> p'.requests[q].processed)
  }

  lemma {:induction false} BatchCarries(p: Ledger, tasks: seq<Task>, msg: Uuid, expiredAt: Time)
    ensures Carries(p, LedgerAfter(CreateBatch(p, tasks, msg, expiredAt), p))
    decreases |tasks|
  {
    if tasks != [] { BatchCarries(p, tasks[..|tasks| - 1], msg, expiredAt); }
  }

  lemma {:induction false} ReportsCarry(p: Ledger, es: seq<Report>)
    ensures Carries(p, LedgerAfter(ApplyReports(p, es), p))
    decreases |es|
  {
    if es != [] { ReportsCarry(p, es[..|es| - 1]); }
  }

  function LedgerAfter(r: Result<Ledger, Error>, p: Ledger): Ledger
  {
    PayoutInvariants.LedgerOr(r, p)
  }

  lemma OtherCarries(s: PayoutInvariants.State, step: PayoutInvariants.Step, s': PayoutInvariants.State)
    requires PayoutInvariants.Next(s, step, s') && !step.Save?
    ensures Carries(s.ledger, s'.ledger)
  {
    match step
    case Create(batch, msg, expiredAt) => BatchCarries(s.ledger, batch, msg, expiredAt);
    case Apply(reports) => ReportsCarry(s.ledger, reports);
    case _ =>
  }

  lemma CarriedKeeps(w: World, w': World)
    requires Inv(w) && Carries(w.ledger.ledger, w'.ledger.ledger) && (w'.found == w.found || w'.found == None)
    ensures Inv(w')
  {
    var p, p' := w.ledger.ledger, w'.ledger.ledger;
    forall q, to, cur | q in p'.requests && Store.InProgress(p'.requests[q], to, cur)
      ensures Store.InProgress(p.requests[q], to, cur)
    {
    }
  }

  lemma SaveKeeps(w: World, r: Payouts.Request, w': World)
    requires Inv(w) && PayoutInvariants.Next(w.ledger, PayoutInvariants.Save(r), w'.ledger)
    requires if r.isInternal then w.found == Some((r.destination, r.currency)) && w'.found == None
             else w'.found == w.found
    ensures Inv(w')
  {
    var p, p' := w.ledger.ledger, w'.ledger.ledger;
    forall q, to, cur | q in p'.requests && Store.InProgress(p'.requests[q], to, cur)
      ensures (q in p.requests && p.requests[q] == p'.requests[q])
           || (q == p.nextId && r.isInternal && r.destination == to && r.currency == cur)
    {
    }
  }

  lemma NextKeeps(w: World, step: Step, w': World)
    requires Inv(w) && Next(w, step, w')
    ensures Inv(w')
  {
    match step
    case Other(s) =>
      if s.Save? { SaveKeeps(w, s.w, w'); } else { OtherCarries(w.ledger, s, w'.ledger); CarriedKeeps(w, w'); }
    case Look(to, currency) =>
    case SaveCold(r) => SaveKeeps(w, r, w');
    case Restart => CarriedKeeps(w, w');
  }

  /** On every run, with the look-up and the saving as separate steps and all other threads in between, a cold
      wallet has at most one request of a currency that is not processed. */
  lemma {:induction false} EveryRunAsksOnce(ws: seq<World>, steps: seq<Step>, n: nat)
    requires Run(ws, steps) && n < |ws|
    ensures Inv(ws[n])
    ensures OneAtATime(ws[n].ledger.ledger)
    decreases n
  {
    if n > 0 {
      EveryRunAsksOnce(ws, steps, n - 1);
      NextKeeps(ws[n - 1], steps[n - 1], ws[n]);
    }
  }
}
