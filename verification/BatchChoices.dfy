/** Which tasks get into a batch: each in its turn, if the batch has room and what is left of the balance suffices.
    Everything is said of the finished batch and the balances before it. */
module BatchChoices {
  import opened Prelude
  import opened Messages
  import opened Batch
  import opened BatchProperties
  import Payouts

  // ---------------------------------------------------------------- payments

  /** The TON left after the service messages, the sweeps and `n` payments. */
  function TonLeft(balances: Balances, b: Build, n: nat): int
    requires TON in balances && |b.service| + |b.sweeps| + n <= |b.messages|
  {
    balances[TON] - TotalValue(b.messages[..|b.service| + |b.sweeps| + n]) - JETTON_TRANSFER_TON * b.unused
  }

  /** What is left after `n` payments covers the payment: its amount, and the fee too if it is in jettons. */
  predicate Covers(balances: Balances, b: Build, n: nat, t: Payouts.Task)
    requires TON in balances && t.currency in balances
    requires |b.service| + |b.sweeps| + n <= |b.messages| && n <= |b.payments|
  {
    if t.currency == TON then t.amount <= TonLeft(balances, b, n)
    else
      && t.amount <= balances[t.currency] - Paid(b.payments[..n], t.currency)
      && JETTON_TRANSFER_TON <= TonLeft(balances, b, n)
  }

  /** A payment that comes up after `n` payments is made. */
  predicate MayPay(book: Book, balances: Balances, b: Build, n: nat, t: Payouts.Task)
    requires TON in balances && t.currency in balances
    requires |b.service| + |b.sweeps| + n <= |b.messages| && n <= |b.payments|
  {
    t.destination !in book && |b.service| + |b.sweeps| + n <= 250 && Covers(balances, b, n, t)
  }

  /** `at[k]` payments are made when task `k` comes up. */
  ghost predicate PaidInTurn(book: Book, balances: Balances, b: Build, ts: seq<Payouts.Task>, at: seq<nat>)
  {
    && TON in balances && (forall t | t in ts :: t.currency in balances)
    && |b.messages| == |b.service| + |b.sweeps| + |b.payments|
    && |at| == |ts| + 1 && at[0] == 0 && at[|ts|] == |b.payments|
    && forall k | 0 <= k < |ts| :: TakesTurn(book, balances, b, ts[k], at[k], at[k + 1])
  }

  predicate TakesTurn(book: Book, balances: Balances, b: Build, t: Payouts.Task, n: nat, n': nat)
    requires TON in balances && t.currency in balances && |b.messages| == |b.service| + |b.sweeps| + |b.payments|
  {
    && n <= |b.payments|
    && if MayPay(book, balances, b, n, t) then n' == n + 1 && n < |b.payments| && b.payments[n] == t else n' == n
  }

  /** The batch goes on with at most one more payment. */
  predicate GoesOn(b: Build, b': Build)
  {
    && b'.service == b.service && b'.sweeps == b.sweeps && b'.unused == b.unused
    && b.messages <= b'.messages && b.payments <= b'.payments
    && |b.messages| == |b.service| + |b.sweeps| + |b.payments|
    && |b'.messages| == |b'.service| + |b'.sweeps| + |b'.payments|
  }

  lemma EarlierTurns(book: Book, balances: Balances, b: Build, b': Build, t: Payouts.Task, n: nat, n': nat)
    requires GoesOn(b, b') && TON in balances && t.currency in balances && TakesTurn(book, balances, b, t, n, n')
    ensures TakesTurn(book, balances, b', t, n, n')
  {
    assert b'.messages[..|b.service| + |b.sweeps| + n] == b.messages[..|b.service| + |b.sweeps| + n];
    assert b'.payments[..n] == b.payments[..n];
  }

  lemma LastTurn(v: View, book: Book, balances: Balances, b: Build, t: Payouts.Task)
    requires Conserves(balances, b) && b.error.None? && Known(v, b.balances, t)
    requires |b.messages| == |b.service| + |b.sweeps| + |b.payments|
    ensures var b' := AddPayment(v, book, b, t);
      && GoesOn(b, b') && Conserves(balances, b') && b'.error.None?
      && TakesTurn(book, balances, b', t, |b.payments|, |b'.payments|)
  {
    var b' := AddPayment(v, book, b, t);
    AddPaymentConserves(balances, v, book, b, t);
    assert b'.messages[..|b.messages|] == b.messages == b.messages[..|b.messages|];
    assert b'.payments[..|b.payments|] == b.payments == b.payments[..|b.payments|];
  }

  lemma OneMoreTurn(book: Book, balances: Balances, b: Build, b': Build, ts: seq<Payouts.Task>, before: seq<nat>)
    requires ts != [] && PaidInTurn(book, balances, b, ts[..|ts| - 1], before) && GoesOn(b, b')
    requires ts[|ts| - 1].currency in balances
    requires TakesTurn(book, balances, b', ts[|ts| - 1], |b.payments|, |b'.payments|)
    ensures PaidInTurn(book, balances, b', ts, before + [|b'.payments|])
  {
    var init, at := ts[..|ts| - 1], before + [|b'.payments|];
    forall k | 0 <= k < |ts| ensures TakesTurn(book, balances, b', ts[k], at[k], at[k + 1]) {
      if k < |init| {
        assert TakesTurn(book, balances, b, init[k], before[k], before[k + 1]);
        EarlierTurns(book, balances, b, b', ts[k], at[k], at[k + 1]);
      }
    }
    forall t | t in ts ensures t.currency in balances { assert t in init || t == ts[|init|]; }
  }

  lemma {:induction false} PaymentsInTurn(v: View, book: Book, balances: Balances, b: Build, ts: seq<Payouts.Task>)
    returns (at: seq<nat>)
    requires Conserves(balances, b) && b.error.None? && b.payments == []
    requires |b.messages| == |b.service| + |b.sweeps| && forall t | t in ts :: Known(v, b.balances, t)
    ensures var b' := AddPayments(v, book, b, ts);
      GoesOn(b, b') && Conserves(balances, b') && b'.error.None? && PaidInTurn(book, balances, b', ts, at)
    decreases |ts|
  {
    if ts == [] {
      at := [0];
    } else {
      var init, t := ts[..|ts| - 1], ts[|ts| - 1];
      var before := PaymentsInTurn(v, book, balances, b, init);
      var b1 := AddPayments(v, book, b, init);
      assert Known(v, b.balances, t);
      LastTurn(v, book, balances, b1, t);
      var b' := AddPayment(v, book, b1, t);
      at := before + [|b'.payments|];
      OneMoreTurn(book, balances, b1, b', ts, before);
    }
  }

  // ---------------------------------------------------------------- service messages and sweeps

  /** How many tasks have got a message, and how many only a fee reserved. */
  datatype Mark = Mark(placed: nat, idle: nat)

  /** The TON left when this many fees are reserved. */
  function LeftAfter(balances: Balances, fees: nat): int
    requires TON in balances
  {
    balances[TON] - JETTON_TRANSFER_TON * fees
  }

  /** One service task: nothing without a fee; else its message, or its rejection. */
  predicate ServiceTurn(v: View, book: Book, balances: Balances, b: Build, t: ServiceTask, m: Mark, m': Mark)
    requires TON in balances
  {
    var r := BuildService(v, book, t);
    if LeftAfter(balances, m.placed + m.idle) < JETTON_TRANSFER_TON then m' == m
    else
      && r.Ok?
      && if r.value.0.Some?
         then m' == Mark(m.placed + 1, m.idle) && m.placed < |b.service| && b.service[m.placed] == r.value.1
         else m' == Mark(m.placed, m.idle + 1) && m.idle < |b.rejected| && b.rejected[m.idle] == r.value.1
  }

  ghost predicate ServedInTurn(
    v: View, book: Book, balances: Balances, b: Build, ts: seq<ServiceTask>, marks: seq<Mark>)
  {
    && TON in balances && |marks| == |ts| + 1
    && marks[0] == Mark(0, 0) && marks[|ts|] == Mark(|b.service|, |b.rejected|)
    && forall k | 0 <= k < |ts| :: ServiceTurn(v, book, balances, b, ts[k], marks[k], marks[k + 1])
  }

  /** One sweep: nothing without room or a fee; else its message, or nothing for a balance within the cutoff. */
  predicate SweepTurn(v: View, balances: Balances, b: Build, t: SweepTask, m: Mark, m': Mark)
    requires TON in balances && t.currency in v.sweepCutoff
  {
    if |b.service| + m.placed > 250
       || LeftAfter(balances, |b.service| + |b.rejected| + m.placed + m.idle) < JETTON_TRANSFER_TON then m' == m
    else if v.jettonBalance(t.from) > v.sweepCutoff[t.currency] then
      && m' == Mark(m.placed + 1, m.idle)
      && m.placed < |b.sweeps| && b.sweeps[m.placed].task == t && b.sweeps[m.placed].memo == v.memo(t.from)
    else m' == Mark(m.placed, m.idle + 1)
  }

  ghost predicate SweptInTurn(v: View, balances: Balances, b: Build, ts: seq<SweepTask>, marks: seq<Mark>)
  {
    && TON in balances && (forall t | t in ts :: t.currency in v.sweepCutoff)
    && |marks| == |ts| + 1 && marks[0] == Mark(0, 0)
    && marks[|ts|].placed == |b.sweeps| && |b.rejected| + marks[|ts|].idle == b.unused
    && forall k | 0 <= k < |ts| :: SweepTurn(v, balances, b, ts[k], marks[k], marks[k + 1])
  }

  /** A batch of service messages only. */
  ghost predicate OnlyServices(balances: Balances, b: Build)
  {
    && TON in balances && TON in b.balances && b.error.None? && b.sweeps == [] && b.payments == []
    && |b.messages| == |b.service| && b.unused == |b.rejected|
    && b.balances[TON] == LeftAfter(balances, |b.service| + |b.rejected|)
    && |b.used| == |b.service| && forall i | 0 <= i < |b.used| :: b.used[i] == b.service[i].task.from
  }

  lemma LastService(v: View, book: Book, balances: Balances, b: Build, t: ServiceTask)
    requires OnlyServices(balances, b) && AddService(v, book, b, t).error.None?
    ensures var b' := AddService(v, book, b, t);
      && OnlyServices(balances, b') && b.service <= b'.service && b.rejected <= b'.rejected
      && ServiceTurn(v, book, balances, b', t, Mark(|b.service|, |b.rejected|), Mark(|b'.service|, |b'.rejected|))
  {
    ServiceTaskKept(v, book, t);
  }

  lemma ServiceTaskKept(v: View, book: Book, t: ServiceTask)
    ensures BuildService(v, book, t).Ok? ==> BuildService(v, book, t).value.1.task.from == t.from
  {
  }

  lemma OneMoreService(v: View, book: Book, balances: Balances, b1: Build, b: Build, init: seq<ServiceTask>,
                       t: ServiceTask, before: seq<Mark>)
    requires ServedInTurn(v, book, balances, b1, init, before)
    requires b1.service <= b.service && b1.rejected <= b.rejected
    requires ServiceTurn(v, book, balances, b, t, Mark(|b1.service|, |b1.rejected|), Mark(|b.service|, |b.rejected|))
    ensures ServedInTurn(v, book, balances, b, init + [t], before + [Mark(|b.service|, |b.rejected|)])
  {
    var ts, marks := init + [t], before + [Mark(|b.service|, |b.rejected|)];
    forall k | 0 <= k < |ts| ensures ServiceTurn(v, book, balances, b, ts[k], marks[k], marks[k + 1]) {
      if k < |init| { assert ServiceTurn(v, book, balances, b1, init[k], before[k], before[k + 1]); }
    }
  }

  lemma {:induction false} ServicesInTurn(v: View, book: Book, balances: Balances, ts: seq<ServiceTask>)
    returns (marks: seq<Mark>)
    requires TON in balances && AddServices(v, book, Start(balances), ts).error.None?
    ensures var b := AddServices(v, book, Start(balances), ts);
      ServedInTurn(v, book, balances, b, ts, marks) && OnlyServices(balances, b)
    decreases |ts|
  {
    if ts == [] {
      marks := [Mark(0, 0)];
    } else {
      var init, t := ts[..|ts| - 1], ts[|ts| - 1];
      var before := ServicesInTurn(v, book, balances, init);
      var b1 := AddServices(v, book, Start(balances), init);
      LastService(v, book, balances, b1, t);
      var b := AddService(v, book, b1, t);
      marks := before + [Mark(|b.service|, |b.rejected|)];
      OneMoreService(v, book, balances, b1, b, init, t, before);
      assert ts == init + [t];
    }
  }

  /** A batch of service messages and sweeps, `start` being the service messages alone. */
  ghost predicate NoPayments(balances: Balances, start: Build, b: Build)
  {
    && TON in balances && TON in b.balances && b.error.None?
    && b.service == start.service && b.rejected == start.rejected && b.payments == start.payments
    && b.unused >= |b.rejected|
    && |b.messages| == |b.service| + |b.sweeps|
    && b.balances[TON] == LeftAfter(balances, |b.service| + |b.sweeps| + b.unused)
  }

  function MarkOf(b: Build): Mark
    requires b.unused >= |b.rejected|
  {
    Mark(|b.sweeps|, b.unused - |b.rejected|)
  }

  lemma LastSweep(v: View, balances: Balances, start: Build, b: Build, t: SweepTask)
    requires NoPayments(balances, start, b) && t.currency in v.sweepCutoff
    ensures var b' := AddSweep(v, b, t);
      && NoPayments(balances, start, b') && b.sweeps <= b'.sweeps
      && SweepTurn(v, balances, b', t, MarkOf(b), MarkOf(b'))
  {
  }

  lemma OneMoreSweep(v: View, balances: Balances, b1: Build, b: Build, init: seq<SweepTask>, t: SweepTask,
                     before: seq<Mark>)
    requires SweptInTurn(v, balances, b1, init, before) && t.currency in v.sweepCutoff
    requires b1.service == b.service && b1.rejected == b.rejected && b1.sweeps <= b.sweeps
    requires |b1.rejected| <= b1.unused && |b.rejected| <= b.unused
    requires SweepTurn(v, balances, b, t, MarkOf(b1), MarkOf(b))
    ensures SweptInTurn(v, balances, b, init + [t], before + [MarkOf(b)])
  {
    var ts, marks := init + [t], before + [MarkOf(b)];
    assert before[|init|] == MarkOf(b1);
    forall k | 0 <= k < |ts| ensures SweepTurn(v, balances, b, ts[k], marks[k], marks[k + 1]) {
      if k < |init| { assert SweepTurn(v, balances, b1, init[k], before[k], before[k + 1]); }
    }
  }

  lemma {:induction false} SweepsInTurn(v: View, balances: Balances, start: Build, ts: seq<SweepTask>)
    returns (marks: seq<Mark>)
    requires OnlyServices(balances, start) && forall t | t in ts :: t.currency in v.sweepCutoff
    ensures var b := AddSweeps(v, start, ts);
      SweptInTurn(v, balances, b, ts, marks) && NoPayments(balances, start, b)
    decreases |ts|
  {
    if ts == [] {
      marks := [Mark(0, 0)];
    } else {
      var init, t := ts[..|ts| - 1], ts[|ts| - 1];
      var before := SweepsInTurn(v, balances, start, init);
      var b1 := AddSweeps(v, start, init);
      LastSweep(v, balances, start, b1, t);
      var b := AddSweep(v, b1, t);
      marks := before + [MarkOf(b)];
      OneMoreSweep(v, balances, b1, b, init, t, before);
      assert ts == init + [t];
    }
  }

  // ---------------------------------------------------------------- the whole batch

  lemma {:induction false} PaymentsChangeNoOther(v: View, book: Book, b: Build, ts: seq<Payouts.Task>)
    requires forall t | t in ts :: Known(v, b.balances, t)
    ensures var b' := AddPayments(v, book, b, ts);
      && b'.service == b.service && b'.sweeps == b.sweeps && b'.rejected == b.rejected && b'.unused == b.unused
      && b'.used == b.used && b'.error == b.error
    decreases |ts|
  {
    if ts != [] { PaymentsChangeNoOther(v, book, b, ts[..|ts| - 1]); }
  }

  lemma {:induction false} SweepsChangeNoOther(v: View, b: Build, ts: seq<SweepTask>)
    requires TON in b.balances && forall t | t in ts :: t.currency in v.sweepCutoff
    ensures var b' := AddSweeps(v, b, ts);
      && b'.service == b.service && b'.rejected == b.rejected && b'.used == b.used && b'.error == b.error
    decreases |ts|
  {
    if ts != [] { SweepsChangeNoOther(v, b, ts[..|ts| - 1]); }
  }

  /** The three parts of a batch are chosen in turn, each list in its order. */
  ghost predicate ChosenInTurn(v: View, book: Book, balances: Balances, ts: Tasks, b: Build)
  {
    && (exists marks :: ServedInTurn(v, book, balances, b, ts.service, marks))
    && |b.used| == |b.service| && (forall i | 0 <= i < |b.used| :: b.used[i] == b.service[i].task.from)
    && (exists marks :: SweptInTurn(v, balances, b, ts.sweeps(b.used), marks))
    && (exists at :: PaidInTurn(book, balances, b, ts.payments, at))
  }

  /** Every task that has room, a fee and something to move gets into the batch, and no other. */
  lemma BatchIsChosenInTurn(v: View, book: Book, balances: Balances, ts: Tasks)
    requires Configured(v, balances, ts) && Built(v, book, balances, ts).error.None?
    ensures ChosenInTurn(v, book, balances, ts, Built(v, book, balances, ts))
  {
    var b1 := AddServices(v, book, Start(balances), ts.service);
    var b2 := AddSweeps(v, b1, ts.sweeps(b1.used));
    SweepsChangeNoOther(v, b1, ts.sweeps(b1.used));
    PaymentsChangeNoOther(v, book, b2, ts.payments);
    var served := ServicesInTurn(v, book, balances, ts.service);
    var swept := SweepsInTurn(v, balances, b1, ts.sweeps(b1.used));
    LaterParts(v, book, balances, ts, b1, b2, Built(v, book, balances, ts), served, swept);
    PaymentsAreChosenInTurn(v, book, balances, ts, b1, b2);
  }

  lemma PaymentsAreChosenInTurn(v: View, book: Book, balances: Balances, ts: Tasks, b1: Build, b2: Build)
    requires Configured(v, balances, ts)
    requires b1 == AddServices(v, book, Start(balances), ts.service) && b2 == AddSweeps(v, b1, ts.sweeps(b1.used))
    requires b2.error.None? && b2.payments == [] && |b2.messages| == |b2.service| + |b2.sweeps|
    ensures exists at :: PaidInTurn(book, balances, AddPayments(v, book, b2, ts.payments), ts.payments, at)
  {
    ServicesConserve(balances, v, book, Start(balances), ts.service);
    SweepsConserve(balances, v, b1, ts.sweeps(b1.used));
    var at := PaymentsInTurn(v, book, balances, b2, ts.payments);
  }

  /** What is added later changes nothing of the earlier parts. */
  lemma LaterParts(v: View, book: Book, balances: Balances, ts: Tasks, b1: Build, b2: Build, b: Build,
                   served: seq<Mark>, swept: seq<Mark>)
    requires ServedInTurn(v, book, balances, b1, ts.service, served)
    requires SweptInTurn(v, balances, b2, ts.sweeps(b1.used), swept)
    requires b1.service == b2.service == b.service && b1.rejected == b2.rejected == b.rejected
    requires b2.sweeps == b.sweeps && b2.unused == b.unused && b1.used == b.used
    ensures ServedInTurn(v, book, balances, b, ts.service, served)
    ensures SweptInTurn(v, balances, b, ts.sweeps(b.used), swept)
  {
    forall k | 0 <= k < |ts.service|
      ensures ServiceTurn(v, book, balances, b, ts.service[k], served[k], served[k + 1])
    {
      assert ServiceTurn(v, book, balances, b1, ts.service[k], served[k], served[k + 1]);
    }
    forall k | 0 <= k < |ts.sweeps(b.used)|
      ensures SweepTurn(v, balances, b, ts.sweeps(b.used)[k], swept[k], swept[k + 1])
    {
      assert SweepTurn(v, balances, b2, ts.sweeps(b1.used)[k], swept[k], swept[k + 1]);
    }
  }

  /** A batch is given up only for a service task that cannot be built. */
  lemma {:induction false} GivenUpOnlyForInvalid(v: View, book: Book, b: Build, ts: seq<ServiceTask>)
    requires TON in b.balances && b.error.None? && AddServices(v, book, b, ts).error.Some?
    ensures exists t :: t in ts && BuildService(v, book, t).Err?
    decreases |ts|
  {
    if ts != [] && AddServices(v, book, b, ts[..|ts| - 1]).error.Some? {
      GivenUpOnlyForInvalid(v, book, b, ts[..|ts| - 1]);
    }
  }

  /** After `n` payments the batch is full, or what is left does not cover this one. */
  ghost predicate NoRoom(balances: Balances, b: Build, n: nat, t: Payouts.Task)
  {
    && n <= |b.payments| && |b.service| + |b.sweeps| + n <= |b.messages| && TON in balances && t.currency in balances
    && (|b.service| + |b.sweeps| + n > 250 || !Covers(balances, b, n, t))
  }

  /** When a payment is left out: its destination is inside the service, or the batch was full or the balance too low
      when it came up. */
  lemma PaymentLeftOut(v: View, book: Book, balances: Balances, ts: Tasks, t: Payouts.Task)
    requires Configured(v, balances, ts) && Built(v, book, balances, ts).error.None? && t in ts.payments
    ensures var b := Built(v, book, balances, ts);
      || t in b.payments || t.destination in book
      || exists n: nat :: NoRoom(balances, b, n, t)
  {
    BatchIsChosenInTurn(v, book, balances, ts);
    var b := Built(v, book, balances, ts);
    var at :| PaidInTurn(book, balances, b, ts.payments, at);
    var k :| 0 <= k < |ts.payments| && ts.payments[k] == t;
    assert TakesTurn(book, balances, b, t, at[k], at[k + 1]);
    assert t !in b.payments && t.destination !in book ==> NoRoom(balances, b, at[k], t);
  }
}
