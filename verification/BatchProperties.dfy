/** What every batch satisfies: money is conserved, the size is bounded, every message belongs to exactly one
    task list, and no two messages have the same recipient. */
module BatchProperties {
  import opened Prelude
  import opened Messages
  import opened Batch
  import Payouts

  // ---------------------------------------------------------------- conservation

  /** The amount of a currency other than TON that the payments take. */
  function Paid(ts: seq<Payouts.Task>, currency: string): int
  {
    if ts == [] then 0
    else Paid(ts[..|ts| - 1], currency) + if ts[|ts| - 1].currency == currency then ts[|ts| - 1].amount else 0
  }

  ghost predicate Conserves(initial: Balances, b: Build)
  {
    && TON in initial && b.balances.Keys == initial.Keys
    && initial[TON] == b.balances[TON] + TotalValue(b.messages) + JETTON_TRANSFER_TON * b.unused
    && (forall c | c in initial && c != TON :: initial[c] == b.balances[c] + Paid(b.payments, c))
    && ((forall c | c in initial :: 0 <= initial[c]) ==> forall c | c in initial :: 0 <= b.balances[c])
  }

  /** What a service task or a sweep does to the money: it takes one transfer fee, for a message or for nothing. */
  predicate TakesFee(b: Build, b': Build)
  {
    && TON in b.balances && b.balances[TON] >= JETTON_TRANSFER_TON
    && b'.balances == b.balances[TON := b.balances[TON] - JETTON_TRANSFER_TON] && b'.payments == b.payments
    && ((b'.messages == b.messages && b'.unused == b.unused + 1)
        || (|b'.messages| == |b.messages| + 1 && b'.messages[..|b.messages|] == b.messages
            && b'.messages[|b.messages|].value == JETTON_TRANSFER_TON && b'.unused == b.unused))
  }

  lemma FeeConserves(initial: Balances, b: Build, b': Build)
    requires Conserves(initial, b) && TakesFee(b, b')
    ensures Conserves(initial, b')
  {
  }

  lemma ServiceValue(v: View, book: Book, t: ServiceTask)
    requires BuildService(v, book, t).Ok? && BuildService(v, book, t).value.0.Some?
    ensures BuildService(v, book, t).value.0.value.value == JETTON_TRANSFER_TON
  {
  }

  lemma AddServiceConserves(initial: Balances, v: View, book: Book, b: Build, t: ServiceTask)
    requires Conserves(initial, b)
    ensures Conserves(initial, AddService(v, book, b, t))
  {
    var b' := AddService(v, book, b, t);
    if b.error.None? && !Short(b.balances, TON, JETTON_TRANSFER_TON) {
      if BuildService(v, book, t).Ok? && BuildService(v, book, t).value.0.Some? { ServiceValue(v, book, t); }
      assert TakesFee(b, b');
      FeeConserves(initial, b, b');
    }
  }

  lemma AddSweepConserves(initial: Balances, v: View, b: Build, t: SweepTask)
    requires Conserves(initial, b) && t.currency in v.sweepCutoff
    ensures Conserves(initial, AddSweep(v, b, t))
  {
    var b' := AddSweep(v, b, t);
    if b' != b {
      assert TakesFee(b, b');
      FeeConserves(initial, b, b');
    }
  }

  lemma AddPaymentConserves(initial: Balances, v: View, book: Book, b: Build, t: Payouts.Task)
    requires Conserves(initial, b) && Known(v, b.balances, t)
    ensures Conserves(initial, AddPayment(v, book, b, t))
  {
    var b' := AddPayment(v, book, b, t);
    if b' != b {
      assert b'.messages[..|b.messages|] == b.messages && b'.messages[|b.messages|] == PayMsg(v, t);
      assert b'.payments[..|b.payments|] == b.payments && b'.payments[|b.payments|] == t;
    }
  }

  lemma {:induction false} ServicesConserve(initial: Balances, v: View, book: Book, b: Build, ts: seq<ServiceTask>)
    requires Conserves(initial, b)
    ensures Conserves(initial, AddServices(v, book, b, ts))
    decreases |ts|
  {
    if ts != [] {
      ServicesConserve(initial, v, book, b, ts[..|ts| - 1]);
      AddServiceConserves(initial, v, book, AddServices(v, book, b, ts[..|ts| - 1]), ts[|ts| - 1]);
    }
  }

  lemma {:induction false} SweepsConserve(initial: Balances, v: View, b: Build, ts: seq<SweepTask>)
    requires Conserves(initial, b) && forall t | t in ts :: t.currency in v.sweepCutoff
    ensures Conserves(initial, AddSweeps(v, b, ts))
    decreases |ts|
  {
    if ts != [] {
      SweepsConserve(initial, v, b, ts[..|ts| - 1]);
      AddSweepConserves(initial, v, AddSweeps(v, b, ts[..|ts| - 1]), ts[|ts| - 1]);
    }
  }

  lemma {:induction false} PaymentsConserve(initial: Balances, v: View, book: Book, b: Build, ts: seq<Payouts.Task>)
    requires Conserves(initial, b) && forall t | t in ts :: Known(v, b.balances, t)
    ensures Conserves(initial, AddPayments(v, book, b, ts))
    decreases |ts|
  {
    if ts != [] {
      PaymentsConserve(initial, v, book, b, ts[..|ts| - 1]);
      assert Known(v, b.balances, ts[|ts| - 1]);
      AddPaymentConserves(initial, v, book, AddPayments(v, book, b, ts[..|ts| - 1]), ts[|ts| - 1]);
    }
  }

  /** TON at the start is TON left plus the value of all messages plus one transfer fee for every reserved
      task that built no message; every jetton balance drops by exactly what the payments take of it; and
      balances that start non-negative stay so. */
  lemma BuildConserves(v: View, book: Book, balances: Balances, ts: Tasks)
    requires Configured(v, balances, ts)
    ensures Conserves(balances, Built(v, book, balances, ts))
  {
    var b1 := AddServices(v, book, Start(balances), ts.service);
    ServicesConserve(balances, v, book, Start(balances), ts.service);
    SweepsConserve(balances, v, b1, ts.sweeps(b1.used));
    PaymentsConserve(balances, v, book, AddSweeps(v, b1, ts.sweeps(b1.used)), ts.payments);
  }

  // ---------------------------------------------------------------- messages and task lists

  /** The message that was built for a saved service update. */
  ghost predicate ServedBy(v: View, book: Book, u: ServiceUpdate, m: Message)
  {
    var r := BuildService(v, book, u.task);
    r.Ok? && r.value.0 == Some(m) && r.value.1 == u
  }

  /** Message `i` of the batch is the one built for its task: the service messages come first, then the
      sweeps, then the payments. */
  ghost predicate MatchesTask(v: View, book: Book, b: Build, i: int)
    requires 0 <= i < |b.messages| == |b.service| + |b.sweeps| + |b.payments| && |b.used| == |b.service|
  {
    var n, k := |b.service|, |b.sweeps|;
    if i < n then ServedBy(v, book, b.service[i], b.messages[i]) && b.used[i] == b.service[i].task.from
    else if i < n + k then b.messages[i] == SweepMsg(v, b.sweeps[i - n])
    else
      var t := b.payments[i - n - k];
      (t.currency == TON || t.currency in v.jettonHotWallets) && b.messages[i] == PayMsg(v, t)
  }

  ghost predicate Aligned(v: View, book: Book, b: Build)
  {
    && |b.messages| == |b.service| + |b.sweeps| + |b.payments|
    && |b.used| == |b.service|
    && (forall i | 0 <= i < |b.messages| :: MatchesTask(v, book, b, i))
  }

  lemma AddServiceAligns(v: View, book: Book, b: Build, t: ServiceTask)
    requires TON in b.balances && Aligned(v, book, b) && b.sweeps == [] && b.payments == []
    ensures var b' := AddService(v, book, b, t);
      Aligned(v, book, b') && b'.sweeps == [] && b'.payments == [] && |b'.messages| <= |b.messages| + 1
  {
    var b' := AddService(v, book, b, t);
    forall i | 0 <= i < |b'.messages| ensures MatchesTask(v, book, b', i) {
      if i < |b.messages| { assert MatchesTask(v, book, b, i); }
    }
  }

  lemma AddSweepAligns(v: View, book: Book, b: Build, t: SweepTask)
    requires TON in b.balances && t.currency in v.sweepCutoff && Aligned(v, book, b) && b.payments == []
    requires |b.messages| <= BATCH_FULL + 1
    ensures var b' := AddSweep(v, b, t);
      && Aligned(v, book, b') && b'.payments == [] && b'.service == b.service && b'.used == b.used
      && |b'.messages| <= BATCH_FULL + 1
  {
    var b' := AddSweep(v, b, t);
    forall i | 0 <= i < |b'.messages| ensures MatchesTask(v, book, b', i) {
      if i < |b.messages| { assert MatchesTask(v, book, b, i); }
    }
  }

  lemma AddPaymentAligns(v: View, book: Book, b: Build, t: Payouts.Task)
    requires Known(v, b.balances, t) && Aligned(v, book, b) && |b.messages| <= BATCH_FULL + 1
    ensures var b' := AddPayment(v, book, b, t);
      && Aligned(v, book, b') && b'.service == b.service && b'.used == b.used && b'.sweeps == b.sweeps
      && |b'.messages| <= BATCH_FULL + 1
  {
    var b' := AddPayment(v, book, b, t);
    forall i | 0 <= i < |b'.messages| ensures MatchesTask(v, book, b', i) {
      if i < |b.messages| { assert MatchesTask(v, book, b, i); }
    }
  }

  lemma {:induction false} ServicesAlign(v: View, book: Book, b: Build, ts: seq<ServiceTask>)
    requires TON in b.balances && Aligned(v, book, b) && b.sweeps == [] && b.payments == []
    ensures var b' := AddServices(v, book, b, ts);
      && Aligned(v, book, b') && b'.sweeps == [] && b'.payments == []
      && |b'.messages| <= |b.messages| + |ts|
    decreases |ts|
  {
    if ts != [] {
      ServicesAlign(v, book, b, ts[..|ts| - 1]);
      AddServiceAligns(v, book, AddServices(v, book, b, ts[..|ts| - 1]), ts[|ts| - 1]);
    }
  }

  lemma {:induction false} SweepsAlign(v: View, book: Book, b: Build, ts: seq<SweepTask>)
    requires TON in b.balances && forall t | t in ts :: t.currency in v.sweepCutoff
    requires Aligned(v, book, b) && b.payments == [] && |b.messages| <= BATCH_FULL + 1
    ensures var b' := AddSweeps(v, b, ts);
      && Aligned(v, book, b') && b'.payments == [] && b'.service == b.service && b'.used == b.used
      && |b'.messages| <= BATCH_FULL + 1
    decreases |ts|
  {
    if ts != [] {
      SweepsAlign(v, book, b, ts[..|ts| - 1]);
      AddSweepAligns(v, book, AddSweeps(v, b, ts[..|ts| - 1]), ts[|ts| - 1]);
    }
  }

  lemma {:induction false} PaymentsAlign(v: View, book: Book, b: Build, ts: seq<Payouts.Task>)
    requires forall t | t in ts :: Known(v, b.balances, t)
    requires Aligned(v, book, b) && |b.messages| <= BATCH_FULL + 1
    ensures var b' := AddPayments(v, book, b, ts);
      && Aligned(v, book, b') && b'.service == b.service && b'.used == b.used && b'.sweeps == b.sweeps
      && |b'.messages| <= BATCH_FULL + 1
    decreases |ts|
  {
    if ts != [] {
      PaymentsAlign(v, book, b, ts[..|ts| - 1]);
      assert Known(v, b.balances, ts[|ts| - 1]);
      AddPaymentAligns(v, book, AddPayments(v, book, b, ts[..|ts| - 1]), ts[|ts| - 1]);
    }
  }

  /** At most 251 messages (the service query is limited to 250 tasks), each of exactly one task. */
  lemma BuildIsAligned(v: View, book: Book, balances: Balances, ts: Tasks)
    requires Configured(v, balances, ts) && |ts.service| <= BATCH_FULL
    ensures var b := Built(v, book, balances, ts); Aligned(v, book, b) && |b.messages| <= BATCH_FULL + 1
  {
    var b1 := AddServices(v, book, Start(balances), ts.service);
    ServicesAlign(v, book, Start(balances), ts.service);
    SweepsAlign(v, book, b1, ts.sweeps(b1.used));
    PaymentsAlign(v, book, AddSweeps(v, b1, ts.sweeps(b1.used)), ts.payments);
  }

  // ---------------------------------------------------------------- distinct recipients

  ghost predicate Proxied(v: View, book: Book, t: SweepTask)
  {
    IsKind(book, v.proxy(t.subwalletId), JettonOwner) && IsKind(book, t.from, JettonDeposit)
  }

  /** The hot wallets are in the address book. */
  ghost predicate HotWalletsKnown(v: View, book: Book)
  {
    && IsKind(book, v.hotWallet, TonHot)
    && forall c | c in v.jettonHotWallets :: IsKind(book, v.jettonHotWallets[c], JettonHot)
  }

  /** What the task queries and the wallet tables provide: one service task per address, one sweep per
      jetton deposit and none of an excluded owner, one payment per destination, and hot wallets and
      deposits that are in the address book. */
  ghost predicate WellSelected(v: View, book: Book, ts: Tasks)
  {
    && HotWalletsKnown(v, book)
    && (forall i, j | 0 <= i < j < |ts.service| :: ts.service[i].from != ts.service[j].from)
    && (forall t | t in ts.service && IsKind(book, t.from, JettonOwner) :: v.proxy(t.subwalletId) == t.from)
    && (forall used, t | t in ts.sweeps(used) :: Proxied(v, book, t) && v.proxy(t.subwalletId) !in used)
    && (forall used, i, j | 0 <= i < j < |ts.sweeps(used)| ::
          v.proxy(ts.sweeps(used)[i].subwalletId) != v.proxy(ts.sweeps(used)[j].subwalletId))
    && (forall i, j | 0 <= i < j < |ts.payments| :: ts.payments[i].destination != ts.payments[j].destination)
  }

  ghost predicate DistinctService(v: View, book: Book, b: Build, ts: seq<ServiceTask>)
  {
    && (forall i | 0 <= i < |b.service| ::
          && exists t :: t in ts && t.from == b.service[i].task.from && t.subwalletId == b.service[i].task.subwalletId)
    && (forall i, j | 0 <= i < j < |b.service| :: b.service[i].task.from != b.service[j].task.from)
  }

  lemma AddServiceDistinct(v: View, book: Book, b: Build, init: seq<ServiceTask>, t: ServiceTask)
    requires TON in b.balances && DistinctService(v, book, b, init) && forall x | x in init :: x.from != t.from
    ensures DistinctService(v, book, AddService(v, book, b, t), init + [t])
  {
    var b' := AddService(v, book, b, t);
    if b'.service != b.service {
      ServiceTaskKept(v, book, t);
      assert b'.service[..|b.service|] == b.service;
    }
    assert t in init + [t];
    forall x | x in init ensures x in init + [t] {}
  }

  lemma ServiceTaskKept(v: View, book: Book, t: ServiceTask)
    requires BuildService(v, book, t).Ok?
    ensures var u := BuildService(v, book, t).value.1; u.task.from == t.from && u.task.subwalletId == t.subwalletId
  {
  }

  lemma {:induction false} ServicesDistinct(v: View, book: Book, balances: Balances, ts: seq<ServiceTask>)
    requires TON in balances
    requires forall i, j | 0 <= i < j < |ts| :: ts[i].from != ts[j].from
    ensures DistinctService(v, book, AddServices(v, book, Start(balances), ts), ts)
    decreases |ts|
  {
    if ts != [] {
      var init, t := ts[..|ts| - 1], ts[|ts| - 1];
      ServicesDistinct(v, book, balances, init);
      AddServiceDistinct(v, book, AddServices(v, book, Start(balances), init), init, t);
      assert init + [t] == ts;
    }
  }

  ghost predicate DistinctSweeps(v: View, s: seq<Sweep>, ts: seq<SweepTask>)
  {
    && (forall x | x in s :: x.task in ts)
    && (forall i, j | 0 <= i < j < |s| :: v.proxy(s[i].task.subwalletId) != v.proxy(s[j].task.subwalletId))
  }

  lemma {:induction false} SweepsDistinct(v: View, b: Build, ts: seq<SweepTask>)
    requires TON in b.balances && b.sweeps == [] && forall t | t in ts :: t.currency in v.sweepCutoff
    requires forall i, j | 0 <= i < j < |ts| :: v.proxy(ts[i].subwalletId) != v.proxy(ts[j].subwalletId)
    ensures DistinctSweeps(v, AddSweeps(v, b, ts).sweeps, ts)
    decreases |ts|
  {
    if ts != [] {
      var init, t := ts[..|ts| - 1], ts[|ts| - 1];
      SweepsDistinct(v, b, init);
      var s, s' := AddSweeps(v, b, init).sweeps, AddSweeps(v, b, ts).sweeps;
      forall x | x in s ensures x.task in ts && v.proxy(x.task.subwalletId) != v.proxy(t.subwalletId) {
        var n :| 0 <= n < |init| && init[n] == x.task;
        assert ts[n] == x.task;
      }
      assert s' == s || (s' == s + [s'[|s|]] && s'[|s|].task == t);
      assert t in ts;
    }
  }

  ghost predicate DistinctPayments(book: Book, p: seq<Payouts.Task>, ts: seq<Payouts.Task>)
  {
    && (forall x | x in p :: x in ts && x.destination !in book)
    && (forall i, j | 0 <= i < j < |p| :: p[i].destination != p[j].destination)
  }

  lemma {:induction false} PaymentsDistinct(v: View, book: Book, b: Build, ts: seq<Payouts.Task>)
    requires b.payments == [] && forall t | t in ts :: Known(v, b.balances, t)
    requires forall i, j | 0 <= i < j < |ts| :: ts[i].destination != ts[j].destination
    ensures DistinctPayments(book, AddPayments(v, book, b, ts).payments, ts)
    decreases |ts|
  {
    if ts != [] {
      var init, t := ts[..|ts| - 1], ts[|ts| - 1];
      assert Known(v, b.balances, t);
      PaymentsDistinct(v, book, b, init);
      var p, p' := AddPayments(v, book, b, init).payments, AddPayments(v, book, b, ts).payments;
      forall x | x in p ensures x in ts && x.destination != t.destination {
        var n :| 0 <= n < |init| && init[n] == x;
        assert ts[n] == x;
      }
      assert p' == p || (p' == p + [t] && t.destination !in book);
      assert t in ts;
    }
  }

  /** The three parts of a batch have distinct recipients each: deposits and owners that the address book
      knows, not shared between the first two parts; then destinations the book does not know. */
  ghost predicate PartsDistinct(v: View, book: Book, b: Build)
  {
    && |b.used| == |b.service|
    && (forall i | 0 <= i < |b.service| ::
          && b.service[i].task.from in book
          && b.used[i] == b.service[i].task.from
          && (IsKind(book, b.service[i].task.from, JettonOwner) ==>
                v.proxy(b.service[i].task.subwalletId) == b.service[i].task.from))
    && (forall i, j | 0 <= i < j < |b.service| :: b.service[i].task.from != b.service[j].task.from)
    && (forall i | 0 <= i < |b.sweeps| ::
          Proxied(v, book, b.sweeps[i].task) && v.proxy(b.sweeps[i].task.subwalletId) !in b.used)
    && (forall i, j | 0 <= i < j < |b.sweeps| ::
          v.proxy(b.sweeps[i].task.subwalletId) != v.proxy(b.sweeps[j].task.subwalletId))
    && (forall i | 0 <= i < |b.payments| :: b.payments[i].destination !in book)
    && (forall i, j | 0 <= i < j < |b.payments| :: b.payments[i].destination != b.payments[j].destination)
  }

  lemma BuildIsDistinct(v: View, book: Book, balances: Balances, ts: Tasks)
    requires Configured(v, balances, ts) && |ts.service| <= BATCH_FULL && WellSelected(v, book, ts)
    ensures PartsDistinct(v, book, Built(v, book, balances, ts))
  {
    var b1 := AddServices(v, book, Start(balances), ts.service);
    var b2 := AddSweeps(v, b1, ts.sweeps(b1.used));
    var b := Built(v, book, balances, ts);
    ServicesAlign(v, book, Start(balances), ts.service);
    ServicesDistinct(v, book, balances, ts.service);
    SweepsAlign(v, book, b1, ts.sweeps(b1.used));
    SweepsDistinct(v, b1, ts.sweeps(b1.used));
    PaymentsAlign(v, book, b2, ts.payments);
    PaymentsDistinct(v, book, b2, ts.payments);
    forall i | 0 <= i < |b.service|
      ensures b.service[i].task.from in book && b.used[i] == b.service[i].task.from
      ensures IsKind(book, b.service[i].task.from, JettonOwner) ==>
                v.proxy(b.service[i].task.subwalletId) == b.service[i].task.from
    {
      assert MatchesTask(v, book, b1, i);
      var t :| t in ts.service && t.from == b.service[i].task.from && t.subwalletId == b.service[i].task.subwalletId;
    }
    forall i | 0 <= i < |b.sweeps|
      ensures Proxied(v, book, b.sweeps[i].task) && v.proxy(b.sweeps[i].task.subwalletId) !in b.used
    {
      assert b.sweeps[i] in b2.sweeps;
    }
  }

  /** Whose transfer message `i` is. */
  function RecipientOf(v: View, b: Build, i: int): Address
    requires 0 <= i < |b.service| + |b.sweeps| + |b.payments|
  {
    var n, k := |b.service|, |b.sweeps|;
    if i < n then b.service[i].task.from
    else if i < n + k then v.proxy(b.sweeps[i - n].task.subwalletId)
    else b.payments[i - n - k].destination
  }

  lemma RecipientIs(v: View, book: Book, b: Build, i: int)
    requires Aligned(v, book, b) && PartsDistinct(v, book, b) && 0 <= i < |b.messages|
    ensures Recipient(b.messages[i]) == RecipientOf(v, b, i)
    ensures RecipientOf(v, b, i) in book <==> i < |b.service| + |b.sweeps|
  {
    assert MatchesTask(v, book, b, i);
  }

  /** No two messages of a batch have the same recipient. */
  lemma RecipientsAreDistinct(v: View, book: Book, b: Build, i: int, j: int)
    requires Aligned(v, book, b) && PartsDistinct(v, book, b)
    requires 0 <= i < |b.messages| && 0 <= j < |b.messages| && i != j
    ensures Recipient(b.messages[i]) != Recipient(b.messages[j])
  {
    RecipientIs(v, book, b, i);
    RecipientIs(v, book, b, j);
  }
}
