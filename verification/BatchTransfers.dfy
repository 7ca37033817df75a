/** What the messages of a batch move: the jettons that leave the hot wallets, and what each service message and
    sweep carries. */
module BatchTransfers {
  import opened Prelude
  import opened Messages
  import opened Batch
  import opened BatchProperties
  import PayoutRequests
  import Payouts

  /** The jettons that the messages ask one jetton wallet of the service to transfer. */
  function Moved(ms: seq<Message>, wallet: Address): int
  {
    if ms == [] then 0
    else
      var m := ms[|ms| - 1];
      Moved(ms[..|ms| - 1], wallet) + if m.to == wallet && m.body.Transfer? then m.body.amount else 0
  }

  ghost predicate DifferentWallets(v: View)
  {
    forall c, d | c in v.jettonHotWallets && d in v.jettonHotWallets
                  && v.jettonHotWallets[c] == v.jettonHotWallets[d] :: c == d
  }

  /** Every jetton balance has fallen by what its hot wallet is asked to transfer. */
  ghost predicate JettonsConserved(initial: Balances, v: View, b: Build)
  {
    && TON in initial && b.balances.Keys == initial.Keys
    && forall c | c in initial && c != TON && c in v.jettonHotWallets ::
         initial[c] == b.balances[c] + Moved(b.messages, v.jettonHotWallets[c])
  }

  /** Service messages and sweeps are not transfers of a hot wallet. */
  lemma ServiceMovesNone(v: View, book: Book, t: ServiceTask)
    requires BuildService(v, book, t).Ok? && BuildService(v, book, t).value.0.Some?
    ensures !BuildService(v, book, t).value.0.value.body.Transfer?
  {
  }

  lemma AddServiceMoves(initial: Balances, v: View, book: Book, b: Build, t: ServiceTask)
    requires JettonsConserved(initial, v, b)
    ensures JettonsConserved(initial, v, AddService(v, book, b, t))
  {
    var b' := AddService(v, book, b, t);
    if b'.messages != b.messages {
      ServiceMovesNone(v, book, t);
      assert b'.messages[..|b'.messages| - 1] == b.messages;
    }
  }

  lemma AddSweepMoves(initial: Balances, v: View, b: Build, t: SweepTask)
    requires JettonsConserved(initial, v, b) && t.currency in v.sweepCutoff
    ensures JettonsConserved(initial, v, AddSweep(v, b, t))
  {
    var b' := AddSweep(v, b, t);
    if b'.messages != b.messages { assert b'.messages[..|b'.messages| - 1] == b.messages; }
  }

  lemma AddPaymentMoves(initial: Balances, v: View, book: Book, b: Build, t: Payouts.Task)
    requires JettonsConserved(initial, v, b) && Known(v, b.balances, t) && DifferentWallets(v)
    ensures JettonsConserved(initial, v, AddPayment(v, book, b, t))
  {
    var b' := AddPayment(v, book, b, t);
    if b'.messages != b.messages { assert b'.messages[..|b'.messages| - 1] == b.messages; }
  }

  lemma {:induction false} ServicesMove(initial: Balances, v: View, book: Book, b: Build, ts: seq<ServiceTask>)
    requires JettonsConserved(initial, v, b)
    ensures JettonsConserved(initial, v, AddServices(v, book, b, ts))
    decreases |ts|
  {
    if ts != [] {
      ServicesMove(initial, v, book, b, ts[..|ts| - 1]);
      AddServiceMoves(initial, v, book, AddServices(v, book, b, ts[..|ts| - 1]), ts[|ts| - 1]);
    }
  }

  lemma {:induction false} SweepsMove(initial: Balances, v: View, b: Build, ts: seq<SweepTask>)
    requires JettonsConserved(initial, v, b) && forall t | t in ts :: t.currency in v.sweepCutoff
    ensures JettonsConserved(initial, v, AddSweeps(v, b, ts))
    decreases |ts|
  {
    if ts != [] {
      SweepsMove(initial, v, b, ts[..|ts| - 1]);
      AddSweepMoves(initial, v, AddSweeps(v, b, ts[..|ts| - 1]), ts[|ts| - 1]);
    }
  }

  lemma {:induction false} PaymentsMove(initial: Balances, v: View, book: Book, b: Build, ts: seq<Payouts.Task>)
    requires JettonsConserved(initial, v, b) && DifferentWallets(v) && forall t | t in ts :: Known(v, b.balances, t)
    ensures JettonsConserved(initial, v, AddPayments(v, book, b, ts))
    decreases |ts|
  {
    if ts != [] {
      PaymentsMove(initial, v, book, b, ts[..|ts| - 1]);
      assert Known(v, b.balances, ts[|ts| - 1]);
      AddPaymentMoves(initial, v, book, AddPayments(v, book, b, ts[..|ts| - 1]), ts[|ts| - 1]);
    }
  }

  /** For any tasks: every jetton balance falls by exactly what the messages of the batch ask its hot wallet
      to transfer. */
  lemma BatchMovesWhatItSpends(v: View, book: Book, balances: Balances, ts: Tasks)
    requires Configured(v, balances, ts) && DifferentWallets(v)
    ensures JettonsConserved(balances, v, Built(v, book, balances, ts))
  {
    var b1 := AddServices(v, book, Start(balances), ts.service);
    ServicesMove(balances, v, book, Start(balances), ts.service);
    SweepsMove(balances, v, b1, ts.sweeps(b1.used));
    PaymentsMove(balances, v, book, AddSweeps(v, b1, ts.sweeps(b1.used)), ts.payments);
  }

  // ---------------------------------------------------------------- what a service message carries

  /** The memo under which a service message can be told from all others. */
  predicate Carries(m: Message, memo: Memo)
  {
    match m.body
    case Plain(c) => c == OfMemo(memo)
    case Forward(inner) =>
      || (inner.body.Plain? && inner.body.comment == OfMemo(memo))
      || (inner.body.Transfer? && inner.body.note == OfMemo(memo))
    case Transfer(_, _, _) => false
  }

  /** The jetton wallet that a service request is about, if it is about jettons. */
  function WalletOf(v: View, book: Book, t: ServiceTask): Option<Address>
  {
    if t.jettonMaster.None? then None
    else if IsKind(book, t.from, TonDeposit) then Some(v.jettonWallet(t.from, t.jettonMaster.value))
    else Some(v.jettonWallet(v.proxy(t.subwalletId), t.jettonMaster.value))
  }

  /** What goes back to the hot wallet by way of an owner contract. */
  predicate Returns(v: View, m: Message, wallet: Option<Address>, amount: int)
  {
    && m.value == JETTON_TRANSFER_TON && m.body.Forward? && m.body.inner.value == 0
    && match wallet
       case None => m.body.inner.to == v.hotWallet && m.body.inner.body.Plain?
       case Some(w) =>
         m.body.inner.to == w && m.body.inner.body.Transfer?
         && m.body.inner.body.destination == v.hotWallet && m.body.inner.body.amount == amount
  }

  /** There is something to move, and not in a wallet that the service uses itself. */
  predicate HasWork(v: View, book: Book, t: ServiceTask)
  {
    match WalletOf(v, book, t)
    case None => v.tonBalance(v.proxy(t.subwalletId)) != 0
    case Some(w) => v.jettonBalance(w) != 0 && (IsKind(book, t.from, JettonOwner) ==> w !in book)
  }

  /** A service request can be built unless its address is neither a TON deposit with a jetton master nor an owner
      contract. It gets a message if and only if there is something to move; what is recorded then is all that the
      wallet holds. A deposit is only filled now; an owner contract sends all of it to the hot wallet at once. */
  lemma ServiceMovesAll(v: View, book: Book, t: ServiceTask)
    ensures BuildService(v, book, t).Ok? <==>
              IsKind(book, t.from, JettonOwner) || (IsKind(book, t.from, TonDeposit) && t.jettonMaster.Some?)
    ensures BuildService(v, book, t).Ok? ==>
      var (m, u) := BuildService(v, book, t).value; var w := WalletOf(v, book, t);
      && (m.Some? <==> HasWork(v, book, t))
      && u.task == t.(jettonAmount := if m.Some? && w.Some? then v.jettonBalance(w.value) else t.jettonAmount)
      && u.tonAmount == (if w.None? then v.tonBalance(v.proxy(t.subwalletId)) else 0)
      && (u.filled <==> m.Some? && IsKind(book, t.from, TonDeposit))
      && (m.Some? ==>
            && Carries(m.value, t.memo)
            && if u.filled then m.value.to == t.from && m.value.value == JETTON_TRANSFER_TON && m.value.body.Plain?
               else m.value.to == v.proxy(t.subwalletId) && Returns(v, m.value, w, u.task.jettonAmount))
  {
  }

  // ---------------------------------------------------------------- what a sweep carries

  /** The sweep is of a balance above the cutoff. */
  ghost predicate WorthIt(v: View, b: Build)
  {
    forall s | s in b.sweeps ::
      s.task.currency in v.sweepCutoff && v.jettonBalance(s.task.from) > v.sweepCutoff[s.task.currency]
  }

  lemma {:induction false} SweepsAreWorthIt(v: View, b: Build, ts: seq<SweepTask>)
    requires TON in b.balances && (forall t | t in ts :: t.currency in v.sweepCutoff) && WorthIt(v, b)
    ensures WorthIt(v, AddSweeps(v, b, ts))
    decreases |ts|
  {
    if ts != [] { SweepsAreWorthIt(v, b, ts[..|ts| - 1]); }
  }

  lemma {:induction false} ServicesAddNoSweep(v: View, book: Book, b: Build, ts: seq<ServiceTask>)
    requires TON in b.balances
    ensures AddServices(v, book, b, ts).sweeps == b.sweeps
    decreases |ts|
  {
    if ts != [] { ServicesAddNoSweep(v, book, b, ts[..|ts| - 1]); }
  }

  lemma {:induction false} PaymentsAddNoSweep(v: View, book: Book, b: Build, ts: seq<Payouts.Task>)
    requires forall t | t in ts :: Known(v, b.balances, t)
    ensures AddPayments(v, book, b, ts).sweeps == b.sweeps
    decreases |ts|
  {
    if ts != [] { PaymentsAddNoSweep(v, book, b, ts[..|ts| - 1]); }
  }

  /** Every sweep in a batch is of a balance above the cutoff, and its message sends that whole balance to the hot
      wallet under the sweep's memo. */
  lemma SweepsMoveAll(v: View, book: Book, balances: Balances, ts: Tasks, i: nat)
    requires Configured(v, balances, ts) && |ts.service| <= BATCH_FULL
    requires var b := Built(v, book, balances, ts); |b.service| <= i < |b.service| + |b.sweeps|
    ensures var b := Built(v, book, balances, ts); var s := b.sweeps[i - |b.service|];
      && |b.messages| > i && WorthIt(v, b) && b.messages[i].to == v.proxy(s.task.subwalletId)
      && Carries(b.messages[i], s.memo) && Returns(v, b.messages[i], Some(s.task.from), v.jettonBalance(s.task.from))
  {
    BuildIsAligned(v, book, balances, ts);
    var b1 := AddServices(v, book, Start(balances), ts.service);
    ServicesAddNoSweep(v, book, Start(balances), ts.service);
    SweepsAreWorthIt(v, b1, ts.sweeps(b1.used));
    PaymentsAddNoSweep(v, book, AddSweeps(v, b1, ts.sweeps(b1.used)), ts.payments);
    assert MatchesTask(v, book, Built(v, book, balances, ts), i);
  }

  // ---------------------------------------------------------------- what a payment carries

  /** The message pays the request: TON by itself, jettons by way of the hot wallet of their currency. */
  predicate PaysRequest(v: View, m: Message, r: Payouts.Request)
  {
    if r.currency == TON then
      m.to == r.destination && m.value == r.amount && m.body == Plain(Text(""))
    else
      && r.currency in v.jettonHotWallets && m.to == v.jettonHotWallets[r.currency] && m.value == JETTON_TRANSFER_TON
      && m.body == Transfer(r.amount, r.destination, Text(""))
  }

  /** From the ledger to the batch: payment `i` is of a request nobody claimed yet, and its message moves exactly what
      that request asks for to where it asks for. */
  lemma PaymentsPayRequests(v: View, book: Book, balances: Balances, ts: Tasks, p: Payouts.Ledger, i: nat)
    requires Configured(v, balances, ts) && |ts.service| <= BATCH_FULL && Payouts.IsTaskList(p, ts.payments)
    requires i < |Built(v, book, balances, ts).payments|
    ensures var b := Built(v, book, balances, ts); var q := b.payments[i].queryId;
      && |b.messages| == |b.service| + |b.sweeps| + |b.payments|
      && q in p.requests && !p.requests[q].processing && p.requests[q].destination !in book
      && PaysRequest(v, b.messages[|b.service| + |b.sweeps| + i], p.requests[q])
  {
    BuildIsAligned(v, book, balances, ts);
    var b := Built(v, book, balances, ts);
    BuiltPaymentsAreTasks(v, book, balances, ts, b.payments[i]);
    PayoutRequests.TasksStateRequests(p, ts.payments);
    assert MatchesTask(v, book, b, |b.service| + |b.sweeps| + i);
  }

  lemma BuiltPaymentsAreTasks(v: View, book: Book, balances: Balances, ts: Tasks, t: Payouts.Task)
    requires Configured(v, balances, ts) && t in Built(v, book, balances, ts).payments
    ensures t in ts.payments && t.destination !in book
  {
    var b1 := AddServices(v, book, Start(balances), ts.service);
    ServicesAddNoPayment(v, book, Start(balances), ts.service);
    SweepsAddNoPayment(v, b1, ts.sweeps(b1.used));
    PaymentsAreTasks(v, book, AddSweeps(v, b1, ts.sweeps(b1.used)), ts.payments);
  }

  lemma {:induction false} ServicesAddNoPayment(v: View, book: Book, b: Build, ts: seq<ServiceTask>)
    requires TON in b.balances
    ensures AddServices(v, book, b, ts).payments == b.payments
    decreases |ts|
  {
    if ts != [] { ServicesAddNoPayment(v, book, b, ts[..|ts| - 1]); }
  }

  lemma {:induction false} SweepsAddNoPayment(v: View, b: Build, ts: seq<SweepTask>)
    requires TON in b.balances && forall t | t in ts :: t.currency in v.sweepCutoff
    ensures AddSweeps(v, b, ts).payments == b.payments
    decreases |ts|
  {
    if ts != [] { SweepsAddNoPayment(v, b, ts[..|ts| - 1]); }
  }

  lemma {:induction false} PaymentsAreTasks(v: View, book: Book, b: Build, ts: seq<Payouts.Task>)
    requires b.payments == [] && forall t | t in ts :: Known(v, b.balances, t)
    ensures forall t | t in AddPayments(v, book, b, ts).payments :: t in ts && t.destination !in book
    decreases |ts|
  {
    if ts != [] { PaymentsAreTasks(v, book, b, ts[..|ts| - 1]); }
  }
}
