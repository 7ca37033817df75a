/** Building one batch of hot wallet messages (core/withdrawal_processor.go, core/wallets.go). */
module Batch {
  import opened Prelude
  import opened Messages
  import Payouts

  datatype ServiceTask = ServiceTask(
    from: Address, jettonMaster: Option<Address>, jettonAmount: int, memo: Memo, subwalletId: nat)

  datatype SweepTask = SweepTask(from: Address, subwalletId: nat, lt: nat, currency: string)

  datatype ServiceUpdate = ServiceUpdate(tonAmount: int, filled: bool, task: ServiceTask)

  datatype Sweep = Sweep(memo: Memo, task: SweepTask)

  /** The service's configuration and what the node answers while the batch is built. */
  datatype View = View(
    hotWallet: Address,
    jettonHotWallets: map<string, Address>,
    sweepCutoff: map<string, int>,
    proxy: nat -> Address,
    jettonWallet: (Address, Address) -> Address,
    tonBalance: Address -> int,
    jettonBalance: Address -> int,
    memo: Address -> Memo)

  datatype BuildError = InvalidServiceAddress | NoJettonMaster

  type Balances = map<string, int>

  /** The most messages after which no task but a service task is added. */
  const BATCH_FULL: nat := 250

  // ---------------------------------------------------------------- messages

  function FillMessage(t: ServiceTask): Message
  {
    Message(t.from, JETTON_TRANSFER_TON, Plain(OfMemo(t.memo)))
  }

  function ProxyMessage(v: View, subwalletId: nat, inner: Message): Message
  {
    Message(v.proxy(subwalletId), JETTON_TRANSFER_TON, Forward(inner))
  }

  function SweepMsg(v: View, s: Sweep): Message
  {
    ProxyMessage(v, s.task.subwalletId,
                 Message(s.task.from, 0, Transfer(v.jettonBalance(s.task.from), v.hotWallet, OfMemo(s.memo))))
  }

  function PayMsg(v: View, t: Payouts.Task): Message
    requires t.currency == TON || t.currency in v.jettonHotWallets
  {
    if t.currency == TON then Message(t.destination, t.amount, Plain(Text("")))
    else Message(v.jettonHotWallets[t.currency], JETTON_TRANSFER_TON, Transfer(t.amount, t.destination, Text("")))
  }

  /** The message, if any, and the database update for a service task. */
  function BuildService(v: View, book: Book, t: ServiceTask): Result<(Option<Message>, ServiceUpdate), BuildError>
  {
    if IsKind(book, t.from, TonDeposit) then
      if t.jettonMaster.None? then Err(NoJettonMaster)
      else
        var balance := v.jettonBalance(v.jettonWallet(t.from, t.jettonMaster.value));
        if balance == 0 then Ok((None, ServiceUpdate(0, false, t)))
        else Ok((Some(FillMessage(t)), ServiceUpdate(0, true, t.(jettonAmount := balance))))
    else if IsKind(book, t.from, JettonOwner) then
      if t.jettonMaster.None? then
        var balance := v.tonBalance(v.proxy(t.subwalletId));
        var update := ServiceUpdate(balance, false, t);
        if balance == 0 then Ok((None, update))
        else Ok((Some(ProxyMessage(v, t.subwalletId, Message(v.hotWallet, 0, Plain(OfMemo(t.memo))))), update))
      else
        var wallet := v.jettonWallet(v.proxy(t.subwalletId), t.jettonMaster.value);
        var balance := v.jettonBalance(wallet);
        if wallet in book || balance == 0 then Ok((None, ServiceUpdate(0, false, t)))
        else
          var inner := Message(wallet, 0, Transfer(balance, v.hotWallet, OfMemo(t.memo)));
          Ok((Some(ProxyMessage(v, t.subwalletId, inner)), ServiceUpdate(0, false, t.(jettonAmount := balance))))
    else Err(InvalidServiceAddress)
  }

  // ---------------------------------------------------------------- balances

  predicate Short(b: Balances, currency: string, amount: int)
    requires TON in b && currency in b
  {
    if currency == TON then b[TON] < amount
    else b[currency] < amount || b[TON] < JETTON_TRANSFER_TON
  }

  function Spend(b: Balances, currency: string, amount: int): (b': Balances)
    requires TON in b && currency in b
  {
    if currency == TON then b[TON := b[TON] - amount]
    else b[currency := b[currency] - amount][TON := b[TON] - JETTON_TRANSFER_TON]
  }

  // ---------------------------------------------------------------- the batch as a fold over the tasks

  /** The batch under construction. `unused` counts the transfer fees reserved for tasks that then built no
      message; `rejected` holds the service updates already saved for such tasks. */
  datatype Build = Build(
    balances: Balances, messages: seq<Message>, used: seq<Address>,
    service: seq<ServiceUpdate>, sweeps: seq<Sweep>, payments: seq<Payouts.Task>,
    rejected: seq<ServiceUpdate>, unused: nat, error: Option<BuildError>)

  function Start(balances: Balances): Build
  {
    Build(balances, [], [], [], [], [], [], 0, None)
  }

  function AddService(v: View, book: Book, b: Build, t: ServiceTask): (b': Build)
    requires TON in b.balances
    ensures b'.balances.Keys == b.balances.Keys
  {
    if b.error.Some? || Short(b.balances, TON, JETTON_TRANSFER_TON) then b
    else
      var b1 := b.(balances := Spend(b.balances, TON, JETTON_TRANSFER_TON));
      match BuildService(v, book, t)
      case Err(e) => b1.(error := Some(e), unused := b.unused + 1)
      case Ok((Some(m), u)) => b1.(used := b.used + [t.from], messages := b.messages + [m], service := b.service + [u])
      case Ok((None, u)) => b1.(rejected := b.rejected + [u], unused := b.unused + 1)
  }

  function AddSweep(v: View, b: Build, t: SweepTask): (b': Build)
    requires TON in b.balances && t.currency in v.sweepCutoff
    ensures b'.balances.Keys == b.balances.Keys
  {
    if b.error.Some? || |b.messages| > BATCH_FULL || Short(b.balances, TON, JETTON_TRANSFER_TON) then b
    else
      var b1 := b.(balances := Spend(b.balances, TON, JETTON_TRANSFER_TON));
      if v.jettonBalance(t.from) > v.sweepCutoff[t.currency] then
        var s := Sweep(v.memo(t.from), t);
        b1.(messages := b.messages + [SweepMsg(v, s)], sweeps := b.sweeps + [s])
      else b1.(unused := b.unused + 1)
  }

  predicate Known(v: View, balances: Balances, t: Payouts.Task)
  {
    TON in balances && t.currency in balances && (t.currency == TON || t.currency in v.jettonHotWallets)
  }

  function AddPayment(v: View, book: Book, b: Build, t: Payouts.Task): (b': Build)
    requires Known(v, b.balances, t)
    ensures b'.balances.Keys == b.balances.Keys
  {
    if b.error.Some? || |b.messages| > BATCH_FULL || t.destination in book then b
    else if Short(b.balances, t.currency, t.amount) then b
    else
      b.(balances := Spend(b.balances, t.currency, t.amount),
         messages := b.messages + [PayMsg(v, t)], payments := b.payments + [t])
  }

  function AddServices(v: View, book: Book, b: Build, ts: seq<ServiceTask>): (b': Build)
    requires TON in b.balances
    ensures b'.balances.Keys == b.balances.Keys
    decreases |ts|
  {
    if ts == [] then b
    else AddService(v, book, AddServices(v, book, b, ts[..|ts| - 1]), ts[|ts| - 1])
  }

  function AddSweeps(v: View, b: Build, ts: seq<SweepTask>): (b': Build)
    requires TON in b.balances && forall t | t in ts :: t.currency in v.sweepCutoff
    ensures b'.balances.Keys == b.balances.Keys
    decreases |ts|
  {
    if ts == [] then b
    else AddSweep(v, AddSweeps(v, b, ts[..|ts| - 1]), ts[|ts| - 1])
  }

  function AddPayments(v: View, book: Book, b: Build, ts: seq<Payouts.Task>): (b': Build)
    requires forall t | t in ts :: Known(v, b.balances, t)
    ensures b'.balances.Keys == b.balances.Keys
    decreases |ts|
  {
    if ts == [] then b
    else
      assert Known(v, b.balances, ts[|ts| - 1]);
      AddPayment(v, book, AddPayments(v, book, b, ts[..|ts| - 1]), ts[|ts| - 1])
  }

  /** The tasks a build gets from the database. The jetton sweeps are selected after the service messages
      are built, and exclude the addresses those already use. */
  datatype Tasks = Tasks(service: seq<ServiceTask>, sweeps: seq<Address> -> seq<SweepTask>, payments: seq<Payouts.Task>)

  ghost predicate Configured(v: View, balances: Balances, ts: Tasks)
  {
    && TON in balances
    && (forall used, t | t in ts.sweeps(used) :: t.currency in v.sweepCutoff)
    && (forall t | t in ts.payments :: Known(v, balances, t))
  }

  ghost function Built(v: View, book: Book, balances: Balances, ts: Tasks): Build
    requires Configured(v, balances, ts)
  {
    var b1 := AddServices(v, book, Start(balances), ts.service);
    var b2 := AddSweeps(v, b1, ts.sweeps(b1.used));
    AddPayments(v, book, b2, ts.payments)
  }

  // ---------------------------------------------------------------- buildWithdrawalMessages

  /** The balance map and the result that buildWithdrawalMessages fills in. */
  class Builder {
    var balances: Balances
    var messages: seq<Message>
    var used: seq<Address>
    var service: seq<ServiceUpdate>
    var sweeps: seq<Sweep>
    var payments: seq<Payouts.Task>
    var rejected: seq<ServiceUpdate>
    ghost var unused: nat
    var error: Option<BuildError>

    constructor (balances: Balances)
      ensures State() == Start(balances)
    {
      this.balances := balances;
      messages, used, service, sweeps, payments, rejected := [], [], [], [], [], [];
      unused, error := 0, None;
    }

    ghost function State(): Build
      reads this
    {
      Build(balances, messages, used, service, sweeps, payments, rejected, unused, error)
    }

    /** decreaseBalances: true, and no change, when the balance does not suffice. */
    method DecreaseBalances(currency: string, amount: int) returns (short: bool)
      requires TON in balances && currency in balances
      modifies this`balances
      ensures short <==> Short(old(balances), currency, amount)
      ensures balances == if short then old(balances) else Spend(old(balances), currency, amount)
    {
      if currency == TON {
        if balances[TON] < amount { return true; }
        balances := balances[TON := balances[TON] - amount];
        return false;
      }
      if balances[currency] < amount || balances[TON] < JETTON_TRANSFER_TON { return true; }
      balances := balances[currency := balances[currency] - amount];
      balances := balances[TON := balances[TON] - JETTON_TRANSFER_TON];
      return false;
    }

    method ServiceMessage(v: View, book: Book, t: ServiceTask)
      requires TON in balances && error.None?
      modifies this
      ensures State() == AddService(v, book, old(State()), t)
    {
      var short := DecreaseBalances(TON, JETTON_TRANSFER_TON);
      if short { return; }
      match BuildService(v, book, t) {
        case Err(e) =>
          error, unused := Some(e), unused + 1;
        case Ok((Some(m), u)) =>
          used, messages, service := used + [t.from], messages + [m], service + [u];
        case Ok((None, u)) =>
          rejected, unused := rejected + [u], unused + 1;
      }
    }

    method ServiceMessages(v: View, book: Book, ts: seq<ServiceTask>)
      requires TON in balances && error.None?
      modifies this
      ensures State() == AddServices(v, book, old(State()), ts)
    {
      ghost var b := State();
      for i := 0 to |ts|
        invariant State() == AddServices(v, book, b, ts[..i]) && error.None?
      {
        assert ts[..i + 1][..i] == ts[..i];
        ServiceMessage(v, book, ts[i]);
        if error.Some? {
          ServicesStopOnError(v, book, b, ts, i + 1);
          return;
        }
      }
      assert ts[..|ts|] == ts;
    }

    method SweepMessages(v: View, ts: seq<SweepTask>)
      requires TON in balances && error.None? && forall t | t in ts :: t.currency in v.sweepCutoff
      modifies this
      ensures State() == AddSweeps(v, old(State()), ts) && error.None?
    {
      ghost var b := State();
      for i := 0 to |ts|
        invariant State() == AddSweeps(v, b, ts[..i]) && error.None?
      {
        if |messages| > BATCH_FULL {
          SweepsStopWhenFull(v, b, ts, i);
          return;
        }
        assert ts[..i + 1][..i] == ts[..i];
        var t := ts[i];
        var short := DecreaseBalances(TON, JETTON_TRANSFER_TON);
        if short { continue; }
        if v.jettonBalance(t.from) > v.sweepCutoff[t.currency] {
          var s := Sweep(v.memo(t.from), t);
          messages, sweeps := messages + [SweepMsg(v, s)], sweeps + [s];
        } else {
          unused := unused + 1;
        }
      }
      assert ts[..|ts|] == ts;
    }

    method PaymentMessages(v: View, book: Book, ts: seq<Payouts.Task>)
      requires error.None? && forall t | t in ts :: Known(v, balances, t)
      modifies this
      ensures State() == AddPayments(v, book, old(State()), ts)
    {
      ghost var b := State();
      for i := 0 to |ts|
        invariant State() == AddPayments(v, book, b, ts[..i]) && error.None?
      {
        if |messages| > BATCH_FULL {
          PaymentsStopWhenFull(v, book, b, ts, i);
          return;
        }
        assert ts[..i + 1][..i] == ts[..i];
        var t := ts[i];
        assert Known(v, b.balances, t);
        if t.destination in book { continue; }
        var short := DecreaseBalances(t.currency, t.amount);
        if short { continue; }
        messages, payments := messages + [PayMsg(v, t)], payments + [t];
      }
      assert ts[..|ts|] == ts;
    }

    /** buildWithdrawalMessages: the batch is abandoned when a service task is invalid. */
    method BuildWithdrawalMessages(v: View, book: Book, ts: Tasks)
      requires Configured(v, balances, ts) && State() == Start(balances)
      modifies this
      ensures State() == Built(v, book, old(balances), ts)
    {
      ServiceMessages(v, book, ts.service);
      if error.Some? {
        FailedStaysFailed(v, book, State(), ts);
        return;
      }
      SweepMessages(v, ts.sweeps(used));
      assert forall t | t in ts.payments :: Known(v, balances, t);
      PaymentMessages(v, book, ts.payments);
    }
  }

  lemma {:induction false} ServicesStopOnError(v: View, book: Book, b: Build, ts: seq<ServiceTask>, n: nat)
    requires TON in b.balances && n <= |ts| && AddServices(v, book, b, ts[..n]).error.Some?
    ensures AddServices(v, book, b, ts) == AddServices(v, book, b, ts[..n])
    decreases |ts| - n
  {
    if n < |ts| {
      assert ts[..n + 1][..n] == ts[..n];
      ServicesStopOnError(v, book, b, ts, n + 1);
    } else {
      assert ts[..n] == ts;
    }
  }

  lemma {:induction false} SweepsStopWhenFull(v: View, b: Build, ts: seq<SweepTask>, n: nat)
    requires TON in b.balances && n <= |ts| && forall t | t in ts :: t.currency in v.sweepCutoff
    requires var bn := AddSweeps(v, b, ts[..n]); bn.error.Some? || |bn.messages| > BATCH_FULL
    ensures AddSweeps(v, b, ts) == AddSweeps(v, b, ts[..n])
    decreases |ts| - n
  {
    if n < |ts| {
      assert ts[..n + 1][..n] == ts[..n];
      SweepsStopWhenFull(v, b, ts, n + 1);
    } else {
      assert ts[..n] == ts;
    }
  }

  lemma {:induction false} PaymentsStopWhenFull(v: View, book: Book, b: Build, ts: seq<Payouts.Task>, n: nat)
    requires n <= |ts| && forall t | t in ts :: Known(v, b.balances, t)
    requires var bn := AddPayments(v, book, b, ts[..n]); bn.error.Some? || |bn.messages| > BATCH_FULL
    ensures AddPayments(v, book, b, ts) == AddPayments(v, book, b, ts[..n])
    decreases |ts| - n
  {
    if n < |ts| {
      assert ts[..n + 1][..n] == ts[..n];
      PaymentsStopWhenFull(v, book, b, ts, n + 1);
    } else {
      assert ts[..n] == ts;
    }
  }

  lemma FailedStaysFailed(v: View, book: Book, b1: Build, ts: Tasks)
    requires b1.error.Some? && Configured(v, b1.balances, ts)
    ensures AddPayments(v, book, AddSweeps(v, b1, ts.sweeps(b1.used)), ts.payments) == b1
  {
    SweepsStopWhenFull(v, b1, ts.sweeps(b1.used), 0);
    PaymentsStopWhenFull(v, book, b1, ts.payments, 0);
  }
}
