/** Incomes of a jetton deposit: those its transfer notifications tell, and what its balance tells beyond
    them (core/block_scanner.go). */
module JettonIncome {
  import opened Prelude
  import opened Lists
  import opened Messages

  /** A transfer_notification of TEP-74. The sender is None when it is not a standard address. */
  datatype Notification = Notification(amount: int, sender: Option<Address>)

  datatype OutMsg =
    | External
    | Internal(src: Address, dst: Option<Address>, lt: nat, utime: nat, notification: Option<Notification>)

  datatype TransferIn = TransferIn(amount: int, destination: Option<Address>, memo: Comment)

  datatype InMsg =
    | Missing
    | NotInternal
    | InternalIn(dst: Address, lt: nat, utime: nat, transfer: Option<TransferIn>)

  datatype Tx = Tx(hash: Hash, lt: nat, now: nat, inMsg: InMsg, outs: seq<OutMsg>, success: bool)

  datatype Income = Income(utime: nat, lt: nat, from: Option<Address>, to: Address, amount: int, txHash: Hash)

  datatype Withdrawal = Withdrawal(utime: nat, lt: nat, from: Address, amount: int, memo: Comment, failed: bool)

  datatype ScanError = BadAddress | NoOwner | AnomalousDeposit

  // ---------------------------------------------------------------- one transaction

  datatype OutScan = OutScan(incomes: seq<Income>, known: int, unknown: bool)

  function OwnerOf(book: Book, a: Address): Option<Address>
  {
    if a in book then book[a].owner else None
  }

  function ScanOut(book: Book, tx: Tx, o: OutMsg): Result<OutScan, ScanError>
  {
    if o.External? || o.notification.None? then Ok(OutScan([], 0, true))
    else
      var n := o.notification.value;
      if n.sender.Some? && n.sender.value in book then Ok(OutScan([], 0, false))
      else if o.dst.None? then Err(BadAddress)
      else if OwnerOf(book, o.src).None? then Err(NoOwner)
      else if o.dst != OwnerOf(book, o.src) then Ok(OutScan([], 0, true))
      else Ok(OutScan([Income(o.utime, o.lt, n.sender, o.src, n.amount, tx.hash)], n.amount, false))
  }

  function ScanOuts(book: Book, tx: Tx, outs: seq<OutMsg>): Result<OutScan, ScanError>
    decreases |outs|
  {
    if outs == [] then Ok(OutScan([], 0, false))
    else
      var init :- ScanOuts(book, tx, outs[..|outs| - 1]);
      var last :- ScanOut(book, tx, outs[|outs| - 1]);
      Ok(OutScan(init.incomes + last.incomes, init.known + last.known, init.unknown || last.unknown))
  }

  datatype InScan = InScan(withdrawals: seq<Withdrawal>, total: int, unknown: bool)

  /** processJettonDepositInMsg */
  function ScanIn(book: Book, tx: Tx): Result<InScan, ScanError>
  {
    if !tx.inMsg.InternalIn? || tx.inMsg.transfer.None? then Ok(InScan([], 0, true))
    else
      var m, t := tx.inMsg, tx.inMsg.transfer.value;
      if !tx.success then Ok(InScan([Withdrawal(m.utime, m.lt, m.dst, t.amount, t.memo, true)], 0, false))
      else if |tx.outs| < 1 then Err(AnomalousDeposit)
      else if t.destination.None? || !IsKind(book, t.destination.value, TonHot) then Ok(InScan([], t.amount, false))
      else Ok(InScan([Withdrawal(m.utime, m.lt, m.dst, t.amount, t.memo, false)], t.amount, false))
  }

  // ---------------------------------------------------------------- one block

  /** What the transactions of one deposit in one block add up to. */
  datatype Totals = Totals(
    incomes: seq<Income>, withdrawals: seq<Withdrawal>, known: int, withdrawn: int, unknownTxs: seq<Tx>)

  function ScanTxs(book: Book, txs: seq<Tx>): Result<Totals, ScanError>
    decreases |txs|
  {
    if txs == [] then Ok(Totals([], [], 0, 0, []))
    else
      var t :- ScanTxs(book, txs[..|txs| - 1]);
      AddTx(book, t, txs[|txs| - 1])
  }

  function AddTx(book: Book, t: Totals, tx: Tx): Result<Totals, ScanError>
  {
    var o :- ScanOuts(book, tx, tx.outs);
    var i :- ScanIn(book, tx);
    Ok(Totals(t.incomes + o.incomes, t.withdrawals + i.withdrawals, t.known + o.known, t.withdrawn + i.total,
              if o.unknown || i.unknown then t.unknownTxs + [tx] else t.unknownTxs))
  }

  /** calculateJettonAmounts: the part of the balance change that no notification explains. */
  function Unexplained(t: Totals, before: int, after: int): int
  {
    after - before + t.withdrawn - t.known
  }

  function ZeroIncome(tx: Tx, deposit: Address): Income
  {
    Income(tx.now, tx.lt, None, deposit, 0, tx.hash)
  }

  /** convertUnknownJettonTxs: a zero income for each transaction, then the amount on the first of them. */
  method ConvertUnknownTxs(txs: seq<Tx>, deposit: Address, amount: int) returns (incomes: seq<Income>)
    ensures incomes == UnknownIncomes(txs, deposit, amount)
  {
    incomes := [];
    for i := 0 to |txs|
      invariant incomes == seq(i, j requires 0 <= j < i => ZeroIncome(txs[j], deposit))
    {
      incomes := incomes + [ZeroIncome(txs[i], deposit)];
    }
    if |txs| > 0 {
      incomes := incomes + [ZeroIncome(txs[0], deposit).(amount := amount)];
    }
  }

  function UnknownIncomes(txs: seq<Tx>, deposit: Address, amount: int): seq<Income>
  {
    seq(|txs|, j requires 0 <= j < |txs| => ZeroIncome(txs[j], deposit))
    + if |txs| > 0 then [ZeroIncome(txs[0], deposit).(amount := amount)] else []
  }

  function BlockIncomes(t: Totals, deposit: Address, before: int, after: int): seq<Income>
  {
    var u := Unexplained(t, before, after);
    if u > 0 then t.incomes + UnknownIncomes(t.unknownTxs, deposit, u) else t.incomes
  }

  /** One turn of the loop of processJettonDepositOutMsgs, in the order of its checks. */
  method ProcessOutMsg(book: Book, tx: Tx, o: OutMsg) returns (r: Result<OutScan, ScanError>)
    ensures r == ScanOut(book, tx, o)
  {
    if o.External? { return Ok(OutScan([], 0, true)); }
    if o.notification.None? { return Ok(OutScan([], 0, true)); }
    var notify := o.notification.value;
    if notify.sender.Some? {
      if notify.sender.value in book { return Ok(OutScan([], 0, false)); }
    }
    if o.dst.None? { return Err(BadAddress); }
    var owner := if o.src in book then book[o.src].owner else None;
    if owner.None? { return Err(NoOwner); }
    if o.dst.value != owner.value { return Ok(OutScan([], 0, true)); }
    var income := Income(o.utime, o.lt, notify.sender, o.src, notify.amount, tx.hash);
    r := Ok(OutScan([income], notify.amount, false));
  }

  /** processJettonDepositInMsg, in the order of its checks. */
  method ProcessInMsg(book: Book, tx: Tx) returns (r: Result<InScan, ScanError>)
    ensures r == ScanIn(book, tx)
  {
    if tx.inMsg.Missing? { return Ok(InScan([], 0, true)); }
    if tx.inMsg.NotInternal? { return Ok(InScan([], 0, true)); }
    var m := tx.inMsg;
    if m.transfer.None? { return Ok(InScan([], 0, true)); }
    var transfer := m.transfer.value;
    if !tx.success {
      return Ok(InScan([Withdrawal(m.utime, m.lt, m.dst, transfer.amount, transfer.memo, true)], 0, false));
    }
    if |tx.outs| < 1 { return Err(AnomalousDeposit); }
    var total := transfer.amount;
    var to := transfer.destination;
    if to.None? || to.value !in book || book[to.value].kind != TonHot {
      return Ok(InScan([], total, false));
    }
    r := Ok(InScan([Withdrawal(m.utime, m.lt, m.dst, transfer.amount, transfer.memo, false)], total, false));
  }

  /** processJettonDepositOutMsgs */
  method ProcessOutMsgs(book: Book, tx: Tx) returns (r: Result<OutScan, ScanError>)
    ensures r == ScanOuts(book, tx, tx.outs)
  {
    var incomes: seq<Income>, known, unknown := [], 0, false;
    for i := 0 to |tx.outs|
      invariant ScanOuts(book, tx, tx.outs[..i]) == Ok(OutScan(incomes, known, unknown))
    {
      assert tx.outs[..i + 1][..i] == tx.outs[..i];
      var o := ProcessOutMsg(book, tx, tx.outs[i]);
      if o.Err? {
        OutsStopOnError(book, tx, tx.outs, i + 1);
        return Err(o.error);
      }
      incomes, known, unknown := incomes + o.value.incomes, known + o.value.known, unknown || o.value.unknown;
    }
    assert tx.outs[..|tx.outs|] == tx.outs;
    r := Ok(OutScan(incomes, known, unknown));
  }

  /** processJettonDepositWalletTXs, with the balances of the deposit before and after the block. */
  method ProcessDepositTxs(book: Book, deposit: Address, txs: seq<Tx>, before: int, after: int)
    returns (r: Result<(seq<Income>, seq<Withdrawal>), ScanError>)
    ensures r.Err? <==> ScanTxs(book, txs).Err?
    ensures r.Ok? ==> var t := ScanTxs(book, txs).value;
      r.value == (BlockIncomes(t, deposit, before, after), t.withdrawals)
  {
    var totals := ProcessTxs(book, txs);
    if totals.Err? { return Err(totals.error); }
    var t := totals.value;
    var incomes := t.incomes;
    var unexplained := after - before + t.withdrawn - t.known;
    if unexplained > 0 {
      var more := ConvertUnknownTxs(t.unknownTxs, deposit, unexplained);
      incomes := incomes + more;
    }
    r := Ok((incomes, t.withdrawals));
  }

  /** The loop over the transactions of the deposit. */
  method ProcessTxs(book: Book, txs: seq<Tx>) returns (r: Result<Totals, ScanError>)
    ensures r == ScanTxs(book, txs)
  {
    var t := Totals([], [], 0, 0, []);
    for i := 0 to |txs|
      invariant ScanTxs(book, txs[..i]) == Ok(t)
    {
      assert txs[..i + 1][..i] == txs[..i];
      r := ProcessTx(book, t, txs[i]);
      if r.Err? {
        TxsStopOnError(book, txs, i + 1);
        return;
      }
      t := r.value;
    }
    assert txs[..|txs|] == txs;
    r := Ok(t);
  }

  /** One turn of the loop: the messages sent, then the one received. */
  method ProcessTx(book: Book, t: Totals, tx: Tx) returns (r: Result<Totals, ScanError>)
    ensures r == AddTx(book, t, tx)
  {
    var o := ProcessOutMsgs(book, tx);
    if o.Err? { return Err(o.error); }
    var incomes, known := t.incomes + o.value.incomes, t.known + o.value.known;
    var n := ProcessInMsg(book, tx);
    if n.Err? { return Err(n.error); }
    var unknownTxs := t.unknownTxs;
    if o.value.unknown || n.value.unknown { unknownTxs := unknownTxs + [tx]; }
    r := Ok(Totals(incomes, t.withdrawals + n.value.withdrawals, known, t.withdrawn + n.value.total, unknownTxs));
  }

  lemma {:induction false} OutsStopOnError(book: Book, tx: Tx, outs: seq<OutMsg>, n: nat)
    requires n <= |outs| && ScanOuts(book, tx, outs[..n]).Err?
    ensures ScanOuts(book, tx, outs) == ScanOuts(book, tx, outs[..n])
    decreases |outs| - n
  {
    if n < |outs| {
      assert outs[..n + 1][..n] == outs[..n];
      OutsStopOnError(book, tx, outs, n + 1);
    } else {
      assert outs[..n] == outs;
    }
  }

  lemma {:induction false} TxsStopOnError(book: Book, txs: seq<Tx>, n: nat)
    requires n <= |txs| && ScanTxs(book, txs[..n]).Err?
    ensures ScanTxs(book, txs) == ScanTxs(book, txs[..n])
    decreases |txs| - n
  {
    if n < |txs| {
      assert txs[..n + 1][..n] == txs[..n];
      TxsStopOnError(book, txs, n + 1);
    } else {
      assert txs[..n] == txs;
    }
  }

  // ---------------------------------------------------------------- what is recorded

  function Amount(incomes: seq<Income>): int
  {
    if incomes == [] then 0 else Amount(incomes[..|incomes| - 1]) + incomes[|incomes| - 1].amount
  }

  lemma {:induction false} AmountOfTwo(a: seq<Income>, b: seq<Income>)
    ensures Amount(a + b) == Amount(a) + Amount(b)
    decreases |b|
  {
    if b == [] {
      assert a + b == a;
    } else {
      var n := |b| - 1;
      assert (a + b)[..|a + b| - 1] == a + b[..n];
      AmountOfTwo(a, b[..n]);
    }
  }

  lemma {:induction false} KnownOuts(book: Book, tx: Tx, outs: seq<OutMsg>)
    requires ScanOuts(book, tx, outs).Ok?
    ensures Amount(ScanOuts(book, tx, outs).value.incomes) == ScanOuts(book, tx, outs).value.known
    decreases |outs|
  {
    if outs != [] {
      var n := |outs| - 1;
      KnownOuts(book, tx, outs[..n]);
      AmountOfTwo(ScanOuts(book, tx, outs[..n]).value.incomes, ScanOut(book, tx, outs[n]).value.incomes);
    }
  }

  predicate Outside(book: Book, sender: Option<Address>)
  {
    sender.Some? ==> sender.value !in book
  }

  /** A notification to the owner of the wallet, from outside the service. */
  predicate Notifies(book: Book, o: OutMsg)
  {
    && o.Internal? && o.notification.Some? && Outside(book, o.notification.value.sender)
    && o.dst.Some? && OwnerOf(book, o.src) == o.dst
  }

  /** A message that may hide a change of the balance: not a notification, or one to somebody else. */
  predicate Hides(book: Book, o: OutMsg)
  {
    || o.External? || o.notification.None?
    || (Outside(book, o.notification.value.sender) && OwnerOf(book, o.src) != o.dst)
  }

  function Notified(book: Book, outs: seq<OutMsg>): int
  {
    if outs == [] then 0
    else
      var o := outs[|outs| - 1];
      Notified(book, outs[..|outs| - 1]) + if Notifies(book, o) then o.notification.value.amount else 0
  }

  /** The known amount is what the notifications to the owner from outside add up to; and the transaction counts as
      unknown exactly when one of its messages hides something. */
  lemma {:induction false} KnownIsNotified(book: Book, tx: Tx, outs: seq<OutMsg>)
    requires ScanOuts(book, tx, outs).Ok?
    ensures ScanOuts(book, tx, outs).value.known == Notified(book, outs)
    ensures ScanOuts(book, tx, outs).value.unknown <==> exists o :: o in outs && Hides(book, o)
    decreases |outs|
  {
    if outs != [] {
      var init, last := outs[..|outs| - 1], outs[|outs| - 1];
      KnownIsNotified(book, tx, init);
      assert ScanOut(book, tx, last).value.unknown <==> Hides(book, last);
      assert last in outs && forall o | o in init :: o in outs;
      assert forall o | o in outs :: o in init || o == last;
    }
  }

  lemma {:induction false} KnownTxs(book: Book, txs: seq<Tx>)
    requires ScanTxs(book, txs).Ok?
    ensures Amount(ScanTxs(book, txs).value.incomes) == ScanTxs(book, txs).value.known
    decreases |txs|
  {
    if txs != [] {
      var n := |txs| - 1;
      KnownTxs(book, txs[..n]);
      KnownOuts(book, txs[n], txs[n].outs);
      AmountOfTwo(ScanTxs(book, txs[..n]).value.incomes, ScanOuts(book, txs[n], txs[n].outs).value.incomes);
    }
  }

  lemma {:induction false} ZerosAddNothing(incomes: seq<Income>)
    requires forall i | 0 <= i < |incomes| :: incomes[i].amount == 0
    ensures Amount(incomes) == 0
    decreases |incomes|
  {
    if incomes != [] { ZerosAddNothing(incomes[..|incomes| - 1]); }
  }

  lemma UnknownAmount(txs: seq<Tx>, deposit: Address, amount: int)
    ensures Amount(UnknownIncomes(txs, deposit, amount)) == if txs == [] then 0 else amount
  {
    var zeros := seq(|txs|, j requires 0 <= j < |txs| => ZeroIncome(txs[j], deposit));
    ZerosAddNothing(zeros);
    if txs != [] {
      var first := [ZeroIncome(txs[0], deposit).(amount := amount)];
      AmountOfTwo(zeros, first);
      assert first[..0] == [];
    } else {
      assert UnknownIncomes(txs, deposit, amount) == [];
    }
  }

  // ---------------------------------------------------------------- the events of a block, one by one

  /** The deposit was asked for a transfer that failed, or that succeeded and went to the hot wallet. */
  function IsEnd(book: Book): Tx -> bool
  {
    (tx: Tx) =>
      && tx.inMsg.InternalIn? && tx.inMsg.transfer.Some?
      && (tx.success ==> tx.inMsg.transfer.value.destination.Some?
                         && IsKind(book, tx.inMsg.transfer.value.destination.value, TonHot))
  }

  predicate TellsEnd(w: Withdrawal, tx: Tx)
  {
    && tx.inMsg.InternalIn? && tx.inMsg.transfer.Some?
    && w.utime == tx.inMsg.utime && w.lt == tx.inMsg.lt && w.from == tx.inMsg.dst
    && w.amount == tx.inMsg.transfer.value.amount && w.memo == tx.inMsg.transfer.value.memo
    && (w.failed <==> !tx.success)
  }

  /** The withdrawals are, in order, exactly one for each end of a sweep, with its fields. */
  ghost predicate TellsEnds(book: Book, txs: seq<Tx>, ws: seq<Withdrawal>)
  {
    var ends := Where(txs, IsEnd(book));
    |ws| == |ends| && forall i | 0 <= i < |ws| :: TellsEnd(ws[i], ends[i])
  }

  /** The outgoing messages of a transaction, each with it. */
  function OutsOf(tx: Tx, outs: seq<OutMsg>): seq<(Tx, OutMsg)>
  {
    seq(|outs|, i requires 0 <= i < |outs| => (tx, outs[i]))
  }

  function AllOuts(txs: seq<Tx>): seq<(Tx, OutMsg)>
  {
    if txs == [] then [] else AllOuts(txs[..|txs| - 1]) + OutsOf(txs[|txs| - 1], txs[|txs| - 1].outs)
  }

  function IsTold(book: Book): ((Tx, OutMsg)) -> bool { (x: (Tx, OutMsg)) => Notifies(book, x.1) }

  predicate TellsIncome(i: Income, tx: Tx, o: OutMsg)
  {
    && o.Internal? && o.notification.Some?
    && i.utime == o.utime && i.lt == o.lt && i.from == o.notification.value.sender && i.to == o.src
    && i.amount == o.notification.value.amount && i.txHash == tx.hash
  }

  /** The incomes are, in order, exactly one for each notification to the owner from outside, with its fields. */
  ghost predicate TellsIncomes(book: Book, outs: seq<(Tx, OutMsg)>, incomes: seq<Income>)
  {
    var told := Where(outs, IsTold(book));
    |incomes| == |told| && forall i | 0 <= i < |incomes| :: TellsIncome(incomes[i], told[i].0, told[i].1)
  }

  /** A transaction that may hide a change of the balance: in what it sends, or in what it was asked for. */
  predicate Opaque(book: Book, tx: Tx)
  {
    (exists o | o in tx.outs :: Hides(book, o)) || !tx.inMsg.InternalIn? || tx.inMsg.transfer.None?
  }

  function IsOpaque(book: Book): Tx -> bool { (tx: Tx) => Opaque(book, tx) }

  /** The scanner can make sense of the message: it needs the recipient and the owner of a notification from outside. */
  predicate ReadableOut(book: Book, o: OutMsg)
  {
    o.Internal? && o.notification.Some? && Outside(book, o.notification.value.sender) ==>
      o.dst.Some? && OwnerOf(book, o.src).Some?
  }

  /** And a transfer that succeeded sends something. */
  predicate Readable(book: Book, tx: Tx)
  {
    && (forall o | o in tx.outs :: ReadableOut(book, o))
    && (tx.inMsg.InternalIn? && tx.inMsg.transfer.Some? && tx.success ==> tx.outs != [])
  }

  lemma {:induction false} OutsReadable(book: Book, tx: Tx, outs: seq<OutMsg>)
    ensures ScanOuts(book, tx, outs).Ok? <==> forall o | o in outs :: ReadableOut(book, o)
    decreases |outs|
  {
    if outs != [] {
      OutsReadable(book, tx, outs[..|outs| - 1]);
      assert forall o :: o in outs <==> o in outs[..|outs| - 1] || o == outs[|outs| - 1];
      assert ScanOut(book, tx, outs[|outs| - 1]).Ok? <==> ReadableOut(book, outs[|outs| - 1]);
    }
  }

  lemma {:induction false} OutsTell(book: Book, tx: Tx, outs: seq<OutMsg>)
    requires ScanOuts(book, tx, outs).Ok?
    ensures TellsIncomes(book, OutsOf(tx, outs), ScanOuts(book, tx, outs).value.incomes)
    decreases |outs|
  {
    if outs != [] {
      var init, last := outs[..|outs| - 1], outs[|outs| - 1];
      OutsTell(book, tx, init);
      assert OutsOf(tx, outs) == OutsOf(tx, init) + [(tx, last)];
      assert [(tx, last)][..0] == [];
      TellsMore(book, OutsOf(tx, init), ScanOuts(book, tx, init).value.incomes,
                [(tx, last)], ScanOut(book, tx, last).value.incomes);
    }
  }

  lemma TellsMore(book: Book, a: seq<(Tx, OutMsg)>, early: seq<Income>, b: seq<(Tx, OutMsg)>, late: seq<Income>)
    requires TellsIncomes(book, a, early) && TellsIncomes(book, b, late)
    ensures TellsIncomes(book, a + b, early + late)
  {
    WhereOfTwo(a, b, IsTold(book));
  }

  lemma {:induction false} BlockReadable(book: Book, txs: seq<Tx>)
    ensures ScanTxs(book, txs).Ok? <==> forall tx | tx in txs :: Readable(book, tx)
    decreases |txs|
  {
    if txs != [] {
      var last := txs[|txs| - 1];
      BlockReadable(book, txs[..|txs| - 1]);
      OutsReadable(book, last, last.outs);
      assert forall tx :: tx in txs <==> tx in txs[..|txs| - 1] || tx == last;
      assert ScanOuts(book, last, last.outs).Ok? && ScanIn(book, last).Ok? <==> Readable(book, last);
    }
  }

  lemma {:induction false} EndsTell(book: Book, txs: seq<Tx>)
    requires ScanTxs(book, txs).Ok?
    ensures TellsEnds(book, txs, ScanTxs(book, txs).value.withdrawals)
    decreases |txs|
  {
    if txs != [] {
      EndsTell(book, txs[..|txs| - 1]);
      EndTells(book, txs[|txs| - 1]);
    }
  }

  lemma EndTells(book: Book, tx: Tx)
    requires ScanIn(book, tx).Ok?
    ensures var ws := ScanIn(book, tx).value.withdrawals;
      if IsEnd(book)(tx) then |ws| == 1 && TellsEnd(ws[0], tx) else ws == []
  {
  }

  lemma {:induction false} IncomesTell(book: Book, txs: seq<Tx>)
    requires ScanTxs(book, txs).Ok?
    ensures TellsIncomes(book, AllOuts(txs), ScanTxs(book, txs).value.incomes)
    decreases |txs|
  {
    if txs != [] {
      var init, last := txs[..|txs| - 1], txs[|txs| - 1];
      IncomesTell(book, init);
      OutsTell(book, last, last.outs);
      TellsMore(book, AllOuts(init), ScanTxs(book, init).value.incomes,
                OutsOf(last, last.outs), ScanOuts(book, last, last.outs).value.incomes);
    }
  }

  lemma {:induction false} OpaqueTell(book: Book, txs: seq<Tx>)
    requires ScanTxs(book, txs).Ok?
    ensures ScanTxs(book, txs).value.unknownTxs == Where(txs, IsOpaque(book))
    decreases |txs|
  {
    if txs != [] {
      var last := txs[|txs| - 1];
      OpaqueTell(book, txs[..|txs| - 1]);
      KnownIsNotified(book, last, last.outs);
      assert ScanOuts(book, last, last.outs).value.unknown || ScanIn(book, last).value.unknown <==> Opaque(book, last);
    }
  }

  /** A block is scanned if and only if all its transactions can be read. The ends of sweeps, the incomes and the
      transactions that may hide something are then exactly those in it, in their order, field by field. */
  lemma BlockTells(book: Book, txs: seq<Tx>)
    ensures ScanTxs(book, txs).Ok? <==> forall tx | tx in txs :: Readable(book, tx)
    ensures ScanTxs(book, txs).Ok? ==> var t := ScanTxs(book, txs).value;
      && TellsEnds(book, txs, t.withdrawals) && TellsIncomes(book, AllOuts(txs), t.incomes)
      && t.unknownTxs == Where(txs, IsOpaque(book))
  {
    BlockReadable(book, txs);
    if ScanTxs(book, txs).Ok? {
      EndsTell(book, txs);
      IncomesTell(book, txs);
      OpaqueTell(book, txs);
    }
  }

  /** The incomes that are recorded for an unexplained amount: nothing, with the time and hash of the transaction, for
      each one that may hide it, and then all of it for the first of them. */
  lemma UnknownTells(txs: seq<Tx>, deposit: Address, amount: int)
    ensures var incomes := UnknownIncomes(txs, deposit, amount);
      && |incomes| == (if txs == [] then 0 else |txs| + 1)
      && (forall i | 0 <= i < |incomes| :: incomes[i].from.None? && incomes[i].to == deposit)
      && (forall i | 0 <= i < |txs| ::
            && incomes[i].utime == txs[i].now && incomes[i].lt == txs[i].lt && incomes[i].txHash == txs[i].hash
            && incomes[i].amount == 0)
      && (txs != [] ==> incomes[|txs|] == Income(txs[0].now, txs[0].lt, None, deposit, amount, txs[0].hash))
  {
  }

  /** A block for which the record can be made complete: nothing is unexplained, or something is and there is
      a transaction to attribute it to. */
  predicate Explainable(t: Totals, before: int, after: int)
  {
    var u := Unexplained(t, before, after);
    u == 0 || (u > 0 && t.unknownTxs != [])
  }

  /** In every block the recorded total is exactly the known amount, or known plus unexplained; and it matches
      balance change plus transfers out if and only if the block is explainable. */
  lemma BlockTotal(book: Book, txs: seq<Tx>, deposit: Address, before: int, after: int)
    requires ScanTxs(book, txs).Ok?
    ensures var t := ScanTxs(book, txs).value;
      var recorded := Amount(BlockIncomes(t, deposit, before, after));
      var u := Unexplained(t, before, after);
      && recorded == t.known + (if u > 0 && t.unknownTxs != [] then u else 0)
      && (recorded == after - before + t.withdrawn <==> Explainable(t, before, after))
  {
    var t := ScanTxs(book, txs).value;
    var u := Unexplained(t, before, after);
    KnownTxs(book, txs);
    if u > 0 {
      UnknownAmount(t.unknownTxs, deposit, u);
      AmountOfTwo(t.incomes, UnknownIncomes(t.unknownTxs, deposit, u));
    }
  }

  // ---------------------------------------------------------------- runs of blocks

  /** The deposit's transactions in a block, its balance after it, and the address book at the time of the scan; the
      parent block is the one before. */
  datatype BlockOf = BlockOf(book: Book, txs: seq<Tx>, balance: int)

  ghost predicate Scans(run: seq<BlockOf>)
  {
    forall i | 0 <= i < |run| :: ScanTxs(run[i].book, run[i].txs).Ok?
  }

  function TotalsOf(run: seq<BlockOf>, i: nat): Totals
    requires i < |run| && Scans(run)
  {
    ScanTxs(run[i].book, run[i].txs).value
  }

  function BalanceBefore(start: int, run: seq<BlockOf>, i: nat): int
    requires i <= |run|
  {
    if i == 0 then start else run[i - 1].balance
  }

  function Recorded(deposit: Address, start: int, run: seq<BlockOf>, n: nat): int
    requires n <= |run| && Scans(run)
  {
    if n == 0 then 0
    else
      Recorded(deposit, start, run, n - 1)
      + Amount(BlockIncomes(TotalsOf(run, n - 1), deposit, BalanceBefore(start, run, n - 1), run[n - 1].balance))
  }

  /** What a transaction transfers out of the deposit: the amount of the transfer it was asked for, if it succeeded. */
  function Sent(tx: Tx): int
  {
    if tx.inMsg.InternalIn? && tx.inMsg.transfer.Some? && tx.success then tx.inMsg.transfer.value.amount else 0
  }

  function SentBy(txs: seq<Tx>): int
  {
    if txs == [] then 0 else SentBy(txs[..|txs| - 1]) + Sent(txs[|txs| - 1])
  }

  /** The scanner's total of withdrawals is all that the transactions transferred out, to whomever. */
  lemma {:induction false} WithdrawnIsSent(book: Book, txs: seq<Tx>)
    requires ScanTxs(book, txs).Ok?
    ensures ScanTxs(book, txs).value.withdrawn == SentBy(txs)
    decreases |txs|
  {
    if txs != [] { WithdrawnIsSent(book, txs[..|txs| - 1]); }
  }

  function TransferredOut(run: seq<BlockOf>, n: nat): int
    requires n <= |run|
  {
    if n == 0 then 0 else TransferredOut(run, n - 1) + SentBy(run[n - 1].txs)
  }

  ghost predicate Complete(deposit: Address, start: int, run: seq<BlockOf>, n: nat)
    requires n <= |run| && Scans(run)
  {
    Recorded(deposit, start, run, n) == BalanceBefore(start, run, n) - start + TransferredOut(run, n)
  }

  ghost predicate ExplainableAt(start: int, run: seq<BlockOf>, i: nat)
    requires i < |run| && Scans(run)
  {
    Explainable(TotalsOf(run, i), BalanceBefore(start, run, i), run[i].balance)
  }

  lemma CompleteStep(deposit: Address, start: int, run: seq<BlockOf>, n: nat)
    requires n < |run| && Scans(run) && Complete(deposit, start, run, n)
    ensures Complete(deposit, start, run, n + 1) <==> ExplainableAt(start, run, n)
  {
    BlockTotal(run[n].book, run[n].txs, deposit, BalanceBefore(start, run, n), run[n].balance);
    WithdrawnIsSent(run[n].book, run[n].txs);
  }

  /** Over a run of linked blocks, the recorded incomes equal the balance change plus all transfers out, however the
      address book changes between the blocks. */
  lemma {:induction false} RunIsComplete(deposit: Address, start: int, run: seq<BlockOf>, n: nat)
    requires n <= |run| && Scans(run) && forall i | 0 <= i < n :: ExplainableAt(start, run, i)
    ensures Complete(deposit, start, run, n)
  {
    for k := 0 to n
      invariant Complete(deposit, start, run, k)
    {
      CompleteStep(deposit, start, run, k);
    }
  }

  /** They do so at every point of the run if and only if every block is explainable. */
  lemma CompleteIffExplainable(deposit: Address, start: int, run: seq<BlockOf>)
    requires Scans(run)
    ensures (forall n | 0 <= n <= |run| :: Complete(deposit, start, run, n))
       <==> (forall i | 0 <= i < |run| :: ExplainableAt(start, run, i))
  {
    if forall n | 0 <= n <= |run| :: Complete(deposit, start, run, n) {
      forall i | 0 <= i < |run| ensures ExplainableAt(start, run, i) {
        assert Complete(deposit, start, run, i) && Complete(deposit, start, run, i + 1);
        CompleteStep(deposit, start, run, i);
      }
    }
    if forall i | 0 <= i < |run| :: ExplainableAt(start, run, i) {
      forall n | 0 <= n <= |run| ensures Complete(deposit, start, run, n) {
        RunIsComplete(deposit, start, run, n);
      }
    }
  }

  /** The one transaction of a block, whose message is neither a transfer nor absent. */
  ghost predicate OneOpaqueTx(tx: Tx)
  {
    tx.inMsg.InternalIn? && tx.inMsg.transfer.None?
  }

  /** No message of the transaction is a transfer notification. */
  predicate NoNotification(outs: seq<OutMsg>)
  {
    forall o | o in outs :: o.External? || o.notification.None?
  }

  lemma {:induction false} NothingNotified(book: Book, tx: Tx, outs: seq<OutMsg>)
    requires NoNotification(outs)
    ensures ScanOuts(book, tx, outs).Ok?
    ensures ScanOuts(book, tx, outs).value.incomes == [] && ScanOuts(book, tx, outs).value.known == 0
    decreases |outs|
  {
    if outs != [] {
      NothingNotified(book, tx, outs[..|outs| - 1]);
      assert outs[|outs| - 1] in outs;
    }
  }

  /** A block that is not explainable: jettons are burnt, so the balance drops without a transfer out, whatever the
      wallet tells the master and others about it; the record of a deposit never has negative entries. */
  lemma BurnIsNotRecorded(book: Book, deposit: Address, tx: Tx, amount: int, before: int)
    requires amount > 0 && OneOpaqueTx(tx) && NoNotification(tx.outs)
    ensures ScanTxs(book, [tx]).Ok?
    ensures !Explainable(ScanTxs(book, [tx]).value, before, before - amount)
    ensures BlockIncomes(ScanTxs(book, [tx]).value, deposit, before, before - amount) == []
  {
    NothingNotified(book, tx, tx.outs);
  }

  /** A jetton transfer from a wallet of the service is recorded after all, as income of unknown origin: its
      notification is skipped, but the message that delivers it is opaque to the scanner. */
  lemma ServiceTransferIsUnknownIncome(book: Book, deposit: Address, sender: Address, tx: Tx, amount: int, before: int)
    requires amount > 0 && sender in book && OneOpaqueTx(tx)
    requires tx.outs == [Internal(deposit, OwnerOf(book, deposit), tx.lt, tx.now,
        Some(Notification(amount, Some(sender))))]
    ensures ScanTxs(book, [tx]).Ok?
    ensures BlockIncomes(ScanTxs(book, [tx]).value, deposit, before, before + amount)
         == [ZeroIncome(tx, deposit), ZeroIncome(tx, deposit).(amount := amount)]
  {
    assert tx.outs[..|tx.outs| - 1] == [];
    assert ScanOuts(book, tx, tx.outs[..|tx.outs| - 1]) == Ok(OutScan([], 0, false));
    assert ScanOut(book, tx, tx.outs[|tx.outs| - 1]) == Ok(OutScan([], 0, false));
    var nothing: seq<Income> := [];
    assert nothing + [] == [];
  }
}
