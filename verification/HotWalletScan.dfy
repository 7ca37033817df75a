/** The block scanner on a transaction in which the hot wallet executes one of its external messages. */
module HotWalletScan {
  import opened Prelude
  import opened Lists
  import opened Messages
  import Payouts

  type Report = Payouts.Report

  /** An outgoing message of the transaction, or one that is not internal, or one whose recipient is not a standard
      address. */
  datatype Out = Out(msg: Message, lt: nat, utime: nat) | NotInternal | NotStandard

  datatype Confirmation = Confirmation(lt: nat, from: Address, memo: Comment)

  datatype Events = Events(withdrawals: seq<Report>, confirmations: seq<Confirmation>)

  datatype ScanError = NotValidMessage | AnomalousHotWallet | InvalidAddress | InvalidTransfer | NoProxyPayload

  // ---------------------------------------------------------------- the message as it was sent

  predicate DistinctRecipients(ms: seq<Message>)
  {
    forall i, j | 0 <= i < j < |ms| :: Recipient(ms[i]) != Recipient(ms[j])
  }

  /** None stands for a message whose recipient is not a standard address. */
  predicate AllStandard(ms: seq<Option<Message>>)
  {
    forall i | 0 <= i < |ms| :: ms[i].Some?
  }

  function Standard(ms: seq<Option<Message>>): seq<Message>
    requires AllStandard(ms)
  {
    seq(|ms|, i requires 0 <= i < |ms| => ms[i].value)
  }

  /** parseExternalMessage: the recipients of the messages, which must be standard addresses and distinct. */
  method ParseExternalMessage(ms: seq<Option<Message>>) returns (valid: bool, recipients: set<Address>)
    ensures valid <==> AllStandard(ms) && DistinctRecipients(Standard(ms))
    ensures valid ==> recipients == set m | m in Standard(ms) :: Recipient(m)
  {
    recipients := {};
    for i := 0 to |ms|
      invariant AllStandard(ms[..i]) && DistinctRecipients(Standard(ms[..i]))
      invariant recipients == set m | m in Standard(ms[..i]) :: Recipient(m)
    {
      if ms[i].None? { return false, {}; }
      var a := Recipient(ms[i].value);
      assert Standard(ms[..i + 1]) == Standard(ms[..i]) + [ms[i].value];
      if a in recipients {
        ghost var m :| m in Standard(ms[..i]) && Recipient(m) == a;
        ghost var j :| 0 <= j < i && ms[j].value == m;
        assert AllStandard(ms) ==> Standard(ms)[j] == m && Standard(ms)[i] == ms[i].value;
        return false, {};
      }
      assert forall j | 0 <= j < i :: Standard(ms[..i])[j] in Standard(ms[..i]);
      recipients := recipients + {a};
    }
    assert ms[..|ms|] == ms;
    valid := true;
  }

  // ---------------------------------------------------------------- the messages that went out

  function SentReport(msg: Uuid, to: Address, lt: nat, utime: nat, tx: Hash): Report
  {
    Payouts.Report(msg, to, lt, utime, false, tx)
  }

  function FailedReport(msg: Uuid, to: Address, tx: Hash): Report
  {
    Payouts.Report(msg, to, 0, 0, true, tx)
  }

  /** processTonHotWalletProxyMsg: a confirmation when the proxy is to call a jetton deposit. */
  function ScanProxyMessage(book: Book, o: Out): Result<seq<Confirmation>, ScanError>
    requires o.Out?
  {
    if !o.msg.body.Forward? then Err(NoProxyPayload)
    else
      var inner := o.msg.body.inner;
      if !IsKind(book, inner.to, JettonDeposit) then Ok([])
      else if !inner.body.Transfer? then Err(InvalidTransfer)
      else Ok([Confirmation(o.lt, inner.body.destination, inner.body.note)])
  }

  /** One outgoing message: its events and the recipient it counts for. */
  function ScanOut(book: Book, msg: Uuid, tx: Hash, o: Out): Result<(Events, Address), ScanError>
  {
    if o.NotInternal? then Err(AnomalousHotWallet)
    else if o.NotStandard? then Err(InvalidAddress)
    else if IsKind(book, o.msg.to, JettonHot) then
      if !o.msg.body.Transfer? then Err(InvalidTransfer)
      else
        var a := o.msg.body.destination;
        Ok((Events([SentReport(msg, a, o.lt, o.utime, tx)], []), a))
    else if IsKind(book, o.msg.to, JettonOwner) then
      var cs :- ScanProxyMessage(book, o);
      Ok((Events([], cs), o.msg.to))
    else if o.msg.to !in book then Ok((Events([SentReport(msg, o.msg.to, o.lt, o.utime, tx)], []), o.msg.to))
    else Ok((Events([], []), o.msg.to))
  }

  function ScanOuts(book: Book, msg: Uuid, tx: Hash, outs: seq<Out>): Result<(Events, set<Address>), ScanError>
    decreases |outs|
  {
    if outs == [] then Ok((Events([], []), {}))
    else
      var init :- ScanOuts(book, msg, tx, outs[..|outs| - 1]);
      var last :- ScanOut(book, msg, tx, outs[|outs| - 1]);
      Ok((Events(init.0.withdrawals + last.0.withdrawals, init.0.confirmations + last.0.confirmations),
          init.1 + {last.1}))
  }

  /** The failure reports, in whatever order the map of recipients is walked. */
  ghost predicate FailureReports(book: Book, msg: Uuid, tx: Hash, asked: set<Address>, sent: set<Address>,
                                 fs: seq<Report>)
  {
    && (forall f | f in fs :: f.to in asked && f.to !in sent && f.to !in book && f == FailedReport(msg, f.to, tx))
    && (forall i, j | 0 <= i < j < |fs| :: fs[i].to != fs[j].to)
    && (forall a | a in asked && a !in sent && a !in book :: FailedReport(msg, a, tx) in fs)
  }

  method FailedWithdrawals(book: Book, msg: Uuid, tx: Hash, asked: set<Address>, sent: set<Address>)
    returns (fs: seq<Report>)
    ensures FailureReports(book, msg, tx, asked, sent, fs)
  {
    fs := [];
    var rest := asked;
    while rest != {}
      invariant rest <= asked
      invariant FailureReports(book, msg, tx, asked - rest, sent, fs)
      decreases rest
    {
      var a :| a in rest;
      rest := rest - {a};
      if a !in sent && a !in book {
        assert forall f | f in fs :: f.to != a;
        fs := fs + [FailedReport(msg, a, tx)];
      }
    }
  }

  /** processTonHotWalletExternalInMsg */
  method ProcessExternalIn(book: Book, msg: Uuid, tx: Hash, ms: seq<Option<Message>>, outs: seq<Out>)
    returns (r: Result<Events, ScanError>)
    ensures r.Ok? <==> AllStandard(ms) && DistinctRecipients(Standard(ms)) && ScanOuts(book, msg, tx, outs).Ok?
    ensures r.Ok? ==> ScansTo(book, msg, tx, Standard(ms), outs, r.value)
  {
    var valid, asked := ParseExternalMessage(ms);
    if !valid { return Err(NotValidMessage); }
    var withdrawals: seq<Report>, confirmations: seq<Confirmation> := [], [];
    var sent: set<Address> := {};
    for i := 0 to |outs|
      invariant ScanOuts(book, msg, tx, outs[..i]) == Ok((Events(withdrawals, confirmations), sent))
    {
      assert outs[..i + 1][..i] == outs[..i];
      match ScanOut(book, msg, tx, outs[i]) {
        case Err(e) =>
          ScanStopsOnError(book, msg, tx, outs, i + 1);
          return Err(e);
        case Ok((es, a)) =>
          withdrawals, confirmations := withdrawals + es.withdrawals, confirmations + es.confirmations;
          sent := sent + {a};
      }
    }
    assert outs[..|outs|] == outs;
    var failed := FailedWithdrawals(book, msg, tx, asked, sent);
    r := Ok(Events(withdrawals + failed, confirmations));
  }

  /** The events of a transaction: what the outgoing messages say, then a failure for every recipient outside
      the service that is missing among them. */
  ghost predicate ScansTo(book: Book, msg: Uuid, tx: Hash, ms: seq<Message>, outs: seq<Out>, es: Events)
  {
    var r := ScanOuts(book, msg, tx, outs);
    && r.Ok?
    && es.confirmations == r.value.0.confirmations
    && exists fs :: es.withdrawals == r.value.0.withdrawals + fs
                 && FailureReports(book, msg, tx, (set m | m in ms :: Recipient(m)), r.value.1, fs)
  }

  lemma {:induction false} ScanStopsOnError(book: Book, msg: Uuid, tx: Hash, outs: seq<Out>, n: nat)
    requires n <= |outs| && ScanOuts(book, msg, tx, outs[..n]).Err?
    ensures ScanOuts(book, msg, tx, outs).Err?
    decreases |outs| - n
  {
    if n < |outs| {
      assert outs[..n + 1][..n] == outs[..n];
      ScanStopsOnError(book, msg, tx, outs, n + 1);
    } else {
      assert outs[..n] == outs;
    }
  }

  // ---------------------------------------------------------------- the events of a transaction, one by one

  /** A payment to somebody outside the service: jettons by way of a hot jetton wallet, or TON. */
  function IsPaid(book: Book): Out -> bool
  {
    (o: Out) => o.Out? && (IsKind(book, o.msg.to, JettonHot) || o.msg.to !in book)
  }

  /** Who gets what a message sends. */
  function Gets(book: Book, m: Message): Address
  {
    if IsKind(book, m.to, JettonHot) && m.body.Transfer? then m.body.destination else m.to
  }

  /** The sending of a sweep: an owner contract is to call a jetton wallet that is a deposit. */
  function IsSwept(book: Book): Out -> bool
  {
    (o: Out) =>
      o.Out? && IsKind(book, o.msg.to, JettonOwner) && o.msg.body.Forward?
      && IsKind(book, o.msg.body.inner.to, JettonDeposit)
  }

  /** The scanner needs internal messages to standard addresses; a transfer in what it sends to a hot jetton wallet; a
      message for an owner contract to send on, and a transfer in it if it is for a deposit. */
  predicate Readable(book: Book, o: Out)
  {
    && o.Out?
    && (IsKind(book, o.msg.to, JettonHot) ==> o.msg.body.Transfer?)
    && (IsKind(book, o.msg.to, JettonOwner) ==> o.msg.body.Forward?)
    && (IsSwept(book)(o) ==> o.msg.body.inner.body.Transfer?)
  }

  predicate TellsPaid(book: Book, msg: Uuid, tx: Hash, e: Report, o: Out)
  {
    && o.Out? && e.msg == msg && e.to == Gets(book, o.msg) && e.lt == o.lt && e.utime == o.utime
    && !e.failed && e.txHash == tx
  }

  predicate TellsSwept(c: Confirmation, o: Out)
  {
    && o.Out? && o.msg.body.Forward? && o.msg.body.inner.body.Transfer?
    && c.lt == o.lt && c.from == o.msg.body.inner.body.destination && c.memo == o.msg.body.inner.body.note
  }

  /** The reports are, in order, exactly one for each payment that was sent; the confirmations likewise for sweeps. */
  ghost predicate TellsOuts(book: Book, msg: Uuid, tx: Hash, outs: seq<Out>, ws: seq<Report>, cs: seq<Confirmation>)
  {
    var paid, swept := Where(outs, IsPaid(book)), Where(outs, IsSwept(book));
    && |ws| == |paid| && (forall i | 0 <= i < |ws| :: TellsPaid(book, msg, tx, ws[i], paid[i]))
    && |cs| == |swept| && (forall i | 0 <= i < |cs| :: TellsSwept(cs[i], swept[i]))
  }

  lemma {:induction false} OutsReadable(book: Book, msg: Uuid, tx: Hash, outs: seq<Out>)
    ensures ScanOuts(book, msg, tx, outs).Ok? <==> forall o | o in outs :: Readable(book, o)
    decreases |outs|
  {
    if outs != [] {
      var init, last := outs[..|outs| - 1], outs[|outs| - 1];
      OutsReadable(book, msg, tx, init);
      OutTells(book, msg, tx, last);
      assert forall o :: o in outs <==> o in init || o == last;
    }
  }

  /** For any messages that can be read. */
  lemma {:induction false} OutsTell(book: Book, msg: Uuid, tx: Hash, outs: seq<Out>)
    requires ScanOuts(book, msg, tx, outs).Ok?
    ensures var r := ScanOuts(book, msg, tx, outs).value;
      && TellsOuts(book, msg, tx, outs, r.0.withdrawals, r.0.confirmations)
      && (forall a :: a in r.1 <==> exists o :: o in outs && o.Out? && Gets(book, o.msg) == a)
    decreases |outs|
  {
    if outs != [] {
      var init, last := outs[..|outs| - 1], outs[|outs| - 1];
      OutsTell(book, msg, tx, init);
      OutTells(book, msg, tx, last);
      assert forall o :: o in outs <==> o in init || o == last;
    }
  }

  lemma OutTells(book: Book, msg: Uuid, tx: Hash, o: Out)
    ensures ScanOut(book, msg, tx, o).Ok? <==> Readable(book, o)
    ensures ScanOut(book, msg, tx, o).Ok? ==> var (es, a) := ScanOut(book, msg, tx, o).value;
      && a == Gets(book, o.msg)
      && (if IsPaid(book)(o) then |es.withdrawals| == 1 && TellsPaid(book, msg, tx, es.withdrawals[0], o)
          else es.withdrawals == [])
      && (if IsSwept(book)(o) then |es.confirmations| == 1 && TellsSwept(es.confirmations[0], o)
          else es.confirmations == [])
  {
  }

  /** A failure of the payment to `a`. */
  predicate TellsFailure(msg: Uuid, tx: Hash, f: Report, a: Address)
  {
    f.msg == msg && f.to == a && f.failed && f.txHash == tx && f.lt == 0 && f.utime == 0
  }

  /** The reports on a transaction are those on what it sent, and then one failure for every recipient outside the
      service that the message asked for and that got nothing. */
  lemma ScanTells(book: Book, msg: Uuid, tx: Hash, ms: seq<Message>, outs: seq<Out>, es: Events)
    requires ScansTo(book, msg, tx, ms, outs, es)
    ensures var n := |Where(outs, IsPaid(book))|;
      && n <= |es.withdrawals| && TellsOuts(book, msg, tx, outs, es.withdrawals[..n], es.confirmations)
      && (forall f | f in es.withdrawals[n..] :: TellsFailure(msg, tx, f, f.to) && Missed(book, ms, outs, f.to))
      && (forall i, j | n <= i < j < |es.withdrawals| :: es.withdrawals[i].to != es.withdrawals[j].to)
      && (forall a | Missed(book, ms, outs, a) :: exists f :: f in es.withdrawals[n..] && TellsFailure(msg, tx, f, a))
  {
    OutsTell(book, msg, tx, outs);
    var r := ScanOuts(book, msg, tx, outs).value;
    var fs :| es.withdrawals == r.0.withdrawals + fs
           && FailureReports(book, msg, tx, (set m | m in ms :: Recipient(m)), r.1, fs);
    var n := |Where(outs, IsPaid(book))|;
    assert es.withdrawals[..n] == r.0.withdrawals && es.withdrawals[n..] == fs;
    forall a | Missed(book, ms, outs, a) ensures exists f :: f in fs && TellsFailure(msg, tx, f, a) {
      assert FailedReport(msg, a, tx) in fs;
    }
    forall f | f in fs ensures Missed(book, ms, outs, f.to) {}
  }

  ghost predicate Missed(book: Book, ms: seq<Message>, outs: seq<Out>, a: Address)
  {
    && a !in book && (exists m :: m in ms && Recipient(m) == a)
    && forall o | o in outs && o.Out? :: Gets(book, o.msg) != a
  }
}
