/** From the database to the chain and back: the tasks that the queries select make a batch whose messages the
    scanner tells apart, with the address book it has by then. */
module BatchSelection {
  import opened Prelude
  import opened Messages
  import opened AddressBook
  import opened Batch
  import opened BatchProperties
  import opened BatchScan
  import HotWalletScan
  import PayoutProtocol
  import Payouts
  import ServiceRequests
  import Sweeps

  // ---------------------------------------------------------------- what the queries select

  /** The tables and what a batch build reads from them. The sweeps are queried with the addresses that the
      service messages use. */
  datatype Selection = Selection(
    service: ServiceRequests.Table, sweeps: Sweeps.Table, incomes: seq<Sweeps.Income>, ledger: Payouts.Ledger)

  /** Each query returns distinct rows; the service query one for an address (DISTINCT ON). */
  ghost predicate SelectedFrom(s: Service, d: Selection, ts: Tasks)
  {
    && (forall t | t in ts.service :: ServiceRequests.HotTask(d.service, s.tables, t))
    && (forall i, j | 0 <= i < j < |ts.service| :: ts.service[i].from != ts.service[j].from)
    && (forall used, t | t in ts.sweeps(used) :: Sweeps.JettonTask(d.sweeps, d.incomes, s.tables, used, t))
    && (forall used, i, j | 0 <= i < j < |ts.sweeps(used)| :: ts.sweeps(used)[i] != ts.sweeps(used)[j])
    && Payouts.IsTaskList(d.ledger, ts.payments)
  }

  /** The addresses of the hot wallets are those in the tables. */
  ghost predicate ViewFits(k: Keys, s: Service, v: View)
  {
    (forall id :: v.proxy(id) == k.Proxy(id)) && HotWalletsKnown(v, s.book)
  }

  /** A service task of a jetton deposit names the owner contract at which the batch builder aims. */
  lemma ServiceTaskFits(k: Keys, s: Service, table: ServiceRequests.Table, t: ServiceTask)
    requires Injective(k) && Inv(k, s) && ServiceRequests.HotTask(table, s.tables, t)
    requires IsKind(s.book, t.from, JettonOwner)
    ensures k.Proxy(t.subwalletId) == t.from
  {
    assert TonRowOk(k, t.subwalletId, s.tables.ton[t.subwalletId]);
    assert s.book[t.from] == TonInfo(s.tables.ton[t.subwalletId]);
  }

  lemma SelectedIsWellSelected(k: Keys, s: Service, v: View, d: Selection, ts: Tasks)
    requires Injective(k) && Inv(k, s) && ViewFits(k, s, v) && Sweeps.OneAtATime(d.sweeps) && SelectedFrom(s, d, ts)
    ensures WellSelected(v, s.book, ts)
  {
    forall t | t in ts.service && IsKind(s.book, t.from, JettonOwner) ensures v.proxy(t.subwalletId) == t.from {
      ServiceTaskFits(k, s, d.service, t);
    }
    forall used, t | t in ts.sweeps(used) ensures Proxied(v, s.book, t) && v.proxy(t.subwalletId) !in used {
      Sweeps.JettonTasksSuitBatch(k, s, v, d.sweeps, d.incomes, used, t, t);
    }
    forall used, i, j | 0 <= i < j < |ts.sweeps(used)|
      ensures v.proxy(ts.sweeps(used)[i].subwalletId) != v.proxy(ts.sweeps(used)[j].subwalletId)
    {
      Sweeps.JettonTasksSuitBatch(k, s, v, d.sweeps, d.incomes, used, ts.sweeps(used)[i], ts.sweeps(used)[j]);
    }
  }

  // ---------------------------------------------------------------- the scanner's book is a later one

  /** Wallets are only ever added to the address book. */
  ghost predicate Extends(book: Book, later: Book)
  {
    forall a | a in book :: a in later && later[a] == book[a]
  }

  /** The message makes an owner contract call a jetton wallet, and that is a deposit by now. */
  predicate CallsDeposit(later: Book, m: Message)
  {
    m.body.Forward? && m.body.inner.body.Transfer? && IsKind(later, m.body.inner.to, JettonDeposit)
  }

  /** No payee is in the book, and no service message calls a deposit. */
  ghost predicate StillApart(later: Book, b: Build)
  {
    && (forall t | t in b.payments :: t.destination !in later)
    && (forall i | 0 <= i < |b.service| && i < |b.messages| :: !CallsDeposit(later, b.messages[i]))
  }

  /** The scanner accepts this part of the batch: each payment is reported exactly once, failed if and only if it was
      not sent, and every sent sweep is confirmed once under its memo. */
  ghost predicate PartReadsBack(
    b: Build, later: Book, idx: seq<nat>, outs: seq<HotWalletScan.Out>, msg: Uuid, tx: Hash)
  {
    && HotWalletScan.ScanOuts(later, msg, tx, outs).Ok?
    && forall es | HotWalletScan.ScansTo(later, msg, tx, b.messages, outs, es) ::
         && ReportsTasks(b.payments, (set a | a in PaidTo(b, idx)), msg, tx, es.withdrawals)
         && ConfirmsInOrder(b, idx, es.confirmations)
  }

  /** Whatever part of the batch the hot wallet sends. */
  ghost predicate ReadsBack(b: Build, later: Book)
  {
    forall idx, outs, msg, tx | SendsPart(b, idx, outs) :: PartReadsBack(b, later, idx, outs, msg, tx)
  }

  lemma ScansMessageTheSame(v: View, book: Book, later: Book, b: Build, i: nat, msg: Uuid, tx: Hash,
                            o: HotWalletScan.Out)
    requires GoodBatch(v, book, b) && Extends(book, later) && StillApart(later, b)
    requires i < |b.messages| && o.Out? && o.msg == b.messages[i]
    ensures HotWalletScan.ScanOut(later, msg, tx, o) == HotWalletScan.ScanOut(book, msg, tx, o)
  {
    assert MatchesTask(v, book, b, i);
    RecipientIs(v, book, b, i);
    if i < |b.service| {
      assert ServedBy(v, book, b.service[i], b.messages[i]);
      assert !CallsDeposit(later, b.messages[i]);
    } else if i >= |b.service| + |b.sweeps| {
      assert PaymentOf(b, i) in b.payments;
    }
  }

  lemma {:induction false} ScansPartTheSame(
    v: View, book: Book, later: Book, b: Build, idx: seq<nat>, msg: Uuid, tx: Hash, outs: seq<HotWalletScan.Out>)
    requires GoodBatch(v, book, b) && Extends(book, later) && StillApart(later, b) && SendsPart(b, idx, outs)
    ensures HotWalletScan.ScanOuts(later, msg, tx, outs) == HotWalletScan.ScanOuts(book, msg, tx, outs)
    decreases |outs|
  {
    if outs != [] {
      var n := |outs| - 1;
      ScansPartTheSame(v, book, later, b, idx[..n], msg, tx, outs[..n]);
      ScansMessageTheSame(v, book, later, b, idx[n], msg, tx, outs[n]);
    }
  }

  /** The recipients of the messages, for which failures are reported. */
  function Asked(ms: seq<Message>): set<Address>
  {
    set m | m in ms :: Recipient(m)
  }

  lemma AskedTheSame(v: View, book: Book, later: Book, b: Build)
    requires GoodBatch(v, book, b) && Extends(book, later) && StillApart(later, b)
    ensures forall a | a in Asked(b.messages) :: a in later <==> a in book
  {
    forall a | a in Asked(b.messages) ensures a in later <==> a in book {
      var m :| m in b.messages && Recipient(m) == a;
      var i :| 0 <= i < |b.messages| && b.messages[i] == m;
      RecipientIs(v, book, b, i);
      if i >= |b.service| + |b.sweeps| { assert PaymentOf(b, i) in b.payments; }
    }
  }

  lemma ScansTheSame(v: View, book: Book, later: Book, b: Build, idx: seq<nat>, outs: seq<HotWalletScan.Out>,
                     msg: Uuid, tx: Hash, es: HotWalletScan.Events)
    requires GoodBatch(v, book, b) && Extends(book, later) && StillApart(later, b) && SendsPart(b, idx, outs)
    ensures HotWalletScan.ScansTo(later, msg, tx, b.messages, outs, es)
       <==> HotWalletScan.ScansTo(book, msg, tx, b.messages, outs, es)
  {
    ScansPartTheSame(v, book, later, b, idx, msg, tx, outs);
    AskedTheSame(v, book, later, b);
    forall sent: set<Address>, fs
      ensures HotWalletScan.FailureReports(later, msg, tx, Asked(b.messages), sent, fs)
         <==> HotWalletScan.FailureReports(book, msg, tx, Asked(b.messages), sent, fs)
    {
    }
  }

  // ---------------------------------------------------------------- what goes wrong otherwise

  /** There always are failure reports. */
  lemma {:induction false} FailuresExist(book: Book, msg: Uuid, tx: Hash, asked: set<Address>, sent: set<Address>)
    returns (fs: seq<HotWalletScan.Report>)
    ensures HotWalletScan.FailureReports(book, msg, tx, asked, sent, fs)
    decreases asked
  {
    fs := [];
    if a :| a in asked {
      fs := FailuresExist(book, msg, tx, asked - {a}, sent);
      if a !in sent && a !in book {
        assert forall f | f in fs :: f.to != a;
        fs := fs + [HotWalletScan.FailedReport(msg, a, tx)];
      }
    }
  }

  /** When nothing was sent, a payee in the book gets no report. */
  lemma PayeeGetsNoReport(b: Build, later: Book, t: Payouts.Task)
    requires t in b.payments && t.destination in later
    ensures !ReadsBack(b, later)
  {
    var fs := FailuresExist(later, 0, 0, Asked(b.messages), {});
    var es := HotWalletScan.Events([] + fs, []);
    assert SendsPart(b, [], []);
    assert HotWalletScan.ScansTo(later, 0, 0, b.messages, [], es);
    assert !ReportsTasks(b.payments, (set a | a in PaidTo(b, [])), 0, 0, es.withdrawals);
    assert !PartReadsBack(b, later, [], [], 0, 0);
  }

  /** A service message that calls what is a deposit by now gives a confirmation of a sweep that does not exist. */
  lemma ServiceGetsConfirmed(v: View, book: Book, b: Build, later: Book, i: nat)
    requires GoodBatch(v, book, b) && Extends(book, later)
    requires i < |b.service| && i < |b.messages| && CallsDeposit(later, b.messages[i])
    ensures !ReadsBack(b, later)
  {
    assert MatchesTask(v, book, b, i) && ServedBy(v, book, b.service[i], b.messages[i]);
    var o := HotWalletScan.Out(b.messages[i], 0, 0);
    var r := HotWalletScan.ScanOut(later, 0, 0, o);
    assert r.Ok? && |r.value.0.confirmations| == 1;
    assert [o][..0] == [] && [i][..0] == [];
    assert HotWalletScan.ScanOuts(later, 0, 0, [o][..0]).Ok?;
    var scan := HotWalletScan.ScanOuts(later, 0, 0, [o]).value;
    var fs := FailuresExist(later, 0, 0, Asked(b.messages), scan.1);
    var es := HotWalletScan.Events(scan.0.withdrawals + fs, scan.0.confirmations);
    assert SendsPart(b, [i], [o]);
    assert HotWalletScan.ScansTo(later, 0, 0, b.messages, [o], es);
    assert SweptMemos(b, [i]) == [];
    assert !ConfirmsInOrder(b, [i], es.confirmations);
    assert !PartReadsBack(b, later, [i], [o], 0, 0);
  }

  /** With a later address book, a good batch reads back right, whatever part of it is sent, if and only if no payee
      is in that book and no service message calls a jetton wallet that has become a deposit. */
  lemma ReadsBackIffApart(v: View, book: Book, b: Build, later: Book)
    requires GoodBatch(v, book, b) && Extends(book, later)
    ensures ReadsBack(b, later) <==> StillApart(later, b)
  {
    if StillApart(later, b) {
      forall idx, outs, msg, tx | SendsPart(b, idx, outs) ensures PartReadsBack(b, later, idx, outs, msg, tx) {
        ScansPartTheSame(v, book, later, b, idx, msg, tx, outs);
        forall es | HotWalletScan.ScansTo(later, msg, tx, b.messages, outs, es)
          ensures ReportsTasks(b.payments, (set a | a in PaidTo(b, idx)), msg, tx, es.withdrawals)
          ensures ConfirmsInOrder(b, idx, es.confirmations)
        {
          ScansTheSame(v, book, later, b, idx, outs, msg, tx, es);
          ScannerReadsBatch(v, book, b, idx, outs, msg, tx, es);
        }
        ScannerReadsBatch(v, book, b, idx, outs, msg, tx, HotWalletScan.Events([], []));
      }
    }
    forall t | t in b.payments && t.destination in later ensures !ReadsBack(b, later) {
      PayeeGetsNoReport(b, later, t);
    }
    forall i | 0 <= i < |b.service| && i < |b.messages| && CallsDeposit(later, b.messages[i])
      ensures !ReadsBack(b, later)
    {
      ServiceGetsConfirmed(v, book, b, later, i);
    }
  }

  /** A batch built from what the database selects on any reachable state, and scanned with the address book of a later
      time: it reads back right if and only if that book still keeps its payees and service calls apart. */
  lemma SelectedBatchIsReadBack(k: Keys, s: Service, v: View, d: Selection, balances: Balances, ts: Tasks, later: Book)
    requires Injective(k) && Inv(k, s) && ViewFits(k, s, v) && Sweeps.OneAtATime(d.sweeps) && SelectedFrom(s, d, ts)
    requires Configured(v, balances, ts) && |ts.service| <= BATCH_FULL && Extends(s.book, later)
    ensures var b := Built(v, s.book, balances, ts);
      HotWalletScan.DistinctRecipients(b.messages) && (ReadsBack(b, later) <==> StillApart(later, b))
  {
    var b := Built(v, s.book, balances, ts);
    SelectedIsWellSelected(k, s, v, d, ts);
    BuiltIsGood(v, s.book, balances, ts);
    ReadsBackIffApart(v, s.book, b, later);
    forall i, j | 0 <= i < j < |b.messages| ensures Recipient(b.messages[i]) != Recipient(b.messages[j]) {
      RecipientsAreDistinct(v, s.book, b, i, j);
    }
  }

  /** What the scanner says of a payment whose payee is in its book: a jetton payment is reported if it was sent. A sent
      TON payment is not, or stops the scanner if the payee is an owner contract or a jetton wallet of the hot
      wallet. What was not sent is never reported as failed. */
  lemma PaymentToWallet(later: Book, v: View, t: Payouts.Task, msg: Uuid, tx: Hash, lt: nat, utime: nat,
                        asked: set<Address>, sent: set<Address>, fs: seq<HotWalletScan.Report>)
    requires t.destination in later && (t.currency == TON || t.currency in v.jettonHotWallets)
    requires t.currency != TON ==> IsKind(later, v.jettonHotWallets[t.currency], JettonHot)
    requires HotWalletScan.FailureReports(later, msg, tx, asked, sent, fs)
    ensures var r := HotWalletScan.ScanOut(later, msg, tx, HotWalletScan.Out(PayMsg(v, t), lt, utime));
      if t.currency != TON then
        r == Ok((HotWalletScan.Events([HotWalletScan.SentReport(msg, t.destination, lt, utime, tx)], []),
            t.destination))
      else if later[t.destination].kind.JettonHot? || later[t.destination].kind.JettonOwner? then r.Err?
      else r == Ok((HotWalletScan.Events([], []), t.destination))
    ensures forall f | f in fs :: f.to != t.destination
  {
  }

  // ---------------------------------------------------------------- the reports, whatever the book

  /** The reports on sent messages are of payments that were sent, one each; only payees in the book may lack one. */
  ghost predicate SentReports(later: Book, paid: seq<Address>, msg: Uuid, tx: Hash, ws: seq<HotWalletScan.Report>)
  {
    && (forall e | e in ws :: e.msg == msg && !e.failed && e.to in paid && e.txHash == tx)
    && (forall i, j | 0 <= i < j < |ws| :: ws[i].to != ws[j].to)
    && (forall a | a in paid && a !in later :: ReportedTo(ws, a))
  }

  ghost predicate ReportedTo(ws: seq<HotWalletScan.Report>, a: Address)
  {
    exists e :: e in ws && e.to == a
  }

  lemma LaterMessage(v: View, book: Book, later: Book, b: Build, i: nat, msg: Uuid, tx: Hash, o: HotWalletScan.Out)
    requires GoodBatch(v, book, b) && Extends(book, later) && i < |b.messages| && o.Out? && o.msg == b.messages[i]
    requires HotWalletScan.ScanOut(later, msg, tx, o).Ok?
    ensures var r := HotWalletScan.ScanOut(later, msg, tx, o).value;
      && r.1 == RecipientOf(v, b, i)
      && (r.0.withdrawals == []
          || (IsPayment(b, i)
              && r.0.withdrawals == [HotWalletScan.SentReport(msg, PaymentOf(b, i).destination, o.lt, o.utime, tx)]))
      && (r.0.withdrawals == [] && IsPayment(b, i) ==> PaymentOf(b, i).destination in later)
  {
    assert MatchesTask(v, book, b, i);
    RecipientIs(v, book, b, i);
    if i < |b.service| { assert ServedBy(v, book, b.service[i], b.messages[i]); }
  }

  lemma {:induction false} LaterPart(
    v: View, book: Book, later: Book, b: Build, idx: seq<nat>, msg: Uuid, tx: Hash, outs: seq<HotWalletScan.Out>)
    requires GoodBatch(v, book, b) && Extends(book, later) && SendsPart(b, idx, outs)
    requires HotWalletScan.ScanOuts(later, msg, tx, outs).Ok?
    ensures SentReports(
      later, PaidTo(b, idx), msg, tx, HotWalletScan.ScanOuts(later, msg, tx, outs).value.0.withdrawals)
    ensures forall a :: a in HotWalletScan.ScanOuts(later, msg, tx, outs).value.1 <==> Reaches(v, b, idx, a)
    decreases |idx|
  {
    if idx != [] {
      var n := |idx| - 1;
      LaterPart(v, book, later, b, idx[..n], msg, tx, outs[..n]);
      LaterMessage(v, book, later, b, idx[n], msg, tx, outs[n]);
      PaidToDistinct(v, book, b, idx);
      var init := HotWalletScan.ScanOuts(later, msg, tx, outs[..n]).value;
      var last := HotWalletScan.ScanOut(later, msg, tx, outs[n]).value;
      if IsPayment(b, idx[n]) {
        assert PaidTo(b, idx) == PaidTo(b, idx[..n]) + [PaymentOf(b, idx[n]).destination];
        OneMorePaid(later, PaidTo(b, idx[..n]), PaymentOf(b, idx[n]).destination, msg, tx, init.0.withdrawals,
                    last.0.withdrawals);
      }
      forall a ensures a in init.1 + {last.1} <==> Reaches(v, b, idx, a) { ReachesStep(v, b, idx, a); }
    }
  }

  lemma OneMorePaid(later: Book, paid: seq<Address>, to: Address, msg: Uuid, tx: Hash,
                    ws: seq<HotWalletScan.Report>, more: seq<HotWalletScan.Report>)
    requires SentReports(later, paid, msg, tx, ws)
    requires forall i, j | 0 <= i < j < |paid + [to]| :: (paid + [to])[i] != (paid + [to])[j]
    requires if more == [] then to in later
             else |more| == 1 && more[0].msg == msg && !more[0].failed && more[0].to == to && more[0].txHash == tx
    ensures SentReports(later, paid + [to], msg, tx, ws + more)
  {
    forall a | a in paid ensures a in paid + [to] && a != to {
      var i :| 0 <= i < |paid| && paid[i] == a;
      assert (paid + [to])[i] != (paid + [to])[|paid|];
    }
    forall a | a in paid + [to] && a !in later ensures ReportedTo(ws + more, a) {
      if a in paid {
        var e :| e in ws && e.to == a;
        assert e in ws + more;
      } else {
        assert more[0] in ws + more;
      }
    }
  }

  /** A failure is of a payment that was not sent. */
  lemma FailureFits(v: View, book: Book, later: Book, b: Build, idx: seq<nat>, sent: set<Address>, a: Address)
    requires GoodBatch(v, book, b) && Extends(book, later) && forall p | 0 <= p < |idx| :: idx[p] < |b.messages|
    requires forall x :: x in sent <==> Reaches(v, b, idx, x)
    requires a in Asked(b.messages) && a !in sent && a !in later
    ensures a in PayoutProtocol.Recipients(b.payments) && a !in PaidTo(b, idx)
  {
    AskedOutside(v, book, b, a);
    ReachedOutside(v, book, b, idx, a);
  }

  /** A payee outside the book was sent its payment, or is among the failures. */
  lemma PayeeFits(v: View, book: Book, later: Book, b: Build, idx: seq<nat>, sent: set<Address>, a: Address)
    requires GoodBatch(v, book, b) && Extends(book, later) && forall p | 0 <= p < |idx| :: idx[p] < |b.messages|
    requires forall x :: x in sent <==> Reaches(v, b, idx, x)
    requires a in PayoutProtocol.Recipients(b.payments) && a !in later
    ensures a in PaidTo(b, idx) || (a in Asked(b.messages) && a !in sent)
  {
    AskedOutside(v, book, b, a);
    ReachedOutside(v, book, b, idx, a);
  }

  /** Seen from the payout protocol, in a world whose address book covers the scanner's: the reports on an execution are
      the ones expected of the block, whatever wallets were added since the batch was built. */
  lemma LaterScanFeedsProtocol(v: View, book: Book, later: Book, b: Build, idx: seq<nat>, outs: seq<HotWalletScan.Out>,
                               msg: Uuid, tx: Hash, es: HotWalletScan.Events, w: PayoutProtocol.World, time: Time)
    requires GoodBatch(v, book, b) && Extends(book, later) && SendsPart(b, idx, outs)
    requires HotWalletScan.ScansTo(later, msg, tx, b.messages, outs, es)
    requires msg in w.batches && w.batches[msg].recipients == PayoutProtocol.Recipients(b.payments)
    requires forall a | a in later :: a in w.inside
    ensures var x := PayoutProtocol.Execution(msg, (set a | a in PaidTo(b, idx)), tx);
      PayoutProtocol.ReportsOn(w, PayoutProtocol.Block(time, [x]), es.withdrawals)
  {
    var r := HotWalletScan.ScanOuts(later, msg, tx, outs).value;
    var fs :| es.withdrawals == r.0.withdrawals + fs
           && HotWalletScan.FailureReports(later, msg, tx, Asked(b.messages), r.1, fs);
    LaterPart(v, book, later, b, idx, msg, tx, outs);
    forall a | a in PaidTo(b, idx) ensures a in w.batches[msg].recipients { ReachedOutside(v, book, b, idx, a); }
    forall f | f in fs ensures f.to in w.batches[msg].recipients && f.to !in PaidTo(b, idx) {
      FailureFits(v, book, later, b, idx, r.1, f.to);
    }
    forall a | a in w.batches[msg].recipients && a !in later
      ensures a in PaidTo(b, idx) || HotWalletScan.FailedReport(msg, a, tx) in fs
    {
      PayeeFits(v, book, later, b, idx, r.1, a);
    }
    ReportsFit(later, PaidTo(b, idx), msg, tx, r.0.withdrawals, Asked(b.messages), r.1, fs, w, time);
  }

  lemma ReportsFit(later: Book, paid: seq<Address>, msg: Uuid, tx: Hash, ws: seq<HotWalletScan.Report>,
                   asked: set<Address>, sent: set<Address>, fs: seq<HotWalletScan.Report>,
                   w: PayoutProtocol.World, time: Time)
    requires SentReports(later, paid, msg, tx, ws) && msg in w.batches && forall a | a in later :: a in w.inside
    requires forall a | a in paid :: a in w.batches[msg].recipients
    requires forall f | f in fs :: f.to in w.batches[msg].recipients && f.to !in paid
    requires HotWalletScan.FailureReports(later, msg, tx, asked, sent, fs)
    requires forall a | a in w.batches[msg].recipients && a !in later ::
               a in paid || HotWalletScan.FailedReport(msg, a, tx) in fs
    ensures var x := PayoutProtocol.Execution(msg, (set a | a in paid), tx);
      PayoutProtocol.ReportsOn(w, PayoutProtocol.Block(time, [x]), ws + fs)
  {
    var x := PayoutProtocol.Execution(msg, (set a | a in paid), tx);
    var block := PayoutProtocol.Block(time, [x]);
    assert x in block.executions;
    forall e | e in ws + fs ensures PayoutProtocol.Explained(w, block, e) {
      assert e in ws || e in fs;
      assert PayoutProtocol.ReportFits(w, x, e);
    }
    forall a | a in w.batches[msg].recipients && a !in w.inside
      ensures PayoutProtocol.Mentions(ws + fs, Payouts.RowKey(msg, a))
    {
      var e: HotWalletScan.Report;
      if a in paid {
        assert ReportedTo(ws, a);
        e :| e in ws && e.to == a;
      } else {
        e := HotWalletScan.FailedReport(msg, a, tx);
      }
      assert e in ws + fs && Payouts.KeyOf(e) == Payouts.RowKey(msg, a);
    }
  }
}
