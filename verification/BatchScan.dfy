/** The scanner reads back from the chain exactly what the builder put into the batch. */
module BatchScan {
  import opened Prelude
  import opened Messages
  import opened Batch
  import opened BatchProperties
  import opened HotWalletScan
  import Payouts
  import PayoutProtocol

  /** The hot wallet sent messages `idx` of the batch, in this order, each at most once. */
  ghost predicate SendsPart(b: Build, idx: seq<nat>, outs: seq<Out>)
  {
    && |outs| == |idx|
    && (forall p | 0 <= p < |idx| :: idx[p] < |b.messages| && outs[p].Out? && outs[p].msg == b.messages[idx[p]])
    && (forall p, r | 0 <= p < r < |idx| :: idx[p] != idx[r])
  }

  predicate IsSweep(b: Build, i: nat) { |b.service| <= i < |b.service| + |b.sweeps| }

  predicate IsPayment(b: Build, i: nat)
  {
    |b.service| + |b.sweeps| <= i < |b.service| + |b.sweeps| + |b.payments|
  }

  function PaymentOf(b: Build, i: nat): Payouts.Task
    requires IsPayment(b, i)
  {
    b.payments[i - |b.service| - |b.sweeps|]
  }

  function SweepOf(b: Build, i: nat): Sweep
    requires IsSweep(b, i)
  {
    b.sweeps[i - |b.service|]
  }

  /** Where the sent payments went, in the order of sending. */
  function PaidTo(b: Build, idx: seq<nat>): seq<Address>
    decreases |idx|
  {
    if idx == [] then []
    else
      PaidTo(b, idx[..|idx| - 1])
      + if IsPayment(b, idx[|idx| - 1]) then [PaymentOf(b, idx[|idx| - 1]).destination] else []
  }

  /** The memos of the sent sweeps, in the order of sending. */
  function SweptMemos(b: Build, idx: seq<nat>): seq<Comment>
    decreases |idx|
  {
    if idx == [] then []
    else
      SweptMemos(b, idx[..|idx| - 1])
      + if IsSweep(b, idx[|idx| - 1]) then [OfMemo(SweepOf(b, idx[|idx| - 1]).memo)] else []
  }

  ghost predicate GoodBatch(v: View, book: Book, b: Build)
  {
    HotWalletsKnown(v, book) && Aligned(v, book, b) && PartsDistinct(v, book, b)
  }

  /** One message of the batch as the scanner sees it: a payment is one report to its destination, a sweep is
      one confirmation with its memo, a service message is nothing; none is an error. */
  lemma ScanMessage(v: View, book: Book, b: Build, i: nat, msg: Uuid, tx: Hash, o: Out)
    requires GoodBatch(v, book, b) && i < |b.messages| && o.Out? && o.msg == b.messages[i]
    ensures var r := ScanOut(book, msg, tx, o);
      && r.Ok?
      && r.value.1 == RecipientOf(v, b, i)
      && r.value.0.withdrawals
         == (if IsPayment(b, i) then [SentReport(msg, PaymentOf(b, i).destination, o.lt, o.utime, tx)] else [])
      && r.value.0.confirmations
         == (if IsSweep(b, i) then [Confirmation(o.lt, v.hotWallet, OfMemo(SweepOf(b, i).memo))] else [])
  {
    assert MatchesTask(v, book, b, i);
    RecipientIs(v, book, b, i);
    if i < |b.service| {
      assert ServedBy(v, book, b.service[i], b.messages[i]);
    }
  }

  ghost predicate ReportsInOrder(b: Build, idx: seq<nat>, msg: Uuid, tx: Hash, es: seq<Report>)
  {
    && |es| == |PaidTo(b, idx)|
    && (forall i | 0 <= i < |es| ::
          es[i].msg == msg && es[i].to == PaidTo(b, idx)[i] && !es[i].failed && es[i].txHash == tx)
  }

  ghost predicate ConfirmsInOrder(b: Build, idx: seq<nat>, cs: seq<Confirmation>)
  {
    && |cs| == |SweptMemos(b, idx)|
    && (forall i | 0 <= i < |cs| :: cs[i].memo == SweptMemos(b, idx)[i])
  }

  /** `a` is the recipient of a sent message. */
  ghost predicate Reaches(v: View, b: Build, idx: seq<nat>, a: Address)
  {
    exists p :: 0 <= p < |idx| && Hits(v, b, idx[p], a)
  }

  predicate Hits(v: View, b: Build, i: nat, a: Address)
  {
    i < |b.service| + |b.sweeps| + |b.payments| && RecipientOf(v, b, i) == a
  }

  lemma ReachesStep(v: View, b: Build, idx: seq<nat>, a: Address)
    requires idx != []
    ensures Reaches(v, b, idx, a) <==> Reaches(v, b, idx[..|idx| - 1], a) || Hits(v, b, idx[|idx| - 1], a)
  {
    var n := |idx| - 1;
    if Reaches(v, b, idx[..n], a) {
      var p :| 0 <= p < n && Hits(v, b, idx[..n][p], a);
      assert Hits(v, b, idx[p], a);
    }
    if Reaches(v, b, idx, a) && !Hits(v, b, idx[n], a) {
      var p :| 0 <= p < |idx| && Hits(v, b, idx[p], a);
      assert Hits(v, b, idx[..n][p], a);
    }
  }

  lemma {:induction false} ScanPart(v: View, book: Book, b: Build, idx: seq<nat>, msg: Uuid, tx: Hash, outs: seq<Out>)
    requires GoodBatch(v, book, b) && SendsPart(b, idx, outs)
    ensures var r := ScanOuts(book, msg, tx, outs);
      && r.Ok?
      && ReportsInOrder(b, idx, msg, tx, r.value.0.withdrawals)
      && ConfirmsInOrder(b, idx, r.value.0.confirmations)
      && (forall a :: a in r.value.1 <==> Reaches(v, b, idx, a))
    decreases |idx|
  {
    if idx != [] {
      var n := |idx| - 1;
      ScanPart(v, book, b, idx[..n], msg, tx, outs[..n]);
      ScanMessage(v, book, b, idx[n], msg, tx, outs[n]);
      forall a ensures Reaches(v, b, idx, a) <==> Reaches(v, b, idx[..n], a) || Hits(v, b, idx[n], a) {
        ReachesStep(v, b, idx, a);
      }
      ScanOneMore(v, b, idx, msg, tx, ScanOuts(book, msg, tx, outs[..n]).value.0,
                  ScanOut(book, msg, tx, outs[n]).value.0);
    }
  }

  /** One more message, one more report or confirmation. */
  lemma ScanOneMore(v: View, b: Build, idx: seq<nat>, msg: Uuid, tx: Hash, before: Events, e: Events)
    requires idx != []
    requires ReportsInOrder(b, idx[..|idx| - 1], msg, tx, before.withdrawals)
    requires ConfirmsInOrder(b, idx[..|idx| - 1], before.confirmations)
    requires if IsPayment(b, idx[|idx| - 1])
             then |e.withdrawals| == 1 && e.withdrawals[0].msg == msg && !e.withdrawals[0].failed
                  && e.withdrawals[0].to == PaymentOf(b, idx[|idx| - 1]).destination && e.withdrawals[0].txHash == tx
             else e.withdrawals == []
    requires if IsSweep(b, idx[|idx| - 1])
             then |e.confirmations| == 1 && e.confirmations[0].memo == OfMemo(SweepOf(b, idx[|idx| - 1]).memo)
             else e.confirmations == []
    ensures ReportsInOrder(b, idx, msg, tx, before.withdrawals + e.withdrawals)
    ensures ConfirmsInOrder(b, idx, before.confirmations + e.confirmations)
  {
  }

  /** An address was paid exactly when some sent message is the payment to it. */
  lemma {:induction false} PaidToMeans(b: Build, idx: seq<nat>, a: Address)
    ensures a in PaidTo(b, idx)
       <==> exists p :: 0 <= p < |idx| && IsPayment(b, idx[p]) && PaymentOf(b, idx[p]).destination == a
    decreases |idx|
  {
    if idx != [] {
      var n := |idx| - 1;
      PaidToMeans(b, idx[..n], a);
      assert forall p | 0 <= p < n :: idx[..n][p] == idx[p];
    }
  }

  lemma {:induction false} PaidToDistinct(v: View, book: Book, b: Build, idx: seq<nat>)
    requires PartsDistinct(v, book, b) && forall p, r | 0 <= p < r < |idx| :: idx[p] != idx[r]
    ensures forall i, j | 0 <= i < j < |PaidTo(b, idx)| :: PaidTo(b, idx)[i] != PaidTo(b, idx)[j]
    decreases |idx|
  {
    if idx != [] {
      var n := |idx| - 1;
      PaidToDistinct(v, book, b, idx[..n]);
      if IsPayment(b, idx[n]) {
        var a := PaymentOf(b, idx[n]).destination;
        PaidToMeans(b, idx[..n], a);
        assert a !in PaidTo(b, idx[..n]);
      }
    }
  }

  /** Every batch the builder makes is accepted by the scanner, whatever part of it the hot wallet sends:
      each payment yields exactly one report, failed if and only if it was not sent; service messages and
      sweeps yield none, and each sent sweep yields exactly one confirmation carrying its memo. */
  lemma ScannerReadsBatch(v: View, book: Book, b: Build, idx: seq<nat>, outs: seq<Out>, msg: Uuid, tx: Hash, es: Events)
    requires GoodBatch(v, book, b) && SendsPart(b, idx, outs)
    ensures DistinctRecipients(b.messages) && ScanOuts(book, msg, tx, outs).Ok?
    ensures ScansTo(book, msg, tx, b.messages, outs, es) ==>
      && ReportsTasks(b.payments, (set a | a in PaidTo(b, idx)), msg, tx, es.withdrawals)
      && ConfirmsInOrder(b, idx, es.confirmations)
  {
    forall i, j | 0 <= i < j < |b.messages| ensures Recipient(b.messages[i]) != Recipient(b.messages[j]) {
      RecipientsAreDistinct(v, book, b, i, j);
    }
    ScanPart(v, book, b, idx, msg, tx, outs);
    if ScansTo(book, msg, tx, b.messages, outs, es) {
      var r := ScanOuts(book, msg, tx, outs).value;
      var asked := set m | m in b.messages :: Recipient(m);
      var fs :| es.withdrawals == r.0.withdrawals + fs && FailureReports(book, msg, tx, asked, r.1, fs);
      PaidToDistinct(v, book, b, idx);
      ReportsAreComplete(v, book, b, idx, msg, tx, r.0.withdrawals, r.1, fs);
    }
  }

  ghost predicate ReportFitsTask(tasks: seq<Payouts.Task>, paid: set<Address>, msg: Uuid, tx: Hash, e: Report)
  {
    && e.msg == msg && e.txHash == tx && (e.failed <==> e.to !in paid)
    && exists t :: t in tasks && t.destination == e.to
  }

  /** One report per payment, failed exactly for those not paid. */
  ghost predicate ReportsTasks(tasks: seq<Payouts.Task>, paid: set<Address>, msg: Uuid, tx: Hash, es: seq<Report>)
  {
    && (forall e | e in es :: ReportFitsTask(tasks, paid, msg, tx, e))
    && (forall i, j | 0 <= i < j < |es| :: es[i].to != es[j].to)
    && (forall t | t in tasks :: exists e :: e in es && e.to == t.destination)
  }

  /** Recipients outside the service are the destinations of the payments. */
  lemma AskedOutside(v: View, book: Book, b: Build, a: Address)
    requires Aligned(v, book, b) && PartsDistinct(v, book, b)
    ensures (a !in book && exists m :: m in b.messages && Recipient(m) == a)
       <==> exists t :: t in b.payments && t.destination == a
  {
    if a !in book {
      if m :| m in b.messages && Recipient(m) == a {
        var i :| 0 <= i < |b.messages| && b.messages[i] == m;
        RecipientIs(v, book, b, i);
        assert PaymentOf(b, i) in b.payments;
      }
    }
    if t :| t in b.payments && t.destination == a {
      var j :| 0 <= j < |b.payments| && b.payments[j] == t;
      var i := |b.service| + |b.sweeps| + j;
      RecipientIs(v, book, b, i);
      assert b.messages[i] in b.messages;
    }
  }

  /** Outside the service, the recipients reached are the destinations paid. */
  lemma ReachedOutside(v: View, book: Book, b: Build, idx: seq<nat>, a: Address)
    requires Aligned(v, book, b) && PartsDistinct(v, book, b) && forall p | 0 <= p < |idx| :: idx[p] < |b.messages|
    ensures a in PaidTo(b, idx) <==> a !in book && Reaches(v, b, idx, a)
    ensures a in PaidTo(b, idx) ==> exists t :: t in b.payments && t.destination == a
  {
    PaidToMeans(b, idx, a);
    if a !in book && Reaches(v, b, idx, a) {
      var p :| 0 <= p < |idx| && Hits(v, b, idx[p], a);
      RecipientIs(v, book, b, idx[p]);
      assert IsPayment(b, idx[p]);
    }
    if a in PaidTo(b, idx) {
      var p :| 0 <= p < |idx| && IsPayment(b, idx[p]) && PaymentOf(b, idx[p]).destination == a;
      assert PaymentOf(b, idx[p]) in b.payments;
      assert Hits(v, b, idx[p], a);
      RecipientIs(v, book, b, idx[p]);
    }
  }

  lemma ReportsAreComplete(v: View, book: Book, b: Build, idx: seq<nat>, msg: Uuid, tx: Hash,
                           ok: seq<Report>, sent: set<Address>, fs: seq<Report>)
    requires GoodBatch(v, book, b) && forall p | 0 <= p < |idx| :: idx[p] < |b.messages|
    requires ReportsInOrder(b, idx, msg, tx, ok)
    requires forall i, j | 0 <= i < j < |PaidTo(b, idx)| :: PaidTo(b, idx)[i] != PaidTo(b, idx)[j]
    requires forall a :: a in sent <==> Reaches(v, b, idx, a)
    requires FailureReports(book, msg, tx, (set m | m in b.messages :: Recipient(m)), sent, fs)
    ensures ReportsTasks(b.payments, (set a | a in PaidTo(b, idx)), msg, tx, ok + fs)
  {
    var es := ok + fs;
    var paid := set a | a in PaidTo(b, idx);
    forall e | e in ok ensures ReportFitsTask(b.payments, paid, msg, tx, e) {
      ReachedOutside(v, book, b, idx, e.to);
    }
    forall e | e in fs ensures ReportFitsTask(b.payments, paid, msg, tx, e) && e.to !in paid {
      ReachedOutside(v, book, b, idx, e.to);
      AskedOutside(v, book, b, e.to);
    }
    forall t | t in b.payments ensures exists e :: e in es && e.to == t.destination {
      EachIsReported(v, book, b, idx, msg, tx, ok, sent, fs, t);
    }
  }

  lemma EachIsReported(v: View, book: Book, b: Build, idx: seq<nat>, msg: Uuid, tx: Hash,
                       ok: seq<Report>, sent: set<Address>, fs: seq<Report>, t: Payouts.Task)
    requires GoodBatch(v, book, b) && forall p | 0 <= p < |idx| :: idx[p] < |b.messages|
    requires ReportsInOrder(b, idx, msg, tx, ok)
    requires forall a :: a in sent <==> Reaches(v, b, idx, a)
    requires FailureReports(book, msg, tx, (set m | m in b.messages :: Recipient(m)), sent, fs)
    requires t in b.payments
    ensures exists e :: e in ok + fs && e.to == t.destination
  {
    var a := t.destination;
    AskedOutside(v, book, b, a);
    ReachedOutside(v, book, b, idx, a);
    if a in PaidTo(b, idx) {
      var i :| 0 <= i < |PaidTo(b, idx)| && PaidTo(b, idx)[i] == a;
      assert ok[i] in ok + fs;
    } else {
      assert FailedReport(msg, a, tx) in fs;
      assert FailedReport(msg, a, tx) in ok + fs;
    }
  }

  /** Seen from the protocol: the scanner's reports on a block with one execution of a saved batch are the
      reports the protocol expects, so the ledger accepts them. */
  lemma ScannerFeedsProtocol(w: PayoutProtocol.World, time: Time, tasks: seq<Payouts.Task>, paid: set<Address>,
                             msg: Uuid, tx: Hash, es: seq<Report>)
    requires msg in w.batches && w.batches[msg].recipients == PayoutProtocol.Recipients(tasks)
    requires ReportsTasks(tasks, paid, msg, tx, es)
    ensures PayoutProtocol.ReportsOn(w, PayoutProtocol.Block(time, [PayoutProtocol.Execution(msg, paid, tx)]), es)
  {
    var x := PayoutProtocol.Execution(msg, paid, tx);
    var b := PayoutProtocol.Block(time, [x]);
    assert x in b.executions;
    forall e | e in es ensures PayoutProtocol.Explained(w, b, e) {
      assert ReportFitsTask(tasks, paid, msg, tx, e);
      assert PayoutProtocol.ReportFits(w, x, e);
    }
    forall y, a | y in b.executions && y.msg in w.batches && a in w.batches[y.msg].recipients
      ensures PayoutProtocol.Mentions(es, Payouts.RowKey(y.msg, a))
    {
      var t :| t in tasks && t.destination == a;
      var e :| e in es && e.to == t.destination;
      assert Payouts.KeyOf(e) == Payouts.RowKey(y.msg, a);
    }
  }

  /** And a block with several executions is the concatenation of such report lists. */
  lemma ReportsConcatenate(w: PayoutProtocol.World, time: Time, xs: seq<PayoutProtocol.Execution>, es: seq<Report>,
                           ys: seq<PayoutProtocol.Execution>, fs: seq<Report>)
    requires forall x, y | x in xs && y in ys :: x.msg != y.msg
    requires PayoutProtocol.ReportsOn(w, PayoutProtocol.Block(time, xs), es)
    requires PayoutProtocol.ReportsOn(w, PayoutProtocol.Block(time, ys), fs)
    ensures PayoutProtocol.ReportsOn(w, PayoutProtocol.Block(time, xs + ys), es + fs)
  {
    var b := PayoutProtocol.Block(time, xs + ys);
    var b1, b2 := PayoutProtocol.Block(time, xs), PayoutProtocol.Block(time, ys);
    forall e | e in es + fs ensures PayoutProtocol.Explained(w, b, e) {
      assert if e in es then PayoutProtocol.Explained(w, b1, e) else PayoutProtocol.Explained(w, b2, e);
      var x :| x in (if e in es then xs else ys) && PayoutProtocol.ReportFits(w, x, e);
      assert x in b.executions;
    }
    forall e, f | e in es && f in fs ensures Payouts.KeyOf(e) != Payouts.KeyOf(f) {
      assert PayoutProtocol.Explained(w, b1, e) && PayoutProtocol.Explained(w, b2, f);
      var x :| x in xs && PayoutProtocol.ReportFits(w, x, e);
      var y :| y in ys && PayoutProtocol.ReportFits(w, y, f);
    }
    forall x, a | x in b.executions && x.msg in w.batches && a in w.batches[x.msg].recipients && a !in w.inside
      ensures PayoutProtocol.Mentions(es + fs, Payouts.RowKey(x.msg, a))
    {
      var part := if x in xs then es else fs;
      assert PayoutProtocol.Mentions(part, Payouts.RowKey(x.msg, a));
      var e :| e in part && Payouts.KeyOf(e) == Payouts.RowKey(x.msg, a);
      assert e in es + fs;
    }
  }

  /** Every batch that is built from well selected tasks is good, so all of the above applies to it. */
  lemma BuiltIsGood(v: View, book: Book, balances: Balances, ts: Tasks)
    requires Configured(v, balances, ts) && |ts.service| <= BATCH_FULL && WellSelected(v, book, ts)
    ensures GoodBatch(v, book, Built(v, book, balances, ts))
  {
    BuildIsAligned(v, book, balances, ts);
    BuildIsDistinct(v, book, balances, ts);
  }
}
