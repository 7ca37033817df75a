/** The payout protocol: the ledger, the threads that act on it, their clock readings, the address book, and the
    chain that executes the messages they send. No run pays a request twice and the ledger refuses no scanned
    block, provided the clock gap of the expiry processor is covered. What the ledger says is what the chain did,
    provided besides that no payee becomes a wallet of the service while its payment is under way. */
module PayoutProtocol {
  import opened Prelude
  import opened Payouts
  import opened PayoutInvariants

  /** One external message of the hot wallet, as saved before it is sent. */
  datatype Batch = Batch(ttl: Time, recipients: set<Address>)

  /** One transaction of the hot wallet, with the hash `tx`: it executed `msg` and sent the transfers to `sent`. */
  datatype Execution = Execution(msg: Uuid, sent: set<Address>, tx: Hash)

  /** A block of the filtered shard chain. */
  datatype Block = Block(time: Time, executions: seq<Execution>)

  /** lag: AllowableBlockchainLagging. gap: how far apart the expiry processor may read its clock for the
      sync check and for the update. margin: how long before its TTL a message stops being executed;
      0 for a message whose row carries the exact TTL. payeesJoin: may an address become a wallet of the service
      while a payment to it is under way? */
  datatype Params = Params(lag: Time, gap: Time, margin: Time, payeesJoin: bool)

  /** `pending` holds the selected tasks; they are `checked` once those to addresses in the book are dropped.
      `inside` is the address book. `chain` holds the blocks after the anchor block, of which the first `saved`
      are in the database. `synced` is the clock reading of the last sync check that passed, until it is used. */
  datatype World = World(
    ledger: Ledger, pending: seq<Task>, checked: bool, inside: set<Address>, batches: map<Uuid, Batch>,
    chain: seq<Block>, saved: nat, synced: Option<Time>)

  const INITIAL := World(EMPTY, [], false, {}, map[], [], 0, None)

  ghost predicate Executes(w: World, i: int, x: Execution)
  {
    0 <= i < |w.chain| && x in w.chain[i].executions
  }

  /** A saved block executed the message. */
  ghost predicate Scanned(w: World, msg: Uuid)
  {
    exists i, x :: i < w.saved && Executes(w, i, x) && x.msg == msg
  }

  // ---------------------------------------------------------------- steps

  /** The chain runs a message of the service at most once, only before its TTL, and sends a part of it. */
  ghost predicate CanAppend(c: Params, w: World, b: Block)
  {
    && (|w.chain| > 0 ==> w.chain[|w.chain| - 1].time <= b.time)
    && (forall x | x in b.executions ::
          && x.msg in w.batches
          && x.sent <= w.batches[x.msg].recipients
          && b.time + c.margin <= w.batches[x.msg].ttl)
    && (forall x, i, y | x in b.executions && Executes(w, i, y) :: y.msg != x.msg)
    && (forall i, j | 0 <= i < j < |b.executions| :: b.executions[i].msg != b.executions[j].msg)
  }

  /** The scanner's reports on a block, in any order: one for each recipient of each executed message, failed
      exactly when the transfer was not sent. It may omit a recipient that is in the address book by now. */
  ghost predicate ReportsOn(w: World, b: Block, es: seq<Report>)
  {
    && (forall e | e in es :: Explained(w, b, e))
    && (forall i, j | 0 <= i < j < |es| :: KeyOf(es[i]) != KeyOf(es[j]))
    && (forall x, a {:trigger Mentions(es, RowKey(x.msg, a))} |
          x in b.executions && x.msg in w.batches && a in w.batches[x.msg].recipients && a !in w.inside ::
          Mentions(es, RowKey(x.msg, a)))
  }

  ghost predicate Mentions(es: seq<Report>, k: RowKey)
  {
    exists e :: e in es && KeyOf(e) == k
  }

  ghost predicate Explained(w: World, b: Block, e: Report)
  {
    exists x :: x in b.executions && ReportFits(w, x, e)
  }

  predicate ReportFits(w: World, x: Execution, e: Report)
  {
    && e.msg == x.msg && x.msg in w.batches && e.to in w.batches[x.msg].recipients
    && (e.failed <==> e.to !in x.sent) && e.txHash == x.tx
  }

  function Recipients(tasks: seq<Task>): set<Address>
  {
    set t | t in tasks :: t.destination
  }

  datatype Step =
    | Save(r: Request)
    | Select(tasks: seq<Task>)
    | Build(batch: seq<Task>)
    | Join(address: Address)
    | Create(batch: seq<Task>, msg: Uuid, ttl: Time)
    | Append(block: Block)
    | Scan(reports: seq<Report>)
    | CheckSync(now: Time)
    | Expire(now: Time, cutoff: Time)
    | Crash

  /** A payment to the address is under way: built, or sent and not yet reported on or given up. */
  ghost predicate Awaited(w: World, a: Address)
  {
    || (exists k :: k in w.ledger.rows && k.to == a && Live(w.ledger.rows[k]))
    || (w.checked && exists t :: t in w.pending && t.destination == a)
  }

  ghost predicate Next(c: Params, w: World, step: Step, w': World)
  {
    match step
    case Save(r) => w' == w.(ledger := LedgerOr(SaveRequest(w.ledger, r), w.ledger))
    case Select(tasks) => IsTaskList(w.ledger, tasks) && w' == w.(pending := tasks, checked := false)
    case Build(batch) =>
      && PartOf(batch, w.pending) && (forall t | t in batch :: t.destination !in w.inside)
      && w' == w.(pending := batch, checked := true)
    case Join(a) => (c.payeesJoin || !Awaited(w, a)) && w' == w.(inside := w.inside + {a})
    case Create(batch, msg, ttl) =>
      // the uuid is half of the message hash, so it is new
      && w.checked && PartOf(batch, w.pending) && msg !in w.batches
      && CreateBatch(w.ledger, batch, msg, ttl).Ok?
      && w' == w.(ledger := CreateBatch(w.ledger, batch, msg, ttl).value, pending := [], checked := false,
                  batches := w.batches[msg := Batch(ttl, Recipients(batch))])
    case Append(b) => CanAppend(c, w, b) && w' == w.(chain := w.chain + [b])
    case Scan(es) =>
      && w.saved < |w.chain| && ReportsOn(w, w.chain[w.saved], es)
      && ApplyReports(w.ledger, es).Ok?
      && w' == w.(ledger := ApplyReports(w.ledger, es).value, saved := w.saved + 1)
    case CheckSync(now) =>
      && 0 < w.saved <= |w.chain| && now - w.chain[w.saved - 1].time < c.lag
      && w' == w.(synced := Some(now))
    case Expire(now, cutoff) =>
      && cutoff == now - c.lag && w.synced.Some? && w.synced.value <= now <= w.synced.value + c.gap
      && w' == Expiry(w, cutoff)
    case Crash => w' == w.(pending := [], checked := false, synced := None)
  }

  ghost predicate Run(c: Params, ws: seq<World>, steps: seq<Step>)
  {
    && |ws| == |steps| + 1
    && ws[0] == INITIAL
    && forall i | 0 <= i < |steps| :: Next(c, ws[i], steps[i], ws[i + 1])
  }

  // ---------------------------------------------------------------- what is promised

  /** Execution `x` pays request `q` through the row of recipient `a`. */
  ghost predicate Pays(w: World, x: Execution, a: Address, q: QueryId)
  {
    a in x.sent && RowKey(x.msg, a) in w.ledger.rows && w.ledger.rows[RowKey(x.msg, a)].queryId == q
  }

  /** Execution `x` did not send the payment of request `q` to `a`. */
  ghost predicate Omits(w: World, x: Execution, a: Address, q: QueryId)
  {
    a !in x.sent && RowKey(x.msg, a) in w.ledger.rows && w.ledger.rows[RowKey(x.msg, a)].queryId == q
  }

  /** No request is paid by two transfers on the chain, whether or not their blocks are scanned yet. */
  ghost predicate PaidAtMostOnce(w: World)
  {
    forall i, x, a, j, y, b, q |
      Executes(w, i, x) && Pays(w, x, a, q) && Executes(w, j, y) && Pays(w, y, b, q) ::
      i == j && x == y && a == b
  }

  /** The message of this row did not run, and every block that could run it is already saved. */
  ghost predicate Dead(c: Params, w: World, k: RowKey)
    requires k in w.ledger.rows
  {
    && (forall i, x | Executes(w, i, x) :: x.msg != k.msg)
    && 0 < w.saved <= |w.chain| && w.ledger.rows[k].expiredAt < w.chain[w.saved - 1].time + c.margin
  }

  ghost predicate ExpiredIsDead(c: Params, w: World)
  {
    forall k | k in w.ledger.rows && Expired(w.ledger.rows[k]) :: Dead(c, w, k)
  }

  /** The reports of the next block, whatever their order, are accepted. */
  ghost predicate NeverRefused(w: World)
  {
    w.saved < |w.chain| ==>
      forall es | ReportsOn(w, w.chain[w.saved], es) :: ApplyReports(w.ledger, es).Ok?
  }

  /** A transaction with this hash, in a scanned block, paid the request. */
  ghost predicate PaidBy(w: World, q: QueryId, tx: Hash)
  {
    exists i, x, a :: i < w.saved && Executes(w, i, x) && Pays(w, x, a, q) && x.tx == tx
  }

  /** A transaction with this hash, in a scanned block, executed a batch with the request and did not pay it. */
  ghost predicate OmittedBy(w: World, q: QueryId, tx: Hash)
  {
    exists i, x, a :: i < w.saved && Executes(w, i, x) && Omits(w, x, a, q) && x.tx == tx
  }

  /** The status given for a request is what the scanned part of the chain did for it, with the hash of the
      transaction that did it. */
  ghost predicate StatusTellsTheChain(w: World)
  {
    forall q | q in w.ledger.requests && !w.ledger.requests[q].isInternal :: StatusTells(w, q)
  }

  ghost predicate StatusTells(w: World, q: QueryId)
  {
    && StatusOf(w.ledger, q).Ok?
    && (StatusOf(w.ledger, q).value.Processed? <==> exists tx :: PaidBy(w, q, tx))
    && (StatusOf(w.ledger, q).value.Failed? <==> exists tx :: OmittedBy(w, q, tx))
    && (forall tx | PaidBy(w, q, tx) :: StatusOf(w.ledger, q).value == Processed(Some(tx)))
    && (forall tx | OmittedBy(w, q, tx) :: StatusOf(w.ledger, q).value == Failed(Some(tx)))
  }

  /** What holds even when payees join the service. */
  ghost predicate PaysOnce(w: World)
  {
    PaidAtMostOnce(w) && NeverRefused(w)
  }

  ghost predicate Safe(c: Params, w: World)
  {
    PaysOnce(w) && ExpiredIsDead(c, w) && StatusTellsTheChain(w)
  }

  // ---------------------------------------------------------------- the invariant

  ghost predicate ChainOk(c: Params, w: World)
  {
    && w.saved <= |w.chain|
    && (forall i, j | 0 <= i <= j < |w.chain| :: w.chain[i].time <= w.chain[j].time)
    && (forall i, x | Executes(w, i, x) ::
          && x.msg in w.batches && x.sent <= w.batches[x.msg].recipients
          && w.chain[i].time + c.margin <= w.batches[x.msg].ttl)
    && (forall i, x, j, y | Executes(w, i, x) && Executes(w, j, y) && x.msg == y.msg :: i == j && x == y)
  }

  ghost predicate RowsMatchBatches(w: World)
  {
    forall k :: (k in w.ledger.rows <==> k.msg in w.batches && k.to in w.batches[k.msg].recipients)
             && (k in w.ledger.rows ==> w.ledger.rows[k].expiredAt == w.batches[k.msg].ttl)
  }

  /** The scanner may have kept silent about this payee. */
  predicate Excused(c: Params, w: World, a: Address)
  {
    c.payeesJoin && a in w.inside
  }

  /** The row tells what the execution did for it, or nothing. */
  predicate Tells(w: World, x: Execution, k: RowKey)
    requires k in w.ledger.rows
  {
    Settled(w.ledger.rows[k]) ==>
      (w.ledger.rows[k].failed <==> k.to !in x.sent) && w.ledger.rows[k].txHash == Some(x.tx)
  }

  /** A scanned block executed the message of the row. */
  ghost predicate RanInScanned(w: World, i: int, x: Execution, k: RowKey)
  {
    i < w.saved && Executes(w, i, x) && k in w.ledger.rows && k.msg == x.msg
  }

  ghost predicate ScannedAreSettled(c: Params, w: World)
  {
    forall i, x, k | RanInScanned(w, i, x, k) ::
      Tells(w, x, k) && (Settled(w.ledger.rows[k]) || Excused(c, w, k.to))
  }

  ghost predicate SettledWereScanned(w: World)
  {
    forall k | k in w.ledger.rows && Settled(w.ledger.rows[k]) ::
      Scanned(w, k.msg)
  }

  /** A row given up is dead, or the scanner kept silent about its payee. */
  ghost predicate GivenUpOk(c: Params, w: World)
  {
    forall k | k in w.ledger.rows && Expired(w.ledger.rows[k]) ::
      Dead(c, w, k) || (Scanned(w, k.msg) && Excused(c, w, k.to))
  }

  /** A row that was given up although its message ran. */
  ghost predicate Forgotten(w: World, k: RowKey)
  {
    k in w.ledger.rows && Expired(w.ledger.rows[k]) && Scanned(w, k.msg)
  }

  /** Another row of the same request. */
  predicate Siblings(w: World, k: RowKey, o: RowKey)
  {
    k in w.ledger.rows && o in w.ledger.rows && k != o && w.ledger.rows[k].queryId == w.ledger.rows[o].queryId
  }

  /** The request of a forgotten row has no other row that ran or may run. */
  ghost predicate ForgottenIsLast(w: World)
  {
    forall k, o | Forgotten(w, k) && Siblings(w, k, o) :: Expired(w.ledger.rows[o]) && !Scanned(w, o.msg)
  }

  predicate OfTask(w: World, k: RowKey, t: Task)
  {
    k in w.ledger.rows && w.ledger.rows[k].queryId == t.queryId
  }

  /** And it is in no batch to come. */
  ghost predicate PendingNotForgotten(w: World)
  {
    w.checked ==> forall t, k | t in w.pending && OfTask(w, k, t) :: !Scanned(w, k.msg)
  }

  /** Unless payees may join, those with a payment under way are outside. */
  ghost predicate AwaitedAreOutside(c: Params, w: World)
  {
    !c.payeesJoin ==> forall a | Awaited(w, a) :: a !in w.inside
  }

  ghost predicate SyncOk(c: Params, w: World)
  {
    w.synced.Some? ==> 0 < w.saved <= |w.chain| && w.synced.value - w.chain[w.saved - 1].time < c.lag
  }

  ghost predicate WorldInv(c: Params, w: World)
  {
    && StateInv(State(w.ledger, w.pending))
    && ChainOk(c, w) && RowsMatchBatches(w) && ScannedAreSettled(c, w) && SettledWereScanned(w)
    && GivenUpOk(c, w) && SyncOk(c, w)
    && ForgottenIsLast(w) && PendingNotForgotten(w) && AwaitedAreOutside(c, w)
  }

  // ---------------------------------------------------------------- scanning a block

  /** The reports have different keys and each is about a live row. */
  ghost predicate Acceptable(p: Ledger, es: seq<Report>)
  {
    && (forall e | e in es :: KeyOf(e) in p.rows && Live(p.rows[KeyOf(e)]))
    && (forall i, j | 0 <= i < j < |es| :: KeyOf(es[i]) != KeyOf(es[j]))
  }

  /** Exactly the rows the reports are about are settled. */
  ghost predicate RowsSettled(p: Ledger, es: seq<Report>, p': Ledger)
  {
    && p'.rows.Keys == p.rows.Keys
    && (forall k | k in p.rows && !Mentions(es, k) :: p'.rows[k] == p.rows[k])
    && (forall e | e in es :: KeyOf(e) in p.rows && p'.rows[KeyOf(e)] == Settle(p.rows[KeyOf(e)], e))
  }

  lemma {:induction false} ApplyAcceptable(p: Ledger, es: seq<Report>)
    requires Acceptable(p, es)
    ensures ApplyReports(p, es).Ok? && RowsSettled(p, es, ApplyReports(p, es).value)
    decreases |es|
  {
    if es != [] {
      var n := |es| - 1;
      var init, last := es[..n], es[n];
      assert forall e :: e in es <==> e in init || e == last;
      ApplyAcceptable(p, init);
      assert !Mentions(init, KeyOf(last));
      assert forall k :: Mentions(es, k) <==> Mentions(init, k) || k == KeyOf(last);
    }
  }

  /** A row whose message an unscanned block executes is live. */
  lemma UnscannedIsLive(c: Params, w: World, i: int, x: Execution, k: RowKey)
    requires ChainOk(c, w) && SettledWereScanned(w) && GivenUpOk(c, w)
    requires w.saved <= i && Executes(w, i, x) && k in w.ledger.rows && k.msg == x.msg && RowOk(w.ledger, k)
    ensures Live(w.ledger.rows[k]) && !Scanned(w, k.msg)
  {
  }

  lemma ReportsAreAcceptable(c: Params, w: World, es: seq<Report>)
    requires WorldInv(c, w) && w.saved < |w.chain| && ReportsOn(w, w.chain[w.saved], es)
    ensures Acceptable(w.ledger, es)
  {
    forall e | e in es ensures KeyOf(e) in w.ledger.rows && Live(w.ledger.rows[KeyOf(e)]) {
      assert Explained(w, w.chain[w.saved], e);
      var x :| x in w.chain[w.saved].executions && ReportFits(w, x, e);
      assert Executes(w, w.saved, x);
      assert RowOk(w.ledger, KeyOf(e));
      UnscannedIsLive(c, w, w.saved, x, KeyOf(e));
    }
  }

  /** Which row changed in a scan, and why. */
  lemma ScannedRow(w: World, b: Block, es: seq<Report>, p': Ledger, k: RowKey)
    requires ReportsOn(w, b, es) && RowsSettled(w.ledger, es, p') && k in p'.rows
    ensures p'.rows[k].expiredAt == w.ledger.rows[k].expiredAt
    ensures p'.rows[k] != w.ledger.rows[k] ==> exists x :: x in b.executions && x.msg == k.msg
    ensures Expired(p'.rows[k]) ==> p'.rows[k] == w.ledger.rows[k]
  {
    if Mentions(es, k) {
      var e :| e in es && KeyOf(e) == k;
      assert Explained(w, b, e);
      var x :| x in b.executions && ReportFits(w, x, e);
    }
  }

  lemma ScanSettles(c: Params, w: World, es: seq<Report>, w': World)
    requires WorldInv(c, w) && w.saved < |w.chain| && ReportsOn(w, w.chain[w.saved], es)
    requires RowsSettled(w.ledger, es, w'.ledger)
    requires w'.chain == w.chain && w'.saved == w.saved + 1 && w'.inside == w.inside
    ensures ScannedAreSettled(c, w')
  {
    forall i, x, k | RanInScanned(w', i, x, k)
      ensures Tells(w', x, k) && (Settled(w'.ledger.rows[k]) || Excused(c, w', k.to))
    {
      assert Executes(w, i, x);
      if i == w.saved {
        NewlySettled(c, w, es, w'.ledger, x, k);
      } else {
        assert RanInScanned(w, i, x, k);
        SettledBefore(c, w, es, w'.ledger, i, x, k);
      }
    }
  }

  /** A row of a message in the scanned block. */
  lemma NewlySettled(c: Params, w: World, es: seq<Report>, p': Ledger, x: Execution, k: RowKey)
    requires WorldInv(c, w) && w.saved < |w.chain| && ReportsOn(w, w.chain[w.saved], es)
    requires RowsSettled(w.ledger, es, p') && Executes(w, w.saved, x) && k in p'.rows && k.msg == x.msg
    ensures Tells(w.(ledger := p'), x, k)
    ensures Settled(p'.rows[k]) || Excused(c, w, k.to)
  {
    assert RowOk(w.ledger, k);
    UnscannedIsLive(c, w, w.saved, x, k);
    assert Awaited(w, k.to);
    assert RowKey(x.msg, k.to) == k;
    assert k.to !in w.inside ==> Mentions(es, RowKey(x.msg, k.to));
    if Mentions(es, k) {
      var e :| e in es && KeyOf(e) == k;
      assert Explained(w, w.chain[w.saved], e);
      var y :| y in w.chain[w.saved].executions && ReportFits(w, y, e);
      assert Executes(w, w.saved, y);
    }
  }

  /** A row of a message in an earlier block. */
  lemma SettledBefore(c: Params, w: World, es: seq<Report>, p': Ledger, i: int, x: Execution, k: RowKey)
    requires ChainOk(c, w) && w.saved < |w.chain| && ReportsOn(w, w.chain[w.saved], es)
    requires RowsSettled(w.ledger, es, p') && i < w.saved && Executes(w, i, x) && k in p'.rows && k.msg == x.msg
    ensures p'.rows[k] == w.ledger.rows[k]
  {
    ScannedRow(w, w.chain[w.saved], es, p', k);
    assert forall y | y in w.chain[w.saved].executions :: Executes(w, w.saved, y);
  }

  lemma ScanScans(c: Params, w: World, es: seq<Report>, p': Ledger)
    requires SettledWereScanned(w) && w.saved < |w.chain| && ReportsOn(w, w.chain[w.saved], es)
    requires RowsSettled(w.ledger, es, p')
    ensures SettledWereScanned(w.(ledger := p', saved := w.saved + 1))
  {
    var w' := w.(ledger := p', saved := w.saved + 1);
    forall k | k in p'.rows && Settled(p'.rows[k]) ensures Scanned(w', k.msg) {
      ScannedRow(w, w.chain[w.saved], es, p', k);
      if p'.rows[k] == w.ledger.rows[k] {
        var i, x :| i < w.saved && Executes(w, i, x) && x.msg == k.msg;
        assert i < w'.saved && Executes(w', i, x);
      } else {
        var x :| x in w.chain[w.saved].executions && x.msg == k.msg;
        assert w.saved < w'.saved && Executes(w', w.saved, x);
      }
    }
  }

  lemma ScanKeepsDead(c: Params, w: World, es: seq<Report>, p': Ledger)
    requires ChainOk(c, w) && GivenUpOk(c, w) && w.saved < |w.chain| && ReportsOn(w, w.chain[w.saved], es)
    requires RowsSettled(w.ledger, es, p')
    ensures GivenUpOk(c, w.(ledger := p', saved := w.saved + 1))
  {
    var w' := w.(ledger := p', saved := w.saved + 1);
    forall i, x ensures Executes(w', i, x) <==> Executes(w, i, x) {}
    forall k | k in p'.rows && Expired(p'.rows[k])
      ensures Dead(c, w', k) || (Scanned(w', k.msg) && Excused(c, w', k.to))
    {
      ScannedRow(w, w.chain[w.saved], es, p', k);
      if Dead(c, w, k) {
        assert w.chain[w.saved - 1].time <= w.chain[w.saved].time;
      } else {
        SameScanned(w, w', k.msg);
      }
    }
  }

  /** Nothing about given-up rows changes: their messages are not in the scanned block. */
  lemma ExpiredNotIn(c: Params, w: World, es: seq<Report>, w': World, k: RowKey)
    requires WorldInv(c, w) && w.saved < |w.chain| && ReportsOn(w, w.chain[w.saved], es)
    requires RowsSettled(w.ledger, es, w'.ledger) && w'.chain == w.chain && w'.saved == w.saved + 1
    requires k in w.ledger.rows && Expired(w.ledger.rows[k])
    ensures w'.ledger.rows[k] == w.ledger.rows[k]
    ensures Scanned(w', k.msg) ==> Scanned(w, k.msg)
  {
    assert RowOk(w.ledger, k);
    forall x | Executes(w, w.saved, x) ensures x.msg != k.msg {
      if x.msg == k.msg { UnscannedIsLive(c, w, w.saved, x, k); }
    }
    assert forall x | x in w.chain[w.saved].executions :: Executes(w, w.saved, x);
    ScannedRow(w, w.chain[w.saved], es, w'.ledger, k);
    if Scanned(w', k.msg) {
      var i, x :| i < w'.saved && Executes(w', i, x) && x.msg == k.msg;
      assert Executes(w, i, x);
    }
  }

  lemma ScanKeepsForgotten(c: Params, w: World, es: seq<Report>, w': World)
    requires WorldInv(c, w) && w.saved < |w.chain| && ReportsOn(w, w.chain[w.saved], es)
    requires RowsSettled(w.ledger, es, w'.ledger) && w'.chain == w.chain && w'.saved == w.saved + 1
    ensures ForgottenIsLast(w')
  {
    forall k, o | Forgotten(w', k) && Siblings(w', k, o) ensures Expired(w'.ledger.rows[o]) && !Scanned(w', o.msg) {
      ScannedRow(w, w.chain[w.saved], es, w'.ledger, k);
      ScannedRow(w, w.chain[w.saved], es, w'.ledger, o);
      ExpiredNotIn(c, w, es, w', k);
      assert Forgotten(w, k) && Siblings(w, k, o);
      ExpiredNotIn(c, w, es, w', o);
    }
  }

  lemma ScanKeepsPending(c: Params, w: World, es: seq<Report>, w': World)
    requires WorldInv(c, w) && w.saved < |w.chain| && ReportsOn(w, w.chain[w.saved], es)
    requires RowsSettled(w.ledger, es, w'.ledger) && w'.chain == w.chain && w'.saved == w.saved + 1
    requires w'.pending == w.pending && w'.checked == w.checked
    ensures PendingNotForgotten(w')
  {
    forall t, k | t in w.pending && OfTask(w', k, t) ensures w.checked ==> !Scanned(w', k.msg) {
      ScannedRow(w, w.chain[w.saved], es, w'.ledger, k);
      assert OfTask(w, k, t);
      assert RowOk(w.ledger, k) && Unclaimed(w.ledger, t);
      ExpiredNotIn(c, w, es, w', k);
    }
  }

  /** Settling rows leaves fewer payees awaited. */
  lemma FewerAwaited(c: Params, w: World, w': World)
    requires AwaitedAreOutside(c, w) && w'.inside == w.inside
    requires w'.checked ==> w.checked && w'.pending == w.pending
    requires forall k | k in w'.ledger.rows && Live(w'.ledger.rows[k]) :: k in w.ledger.rows && Live(w.ledger.rows[k])
    ensures AwaitedAreOutside(c, w')
  {
    forall a | Awaited(w', a) ensures Awaited(w, a) {}
  }

  lemma ScanKeeps(c: Params, w: World, es: seq<Report>, w': World)
    requires WorldInv(c, w) && Next(c, w, Scan(es), w')
    ensures WorldInv(c, w')
  {
    var p' := w'.ledger;
    assert StateInv(State(p', w.pending)) by {
      PayoutInvariants.NextKeeps(State(w.ledger, w.pending), Apply(es), State(p', w.pending));
    }
    assert Acceptable(w.ledger, es) by { ReportsAreAcceptable(c, w, es); }
    assert RowsSettled(w.ledger, es, p') by { ApplyAcceptable(w.ledger, es); }
    ScanSettles(c, w, es, w');
    ScanScans(c, w, es, p');
    ScanKeepsDead(c, w, es, p');
    ScanKeepsForgotten(c, w, es, w');
    ScanKeepsPending(c, w, es, w');
    FewerAwaited(c, w, w');
    assert RowsMatchBatches(w') by {
      forall k | k in p'.rows ensures p'.rows[k].expiredAt == w.ledger.rows[k].expiredAt {
        ScannedRow(w, w.chain[w.saved], es, p', k);
      }
    }
    assert ChainOk(c, w') by { SameChain(c, w, w'); }
    assert SyncOk(c, w') by {
      if w.synced.Some? { assert w.chain[w.saved - 1].time <= w.chain[w.saved].time; }
    }
  }

  lemma SameChain(c: Params, w: World, w': World)
    requires ChainOk(c, w) && w'.chain == w.chain && w'.batches == w.batches && w'.saved <= |w'.chain|
    ensures ChainOk(c, w')
  {
    forall i, x ensures Executes(w', i, x) <==> Executes(w, i, x) {}
  }

  lemma SameScanned(w: World, w': World, msg: Uuid)
    requires w'.chain == w.chain && w.saved <= w'.saved && Scanned(w, msg)
    ensures Scanned(w', msg)
  {
    var i, x :| i < w.saved && Executes(w, i, x) && x.msg == msg;
    assert i < w'.saved && Executes(w', i, x);
  }

  // ---------------------------------------------------------------- the other steps

  /** The heart of the matter: a sync check that passed at `s` and an update at most `gap` later give up
      only messages that no unsaved block can execute any more. The service clock itself cancels out. */
  lemma ExpiryWindow(c: Params, ttl: Time, lastSaved: Time, s: Time, now: Time)
    requires c.gap <= c.margin
    requires s - lastSaved < c.lag && s <= now <= s + c.gap && ttl < now - c.lag
    ensures ttl < lastSaved + c.margin
  {
  }

  function Expiry(w: World, cutoff: Time): World
  {
    w.(ledger := SetExpired(w.ledger, cutoff), synced := None)
  }

  lemma ExpireKillsDead(c: Params, w: World, now: Time, cutoff: Time)
    requires c.gap <= c.margin && WorldInv(c, w)
    requires w.synced.Some? && w.synced.value <= now <= w.synced.value + c.gap
    requires cutoff == now - c.lag
    ensures GivenUpOk(c, Expiry(w, cutoff))
  {
    var w' := Expiry(w, cutoff);
    var p' := w'.ledger;
    forall i, x ensures Executes(w', i, x) <==> Executes(w, i, x) {}
    forall k | k in p'.rows && Expired(p'.rows[k])
      ensures Dead(c, w', k) || (Scanned(w', k.msg) && Excused(c, w', k.to))
    {
      if Scanned(w, k.msg) {
        SameScanned(w, w', k.msg);
        ForgottenIsExcused(c, w, k);
      }
      if Overdue(w.ledger.rows[k], cutoff) {
        ExpiryWindow(c, w.ledger.rows[k].expiredAt, w.chain[w.saved - 1].time, w.synced.value, now);
        if !Scanned(w, k.msg) { OverdueNotToCome(c, w, k); }
      }
    }
  }

  /** A row that is not settled although its message is scanned has a payee the scanner kept silent about. */
  lemma ForgottenIsExcused(c: Params, w: World, k: RowKey)
    requires WorldInv(c, w) && k in w.ledger.rows && Scanned(w, k.msg)
    ensures Settled(w.ledger.rows[k]) || Excused(c, w, k.to)
    ensures Settled(w.ledger.rows[k]) ==> !Live(w.ledger.rows[k])
  {
    assert RowOk(w.ledger, k);
    var i, x :| i < w.saved && Executes(w, i, x) && x.msg == k.msg;
    assert RanInScanned(w, i, x, k);
  }

  lemma OverdueNotToCome(c: Params, w: World, k: RowKey)
    requires ChainOk(c, w) && RowsMatchBatches(w) && k in w.ledger.rows && !Scanned(w, k.msg)
    requires 0 < w.saved <= |w.chain| && w.ledger.rows[k].expiredAt < w.chain[w.saved - 1].time + c.margin
    ensures Dead(c, w, k)
  {
    forall i, x | Executes(w, i, x) ensures x.msg != k.msg {
      if i >= w.saved { assert w.chain[w.saved - 1].time <= w.chain[i].time; }
    }
  }

  lemma ExpireKeepsForgotten(c: Params, w: World, cutoff: Time)
    requires WorldInv(c, w)
    ensures ForgottenIsLast(Expiry(w, cutoff)) && PendingNotForgotten(Expiry(w, cutoff))
  {
    var w' := Expiry(w, cutoff);
    forall m ensures Scanned(w', m) <==> Scanned(w, m) { SameScans(w, w', m); }
    forall k, o | Forgotten(w', k) && Siblings(w', k, o) ensures Expired(w'.ledger.rows[o]) && !Scanned(w', o.msg) {
      assert Siblings(w, k, o) && Siblings(w, o, k);
      if Overdue(w.ledger.rows[k], cutoff) {
        assert RowOk(w.ledger, k);
        assert Stands(w.ledger, k, w.ledger.rows[k].queryId);
        assert !Stands(w.ledger, o, w.ledger.rows[k].queryId);
        assert !Forgotten(w, o);
      } else {
        assert Forgotten(w, k);
      }
    }
    forall t, k | t in w'.pending && OfTask(w', k, t) ensures w'.checked ==> !Scanned(w', k.msg) {
      assert OfTask(w, k, t);
    }
  }

  lemma SameScans(w: World, w': World, msg: Uuid)
    requires w.saved == w'.saved <= |w.chain| && w.chain <= w'.chain
    ensures Scanned(w', msg) <==> Scanned(w, msg)
  {
    forall i, x | i < w.saved ensures Executes(w', i, x) <==> Executes(w, i, x) {}
  }

  /** Settled rows are never overdue, so nothing about them changes. */
  lemma ExpireSparesSettled(p: Ledger, cutoff: Time)
    requires forall k | k in p.rows :: RowOk(p, k)
    ensures var p' := SetExpired(p, cutoff);
      && p'.rows.Keys == p.rows.Keys
      && (forall k | k in p.rows :: p'.rows[k].expiredAt == p.rows[k].expiredAt)
      && (forall k | k in p.rows :: Settled(p'.rows[k]) <==> Settled(p.rows[k]))
      && (forall k | k in p.rows && Settled(p.rows[k]) :: p'.rows[k] == p.rows[k])
  {
    forall k | k in p.rows && Settled(p.rows[k]) ensures !Live(p.rows[k]) { assert RowOk(p, k); }
  }

  /** Transactions that keep settled rows as they are keep what relates them to the scanned chain. */
  lemma SettledUntouched(c: Params, w: World, w': World)
    requires ScannedAreSettled(c, w) && SettledWereScanned(w)
    requires w'.chain == w.chain && w'.saved == w.saved && w.inside <= w'.inside
    requires forall k | k in w.ledger.rows && Settled(w.ledger.rows[k]) ::
               k in w'.ledger.rows && w'.ledger.rows[k] == w.ledger.rows[k]
    requires forall k | k in w'.ledger.rows && Settled(w'.ledger.rows[k]) ::
               k in w.ledger.rows && Settled(w.ledger.rows[k])
    requires forall i, x, k | RanInScanned(w', i, x, k) :: k in w.ledger.rows
    ensures ScannedAreSettled(c, w') && SettledWereScanned(w')
  {
    forall i, x ensures Executes(w', i, x) <==> Executes(w, i, x) {}
    forall i, x, k | RanInScanned(w', i, x, k)
      ensures Tells(w', x, k) && (Settled(w'.ledger.rows[k]) || Excused(c, w', k.to))
    {
      assert RanInScanned(w, i, x, k);
    }
    forall k | k in w'.ledger.rows && Settled(w'.ledger.rows[k]) ensures Scanned(w', k.msg) {
      SameScanned(w, w', k.msg);
    }
  }

  lemma ExpireKeepsRows(c: Params, w: World, cutoff: Time)
    requires RowsMatchBatches(w) && ScannedAreSettled(c, w) && SettledWereScanned(w)
    requires forall k | k in w.ledger.rows :: RowOk(w.ledger, k)
    ensures var w' := Expiry(w, cutoff);
      RowsMatchBatches(w') && ScannedAreSettled(c, w') && SettledWereScanned(w')
  {
    ExpireSparesSettled(w.ledger, cutoff);
    SettledUntouched(c, w, Expiry(w, cutoff));
  }

  lemma ExpireKeepsState(s: State, cutoff: Time)
    requires StateInv(s)
    ensures StateInv(State(SetExpired(s.ledger, cutoff), s.pending))
  {
    PayoutInvariants.NextKeeps(s, PayoutInvariants.Expire(cutoff), State(SetExpired(s.ledger, cutoff), s.pending));
  }

  lemma ExpireKeeps(c: Params, w: World, now: Time, cutoff: Time)
    requires c.gap <= c.margin && cutoff == now - c.lag
    requires WorldInv(c, w) && w.synced.Some? && w.synced.value <= now <= w.synced.value + c.gap
    ensures WorldInv(c, Expiry(w, cutoff))
  {
    SameChain(c, w, Expiry(w, cutoff));
    ExpireKillsDead(c, w, now, cutoff);
    ExpireKeepsRows(c, w, cutoff);
    ExpireKeepsForgotten(c, w, cutoff);
    FewerAwaited(c, w, Expiry(w, cutoff));
    ExpireKeepsState(State(w.ledger, w.pending), cutoff);
  }

  /** The rows of a new batch are live and belong to a message the chain has not seen. */
  lemma NewRows(w: World, batch: seq<Task>, msg: Uuid, ttl: Time, w': World)
    requires RowsMatchBatches(w) && BatchAdded(w.ledger, batch, msg, ttl, w'.ledger)
    requires msg !in w.batches && w'.batches == w.batches[msg := Batch(ttl, Recipients(batch))]
    ensures RowsMatchBatches(w')
    ensures forall k | k in w'.ledger.rows && k !in w.ledger.rows ::
              k.msg == msg && Live(w'.ledger.rows[k]) && !Settled(w'.ledger.rows[k])
  {
    assert forall a :: a in Recipients(batch) <==> PaysTo(batch, a);
    forall k | k in w'.ledger.rows && k !in w.ledger.rows
      ensures k.msg == msg && w'.ledger.rows[k].expiredAt == ttl
      ensures Live(w'.ledger.rows[k]) && !Settled(w'.ledger.rows[k])
    {
      var t :| t in batch && t.destination == k.to;
      assert k == RowKey(msg, t.destination);
    }
  }

  lemma CreateKeepsDead(c: Params, w: World, w': World)
    requires GivenUpOk(c, w) && w'.chain == w.chain && w'.saved == w.saved && w.inside <= w'.inside
    requires forall k | k in w.ledger.rows :: k in w'.ledger.rows && w'.ledger.rows[k] == w.ledger.rows[k]
    requires forall k | k in w'.ledger.rows && k !in w.ledger.rows :: Live(w'.ledger.rows[k])
    ensures GivenUpOk(c, w')
  {
    forall i, x ensures Executes(w', i, x) <==> Executes(w, i, x) {}
    forall k | k in w'.ledger.rows && Expired(w'.ledger.rows[k])
      ensures Dead(c, w', k) || (Scanned(w', k.msg) && Excused(c, w', k.to))
    {
      if Scanned(w, k.msg) { SameScanned(w, w', k.msg); } else { assert Dead(c, w, k); }
    }
  }

  /** No task of the batch is of a request with a row whose message ran, and the message of the batch is new. */
  lemma CreateKeepsForgotten(w: World, batch: seq<Task>, msg: Uuid, ttl: Time, w': World)
    requires ForgottenIsLast(w) && PendingNotForgotten(w) && w.checked && PartOf(batch, w.pending)
    requires BatchAdded(w.ledger, batch, msg, ttl, w'.ledger)
    requires w'.chain == w.chain && w.saved == w'.saved <= |w.chain| && !Scanned(w, msg)
    ensures ForgottenIsLast(w')
  {
    forall k, o | Forgotten(w', k) && Siblings(w', k, o) ensures Expired(w'.ledger.rows[o]) && !Scanned(w', o.msg) {
      SameScans(w, w', k.msg);
      SameScans(w, w', o.msg);
      SameScans(w, w', msg);
      NewRowOfTask(w, batch, msg, ttl, w', k);
      NewRowOfTask(w, batch, msg, ttl, w', o);
      ForgottenNotClaimed(w, batch, k);
      assert Siblings(w, k, o);
    }
  }

  lemma ForgottenNotClaimed(w: World, batch: seq<Task>, k: RowKey)
    requires PendingNotForgotten(w) && w.checked && PartOf(batch, w.pending)
    ensures k in w.ledger.rows && Scanned(w, k.msg) ==> forall t | t in batch :: t.queryId != w.ledger.rows[k].queryId
  {
    forall t | t in batch ensures t in w.pending && (OfTask(w, k, t) ==> !Scanned(w, k.msg)) {}
  }

  /** A row that is not old is of a task of the batch. */
  lemma NewRowOfTask(w: World, batch: seq<Task>, msg: Uuid, ttl: Time, w': World, o: RowKey)
    requires BatchAdded(w.ledger, batch, msg, ttl, w'.ledger) && o in w'.ledger.rows
    ensures o in w.ledger.rows || (o.msg == msg && exists t :: t in batch && t.queryId == w'.ledger.rows[o].queryId)
    ensures o in w.ledger.rows ==> w'.ledger.rows[o] == w.ledger.rows[o]
  {
    if o !in w.ledger.rows {
      var t :| t in batch && t.destination == o.to;
      assert o == RowKey(msg, t.destination);
    }
  }

  lemma CreateKeepsOutside(c: Params, w: World, batch: seq<Task>, msg: Uuid, ttl: Time, w': World)
    requires AwaitedAreOutside(c, w) && w.checked && PartOf(batch, w.pending)
    requires BatchAdded(w.ledger, batch, msg, ttl, w'.ledger) && w'.inside == w.inside && !w'.checked
    ensures AwaitedAreOutside(c, w')
  {
    forall a | Awaited(w', a) ensures Awaited(w, a) {
      var k :| k in w'.ledger.rows && k.to == a && Live(w'.ledger.rows[k]);
      if k !in w.ledger.rows {
        var t :| t in batch && t.destination == a;
        assert t in w.pending;
      }
    }
  }

  lemma CreateKeepsChain(c: Params, w: World, msg: Uuid, b: Batch, w': World)
    requires ChainOk(c, w) && w'.chain == w.chain && w'.saved == w.saved
    requires msg !in w.batches && w'.batches == w.batches[msg := b]
    ensures ChainOk(c, w')
    ensures forall i, x | Executes(w, i, x) :: x.msg != msg
  {
    forall i, x ensures Executes(w', i, x) <==> Executes(w, i, x) {}
  }

  lemma CreateKeeps(c: Params, w: World, batch: seq<Task>, msg: Uuid, ttl: Time, w': World)
    requires WorldInv(c, w) && Next(c, w, Step.Create(batch, msg, ttl), w')
    ensures WorldInv(c, w')
  {
    var s := State(w.ledger, w.pending);
    assert StateInv(State(w'.ledger, [])) by {
      PayoutInvariants.NextKeeps(s, PayoutInvariants.Create(batch, msg, ttl), State(w'.ledger, []));
    }
    assert BatchAdded(w.ledger, batch, msg, ttl, w'.ledger) by {
      PendingIsClaimable(s, batch);
      CreateBatchAdds(w.ledger, batch, msg, ttl);
    }
    NewRows(w, batch, msg, ttl, w');
    CreateKeepsChain(c, w, msg, Batch(ttl, Recipients(batch)), w');
    CreateKeepsDead(c, w, w');
    assert !Scanned(w, msg);
    CreateKeepsForgotten(w, batch, msg, ttl, w');
    CreateKeepsOutside(c, w, batch, msg, ttl, w');
    forall i, x ensures Executes(w', i, x) <==> Executes(w, i, x) {}
    SettledUntouched(c, w, w');
  }

  lemma AppendKeeps(c: Params, w: World, b: Block, w': World)
    requires WorldInv(c, w) && Next(c, w, Append(b), w')
    ensures WorldInv(c, w')
  {
    AppendKeepsChain(c, w, b, w');
    AppendKeepsRows(c, w, b, w');
    SameForgotten(w, w');
    FewerAwaited(c, w, w');
  }

  /** Steps that leave the rows and the scanned part of the chain as they are. */
  lemma SameForgotten(w: World, w': World)
    requires ForgottenIsLast(w) && PendingNotForgotten(w) && w.saved == w'.saved <= |w.chain| && w.chain <= w'.chain
    requires w'.ledger.rows == w.ledger.rows
    ensures ForgottenIsLast(w')
    ensures w'.checked == w.checked && w'.pending == w.pending ==> PendingNotForgotten(w')
  {
    forall m ensures Scanned(w', m) <==> Scanned(w, m) { SameScans(w, w', m); }
    forall k, o | Forgotten(w', k) && Siblings(w', k, o) ensures Expired(w'.ledger.rows[o]) && !Scanned(w', o.msg) {
      assert Forgotten(w, k) && Siblings(w, k, o);
    }
    forall t, k | t in w.pending && OfTask(w', k, t) ensures w.checked ==> !Scanned(w', k.msg) {
      assert OfTask(w, k, t);
    }
  }

  lemma AppendKeepsRows(c: Params, w: World, b: Block, w': World)
    requires ChainOk(c, w) && GivenUpOk(c, w) && RowsMatchBatches(w) && ScannedAreSettled(c, w) && SettledWereScanned(w)
    requires CanAppend(c, w, b) && w' == w.(chain := w.chain + [b])
    ensures GivenUpOk(c, w') && ScannedAreSettled(c, w') && SettledWereScanned(w')
  {
    forall i, x ensures Executes(w', i, x) <==> Executes(w, i, x) || (i == |w.chain| && x in b.executions) {}
    forall k | k in w'.ledger.rows && Expired(w'.ledger.rows[k])
      ensures Dead(c, w', k) || (Scanned(w', k.msg) && Excused(c, w', k.to))
    {
      SameScans(w, w', k.msg);
      if Dead(c, w, k) {
        assert w.chain[w.saved - 1].time <= w.chain[|w.chain| - 1].time <= b.time;
      }
    }
    forall k | k in w'.ledger.rows && Settled(w'.ledger.rows[k]) ensures Scanned(w', k.msg) { SameScans(w, w', k.msg); }
    forall i, x, k | RanInScanned(w', i, x, k)
      ensures Tells(w', x, k) && (Settled(w'.ledger.rows[k]) || Excused(c, w', k.to))
    {
      assert RanInScanned(w, i, x, k);
    }
  }

  lemma AppendKeepsChain(c: Params, w: World, b: Block, w': World)
    requires ChainOk(c, w) && CanAppend(c, w, b) && w' == w.(chain := w.chain + [b])
    ensures ChainOk(c, w')
  {
    forall i, x ensures Executes(w', i, x) <==> Executes(w, i, x) || (i == |w.chain| && x in b.executions) {}
    forall x, y | x in b.executions && y in b.executions && x.msg == y.msg ensures x == y {}
  }

  /** The builder drops the tasks to addresses in the book, so none of those left was forgotten. */
  lemma BuildKeepsPending(c: Params, w: World, batch: seq<Task>, w': World)
    requires WorldInv(c, w) && Next(c, w, Build(batch), w')
    ensures StateInv(State(w'.ledger, w'.pending)) && PendingNotForgotten(w') && AwaitedAreOutside(c, w')
  {
    forall t, k | t in batch && OfTask(w', k, t) ensures !Scanned(w', k.msg) {
      assert t in w.pending && RowOk(w.ledger, k);
      assert Expired(w.ledger.rows[k]) && k.to == t.destination;
      SameScans(w, w', k.msg);
    }
    forall a | Awaited(w', a) ensures Awaited(w, a) || a !in w.inside {}
  }

  lemma JoinKeepsOutside(c: Params, w: World, a: Address, w': World)
    requires AwaitedAreOutside(c, w) && Next(c, w, Join(a), w')
    ensures AwaitedAreOutside(c, w')
  {
    forall b | Awaited(w', b) ensures Awaited(w, b) {}
  }

  /** Steps that leave the rows, the batches and the chain as they are. */
  lemma LocalKeeps(c: Params, w: World, step: Step, w': World)
    requires WorldInv(c, w) && Next(c, w, step, w')
    requires !step.Create? && !step.Append? && !step.Scan? && !step.Expire?
    ensures WorldInv(c, w')
  {
    var s, s' := State(w.ledger, w.pending), State(w'.ledger, w'.pending);
    SameForgotten(w, w');
    if step.Build? {
      BuildKeepsPending(c, w, step.batch, w');
    } else if step.Join? {
      JoinKeepsOutside(c, w, step.address, w');
    } else {
      FewerAwaited(c, w, w');
    }
    assert StateInv(s') by { LocalKeepsState(c, w, step, w'); }
    SameChain(c, w, w');
    SettledUntouched(c, w, w');
    CreateKeepsDead(c, w, w');
  }

  lemma LocalKeepsState(c: Params, w: World, step: Step, w': World)
    requires WorldInv(c, w) && Next(c, w, step, w')
    requires !step.Create? && !step.Append? && !step.Scan? && !step.Expire?
    ensures StateInv(State(w'.ledger, w'.pending))
  {
    var s, s' := State(w.ledger, w.pending), State(w'.ledger, w'.pending);
    if step.Save? {
      PayoutInvariants.NextKeeps(s, PayoutInvariants.Save(step.r), s');
    } else if step.Select? {
      PayoutInvariants.NextKeeps(s, PayoutInvariants.Select(step.tasks), s');
    } else if step.Build? {
      BuildKeepsPending(c, w, step.batch, w');
    }
  }

  lemma NextKeeps(c: Params, w: World, step: Step, w': World)
    requires c.gap <= c.margin && WorldInv(c, w) && Next(c, w, step, w')
    ensures WorldInv(c, w')
  {
    match step
    case Create(batch, msg, ttl) => CreateKeeps(c, w, batch, msg, ttl, w');
    case Append(b) => AppendKeeps(c, w, b, w');
    case Scan(es) => ScanKeeps(c, w, es, w');
    case Expire(now, cutoff) => ExpireKeeps(c, w, now, cutoff);
    case _ => LocalKeeps(c, w, step, w');
  }

  // ---------------------------------------------------------------- the invariant implies the promises

  /** A row whose message ran stands for its request, or was forgotten. */
  lemma RanMeans(c: Params, w: World, i: int, x: Execution, k: RowKey)
    requires WorldInv(c, w) && Executes(w, i, x) && k in w.ledger.rows && k.msg == x.msg
    ensures Expired(w.ledger.rows[k]) ==> Scanned(w, k.msg)
  {
  }

  lemma InvPaysOnce(c: Params, w: World)
    requires WorldInv(c, w)
    ensures PaidAtMostOnce(w)
  {
    forall i, x, a, j, y, b, q |
      Executes(w, i, x) && Pays(w, x, a, q) && Executes(w, j, y) && Pays(w, y, b, q)
      ensures i == j && x == y && a == b
    {
      var k, o := RowKey(x.msg, a), RowKey(y.msg, b);
      RanMeans(c, w, i, x, k);
      RanMeans(c, w, j, y, o);
      if !Expired(w.ledger.rows[k]) && !Expired(w.ledger.rows[o]) {
        assert Stands(w.ledger, k, q) && Stands(w.ledger, o, q);
      }
      assert Siblings(w, k, o) ==> Siblings(w, o, k);
      assert Expired(w.ledger.rows[k]) ==> Forgotten(w, k);
      assert Expired(w.ledger.rows[o]) ==> Forgotten(w, o);
    }
  }

  /** What a scanned transaction did for a request is its status. */
  lemma RanGivesStatus(c: Params, w: World, i: int, x: Execution, a: Address, q: QueryId)
    requires WorldInv(c, w) && !c.payeesJoin && i < w.saved && Executes(w, i, x)
    requires (Pays(w, x, a, q) || Omits(w, x, a, q)) && q in w.ledger.requests && !w.ledger.requests[q].isInternal
    ensures StatusOf(w.ledger, q) == Ok(if a in x.sent then Processed(Some(x.tx)) else Failed(Some(x.tx)))
  {
    StatusIsTotal(w.ledger, q);
    assert RanInScanned(w, i, x, RowKey(x.msg, a));
    assert Stands(w.ledger, RowKey(x.msg, a), q);
  }

  lemma InvStatus(c: Params, w: World)
    requires WorldInv(c, w) && !c.payeesJoin
    ensures StatusTellsTheChain(w)
  {
    forall q | q in w.ledger.requests && !w.ledger.requests[q].isInternal ensures StatusTells(w, q) {
      StatusIsTotal(w.ledger, q);
      forall tx | PaidBy(w, q, tx) ensures StatusOf(w.ledger, q).value == Processed(Some(tx)) {
        var i, x, a :| i < w.saved && Executes(w, i, x) && Pays(w, x, a, q) && x.tx == tx;
        RanGivesStatus(c, w, i, x, a, q);
      }
      forall tx | OmittedBy(w, q, tx) ensures StatusOf(w.ledger, q).value == Failed(Some(tx)) {
        var i, x, a :| i < w.saved && Executes(w, i, x) && Omits(w, x, a, q) && x.tx == tx;
        RanGivesStatus(c, w, i, x, a, q);
      }
      if Final(StatusOf(w.ledger, q).value) { FinalIsFromChain(c, w, q); }
    }
  }

  /** Whatever the status query calls final was done by a scanned transaction. */
  lemma FinalIsFromChain(c: Params, w: World, q: QueryId)
    requires WorldInv(c, w) && StatusOf(w.ledger, q).Ok? && Final(StatusOf(w.ledger, q).value)
    ensures StatusOf(w.ledger, q).value.Processed? ==> exists tx :: PaidBy(w, q, tx)
    ensures StatusOf(w.ledger, q).value.Failed? ==> exists tx :: OmittedBy(w, q, tx)
  {
    StatusIsTotal(w.ledger, q);
    var k := FinalMeans(w.ledger, q);
    var i, x :| i < w.saved && Executes(w, i, x) && x.msg == k.msg;
    assert RanInScanned(w, i, x, k) && RowKey(x.msg, k.to) == k;
    assert if w.ledger.rows[k].failed then Omits(w, x, k.to, q) else Pays(w, x, k.to, q);
    assert if w.ledger.rows[k].failed then OmittedBy(w, q, x.tx) else PaidBy(w, q, x.tx);
  }

  lemma InvIsSafe(c: Params, w: World)
    requires WorldInv(c, w)
    ensures PaysOnce(w)
    ensures !c.payeesJoin ==> Safe(c, w)
  {
    InvPaysOnce(c, w);
    if !c.payeesJoin { InvStatus(c, w); }
    if w.saved < |w.chain| {
      forall es | ReportsOn(w, w.chain[w.saved], es) ensures ApplyReports(w.ledger, es).Ok? {
        ReportsAreAcceptable(c, w, es);
        ApplyAcceptable(w.ledger, es);
      }
    }
  }

  lemma {:induction false} RunKeeps(c: Params, ws: seq<World>, steps: seq<Step>, n: nat)
    requires c.gap <= c.margin && Run(c, ws, steps) && n < |ws|
    ensures WorldInv(c, ws[n])
    decreases n
  {
    if n > 0 {
      RunKeeps(c, ws, steps, n - 1);
      NextKeeps(c, ws[n - 1], steps[n - 1], ws[n]);
    }
  }

  /** When the margin covers the gap between the two clock readings, every run pays a request at most once, and
      the ledger accepts every block, also when payees join the service. */
  lemma CoveredGapPaysOnce(c: Params, ws: seq<World>, steps: seq<Step>, n: nat)
    requires c.gap <= c.margin && Run(c, ws, steps) && n < |ws|
    ensures PaysOnce(ws[n])
  {
    RunKeeps(c, ws, steps, n);
    InvIsSafe(c, ws[n]);
  }

  /** When besides no payee joins the service, rows given up never ran and the status is what the chain did. */
  lemma CoveredGapIsSafe(c: Params, ws: seq<World>, steps: seq<Step>, n: nat)
    requires c.gap <= c.margin && !c.payeesJoin && Run(c, ws, steps) && n < |ws|
    ensures Safe(c, ws[n])
  {
    RunKeeps(c, ws, steps, n);
    InvIsSafe(c, ws[n]);
  }

  // ---------------------------------------------------------------- final is forever

  lemma {:induction false} ReportsKeepRequests(p: Ledger, es: seq<Report>, q: QueryId)
    requires ApplyReports(p, es).Ok? && q in p.requests && p.requests[q].processed
    ensures var p' := ApplyReports(p, es).value; q in p'.requests && p'.requests[q] == p.requests[q]
    decreases |es|
  {
    if es != [] { ReportsKeepRequests(p, es[..|es| - 1], q); }
  }

  lemma ScanKeepsFinal(c: Params, w: World, es: seq<Report>, q: QueryId)
    requires WorldInv(c, w) && w.saved < |w.chain| && ReportsOn(w, w.chain[w.saved], es)
    requires ApplyReports(w.ledger, es).Ok? && Inv(ApplyReports(w.ledger, es).value)
    requires StatusOf(w.ledger, q).Ok? && Final(StatusOf(w.ledger, q).value)
    ensures StatusOf(ApplyReports(w.ledger, es).value, q) == StatusOf(w.ledger, q)
  {
    var p' := ApplyReports(w.ledger, es).value;
    var k := FinalMeans(w.ledger, q);
    ReportsKeepRequests(w.ledger, es, q);
    ReportsAreAcceptable(c, w, es);
    ApplyAcceptable(w.ledger, es);
    assert !Live(w.ledger.rows[k]);
    assert !Mentions(es, k);
    assert Stands(p', k, q);
    StatusIsTotal(w.ledger, q);
    StatusIsTotal(p', q);
  }

  lemma NextKeepsFinal(c: Params, w: World, step: Step, w': World, q: QueryId)
    requires c.gap <= c.margin && WorldInv(c, w) && Next(c, w, step, w')
    requires StatusOf(w.ledger, q).Ok? && Final(StatusOf(w.ledger, q).value)
    ensures StatusOf(w'.ledger, q) == StatusOf(w.ledger, q)
  {
    var s, s' := State(w.ledger, w.pending), State(w'.ledger, w'.pending);
    match step
    case Save(r) => OthersKeepFinal(s, PayoutInvariants.Save(r), s', q);
    case Create(batch, msg, ttl) => OthersKeepFinal(s, PayoutInvariants.Create(batch, msg, ttl), s', q);
    case Scan(es) =>
      assert Inv(w'.ledger) by { ApplyReportsKeeps(w.ledger, es); }
      ScanKeepsFinal(c, w, es, q);
    case Expire(now, cutoff) => OthersKeepFinal(s, PayoutInvariants.Expire(cutoff), s', q);
    case _ =>
  }

  lemma StepKeepsFinal(c: Params, ws: seq<World>, steps: seq<Step>, n: nat, q: QueryId)
    requires c.gap <= c.margin && Run(c, ws, steps) && n + 1 < |ws|
    requires StatusOf(ws[n].ledger, q).Ok? && Final(StatusOf(ws[n].ledger, q).value)
    ensures StatusOf(ws[n + 1].ledger, q) == StatusOf(ws[n].ledger, q)
  {
    RunKeeps(c, ws, steps, n);
    NextKeepsFinal(c, ws[n], steps[n], ws[n + 1], q);
  }

  /** Once a request is Processed or Failed, no run ever changes that answer or its transaction hash. */
  lemma {:induction false} FinalIsForever(c: Params, ws: seq<World>, steps: seq<Step>, m: nat, n: nat, q: QueryId)
    requires c.gap <= c.margin && Run(c, ws, steps) && m <= n < |ws|
    requires StatusOf(ws[m].ledger, q).Ok? && Final(StatusOf(ws[m].ledger, q).value)
    ensures StatusOf(ws[n].ledger, q) == StatusOf(ws[m].ledger, q)
    decreases n
  {
    if m < n {
      FinalIsForever(c, ws, steps, m, n - 1, q);
      StepKeepsFinal(c, ws, steps, n - 1, q);
    }
  }
}
