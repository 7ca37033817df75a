/** What the saved blocks did to the ledgers of payouts and sweeps, whatever the other threads did in between: every
    event was applied once, in the order of the chain. */
module ScanEffects {
  import opened Prelude
  import opened Lists
  import opened Messages
  import opened PayoutRows
  import opened SweepRows
  import opened ShardTracker
  import opened BlockOrder
  import opened ScanPipeline
  import P = Payouts
  import S = Sweeps
  import Shards

  // ---------------------------------------------------------------- a log that explains the tables

  datatype Entry = Applied(events: Events) | Committed(transaction: Transaction)

  /** The tables after these entries, from none; None when a block is refused. */
  function Replay(log: seq<Entry>): Option<Db>
    decreases |log|
  {
    if log == [] then Some(EMPTY_DB)
    else
      match Replay(log[..|log| - 1])
      case None => None
      case Some(db) =>
        match log[|log| - 1]
        case Applied(e) => BlockOrder.Save(db, e)
        case Committed(t) => Some(Commit(db, t))
  }

  function BlocksIn(log: seq<Entry>): seq<Events>
    decreases |log|
  {
    if log == [] then []
    else BlocksIn(log[..|log| - 1]) + if log[|log| - 1].Applied? then [log[|log| - 1].events] else []
  }

  function EventsOf(blocks: seq<Block>): seq<Events>
  {
    seq(|blocks|, i requires 0 <= i < |blocks| => blocks[i].events)
  }

  ghost predicate Explains(w: World, log: seq<Entry>)
  {
    Replay(log) == Some(w.db) && BlocksIn(log) == EventsOf(w.blocks)
  }

  /** The tables are what comes of applying the events of each saved block once, in the order of the chain, and
      transactions of the other threads in between. */
  ghost predicate AppliedOnce(w: World)
  {
    exists log :: Explains(w, log)
  }

  lemma LogGrows(w: World, log: seq<Entry>, entry: Entry, w': World)
    requires Explains(w, log)
    requires match entry
      case Applied(e) =>
        BlockOrder.Save(w.db, e) == Some(w'.db) && |w'.blocks| == |w.blocks| + 1
        && w'.blocks[..|w.blocks|] == w.blocks && w'.blocks[|w.blocks|].events == e
      case Committed(t) => Commit(w.db, t) == w'.db && w'.blocks == w.blocks
    ensures Explains(w', log + [entry])
  {
    assert (log + [entry])[..|log|] == log;
    if entry.Applied? { assert EventsOf(w'.blocks) == EventsOf(w.blocks) + [entry.events]; }
  }

  lemma NextKeepsLog(c: Setup, chain: seq<Shards.BlockId>, w: World, step: Step, w': World)
    requires Falling(c.node, c.shard) && AppliedOnce(w) && ScanPipeline.Next(c, chain, w, step, w')
    ensures AppliedOnce(w')
  {
    var log :| Explains(w, log);
    if step.Others? {
      LogGrows(w, log, Committed(step.transaction), w');
    } else if w'.blocks != w.blocks {
      LogGrows(w, log, Applied(step.events), w');
    } else {
      assert Explains(w', log);
    }
  }

  // ---------------------------------------------------------------- what the rows say

  function Reports(blocks: seq<Block>): seq<Report>
  {
    if blocks == [] then [] else Reports(blocks[..|blocks| - 1]) + blocks[|blocks| - 1].events.reports
  }

  function Sends(blocks: seq<Block>): seq<S.Confirmation>
  {
    if blocks == [] then [] else Sends(blocks[..|blocks| - 1]) + blocks[|blocks| - 1].events.sends
  }

  function Ends(blocks: seq<Block>): seq<S.Finish>
  {
    if blocks == [] then [] else Ends(blocks[..|blocks| - 1]) + blocks[|blocks| - 1].events.ends
  }

  /** A saved block confirmed the jetton withdrawal of the request, at which the row had been reported as sent. */
  ghost predicate Confirmed(blocks: seq<Block>, k: P.RowKey, q: P.QueryId)
  {
    blocks != []
    && (Confirmed(blocks[..|blocks| - 1], k, q)
        || (q in blocks[|blocks| - 1].events.confirmed && Last(Reports(blocks), SentAbout(k)).Some?))
  }

  /** The row of a batch as the saved blocks tell it: settled if and only if one reports on it, with the hash of the
      last report and failed if that one is; sent with the times of the last report that says so. */
  ghost predicate RowTells(r: P.Row, blocks: seq<Block>, k: P.RowKey)
  {
    AsReported(r, Reports(blocks), k) && (r.confirmed <==> Confirmed(blocks, k, r.queryId))
  }

  predicate AsReported(r: P.Row, es: seq<Report>, k: P.RowKey)
  {
    && (match Last(es, About(k))
        case None => r.txHash.None?
        case Some(e) => r.txHash == Some(e.txHash) && r.failed == e.failed)
    && (match Last(es, SentAbout(k))
        case None => r.processedLt.None? && r.processedAt.None?
        case Some(e) => r.processedLt == Some(e.lt) && r.processedAt == Some(e.utime))
  }

  /** Nothing was ever reported on a row that does not exist. */
  ghost predicate RowsTell(p: P.Ledger, blocks: seq<Block>)
  {
    && (forall k | k in p.rows :: RowTells(p.rows[k], blocks, k))
    && (forall k | k !in p.rows :: Last(Reports(blocks), About(k)).None?)
  }

  /** The sweep as the saved blocks tell it: sent and ended as the last of them say, with the sum of its ends; and once
      it is sent, failed if and only if one of them says so. */
  ghost predicate SweepTells(r: S.Row, blocks: seq<Block>, m: Memo)
  {
    && (match Last(Sends(blocks), SendingOf(m))
        case None => r.sendingLt.None?
        case Some(c) => r.sendingLt == Some(c.lt))
    && (match Last(Ends(blocks), EndingOf(m))
        case None => r.finishLt.None? && r.finishedAt.None?
        case Some(w) => r.finishLt == Some(w.lt) && r.finishedAt == Some(w.utime))
    && r.amount == EndedAmount(Ends(blocks), m)
    && (S.Fails(Ends(blocks), m) ==> r.failed && r.sendingLt.Some?)
    && (r.failed && r.sendingLt.Some? ==> S.Fails(Ends(blocks), m))
  }

  ghost predicate SweepsTell(t: S.Table, blocks: seq<Block>)
  {
    && (forall m | m in t.rows :: SweepTells(t.rows[m], blocks, m))
    && (forall m | m !in t.rows :: NothingOf(blocks, m))
  }

  /** No event of the saved blocks is about this memo. */
  ghost predicate NothingOf(blocks: seq<Block>, m: Memo)
  {
    && (forall c | c in Sends(blocks) :: c.memo != OfMemo(m))
    && (forall w | w in Ends(blocks) :: w.memo != OfMemo(m))
  }

  lemma {:induction false} NothingEnded(ws: seq<S.Finish>, m: Memo)
    requires forall w | w in ws :: w.memo != OfMemo(m)
    ensures EndedAmount(ws, m) == 0
    decreases |ws|
  {
    if ws != [] { NothingEnded(ws[..|ws| - 1], m); }
  }

  // ---------------------------------------------------------------- a saved block

  /** The rows after the reports of one more block, before its confirmations. */
  lemma ReportsTellBlock(p: P.Ledger, blocks: seq<Block>, more: seq<Report>, k: P.RowKey)
    requires RowsTell(p, blocks) && P.ApplyReports(p, more).Ok?
    ensures var p' := P.ApplyReports(p, more).value; var es := Reports(blocks) + more;
      && p'.rows.Keys == p.rows.Keys
      && (k !in p.rows ==> Last(es, About(k)).None?)
      && (k in p.rows ==> AsReported(p'.rows[k], es, k) && p'.rows[k].queryId == p.rows[k].queryId
                          && p'.rows[k].confirmed == p.rows[k].confirmed)
  {
    ReportsTell(p, more);
    LastOfTwo(Reports(blocks), more, About(k));
    LastOfTwo(Reports(blocks), more, SentAbout(k));
    if k in p.rows {
      assert RowTells(p.rows[k], blocks, k) && RowAfter(p.rows[k], P.ApplyReports(p, more).value.rows[k], more, k);
    }
  }

  lemma ConfirmTells(r1: P.Row, r': P.Row, blocks: seq<Block>, b: Block, k: P.RowKey)
    requires Reports(blocks + [b]) == Reports(blocks) + b.events.reports
    requires AsReported(r1, Reports(blocks + [b]), k) && (r1.confirmed <==> Confirmed(blocks, k, r1.queryId))
    requires r' == if r1.queryId in b.events.confirmed && r1.processedLt.Some? then r1.(confirmed := true) else r1
    ensures RowTells(r', blocks + [b], k)
  {
    assert (blocks + [b])[..|blocks|] == blocks;
  }

  lemma SaveTellsRow(db: Db, blocks: seq<Block>, b: Block, k: P.RowKey)
    requires RowsTell(db.payouts, blocks) && BlockOrder.Save(db, b.events).Some?
    ensures var p := BlockOrder.Save(db, b.events).value.payouts;
      && (k in p.rows <==> k in db.payouts.rows)
      && (k in p.rows ==> RowTells(p.rows[k], blocks + [b], k))
      && (k !in p.rows ==> Last(Reports(blocks + [b]), About(k)).None?)
  {
    assert (blocks + [b])[..|blocks|] == blocks;
    var p1 := P.ApplyReports(db.payouts, b.events.reports).value;
    ReportsTellBlock(db.payouts, blocks, b.events.reports, k);
    ConfirmsAreOneStatement(p1, b.events.confirmed);
    if k in db.payouts.rows {
      assert RowTells(db.payouts.rows[k], blocks, k);
      ConfirmTells(p1.rows[k], ConfirmJettons(p1, b.events.confirmed).rows[k], blocks, b, k);
    }
  }

  lemma SaveTellsSweep(t: S.Table, blocks: seq<Block>, b: Block, m: Memo)
    requires SweepsTell(t, blocks) && S.ApplyBlock(t, b.events.sends, b.events.ends).Ok?
    ensures var t' := S.ApplyBlock(t, b.events.sends, b.events.ends).value;
      && (m in t'.rows <==> m in t.rows)
      && (m in t'.rows ==> SweepTells(t'.rows[m], blocks + [b], m))
      && (m !in t'.rows ==> NothingOf(blocks + [b], m))
  {
    assert (blocks + [b])[..|blocks|] == blocks;
    var cs, ws := b.events.sends, b.events.ends;
    var t1 := S.ConfirmAll(t, cs).value;
    var t' := S.FinishAll(t1, ws).value;
    SendsTell(t, cs, m);
    EndsTell(t1, ws, m);
    S.AcceptedIffConfirmed(t, cs, ws);
    if m in t.rows {
      LastOfTwo(Sends(blocks), cs, SendingOf(m));
      LastOfTwo(Ends(blocks), ws, EndingOf(m));
      AmountOfTwo(Ends(blocks), ws, m);
      SweepAfterBlock(t.rows[m], t1.rows[m], t'.rows[m], blocks, b, m);
    }
  }

  lemma SweepAfterBlock(r: S.Row, r1: S.Row, r': S.Row, blocks: seq<Block>, b: Block, m: Memo)
    requires SweepTells(r, blocks, m)
    requires RowAfterSends(r, r1, b.events.sends, m) && RowAfterEnds(r1, r', b.events.ends, m)
    requires Sends(blocks + [b]) == Sends(blocks) + b.events.sends && Ends(blocks + [b]) == Ends(blocks) + b.events.ends
    requires Last(Sends(blocks + [b]), SendingOf(m))
      == if Last(b.events.sends, SendingOf(m)).Some? then Last(b.events.sends, SendingOf(m))
         else Last(Sends(blocks), SendingOf(m))
    requires Last(Ends(blocks + [b]), EndingOf(m))
      == if Last(b.events.ends, EndingOf(m)).Some? then Last(b.events.ends, EndingOf(m))
         else Last(Ends(blocks), EndingOf(m))
    requires EndedAmount(Ends(blocks + [b]), m) == EndedAmount(Ends(blocks), m) + EndedAmount(b.events.ends, m)
    requires r.failed ==> !S.Confirms(b.events.sends, m) && forall w | w in b.events.ends :: w.memo != OfMemo(m)
    requires S.Fails(b.events.ends, m) ==> r1.sendingLt.Some?
    ensures SweepTells(r', blocks + [b], m)
  {
    assert S.Fails(Ends(blocks + [b]), m) <==> S.Fails(Ends(blocks), m) || S.Fails(b.events.ends, m);
  }

  lemma SaveTells(db: Db, blocks: seq<Block>, b: Block)
    requires BlockOrder.Save(db, b.events).Some? && SweepsTell(db.sweeps, blocks) && RowsTell(db.payouts, blocks)
    ensures SweepsTell(BlockOrder.Save(db, b.events).value.sweeps, blocks + [b])
    ensures RowsTell(BlockOrder.Save(db, b.events).value.payouts, blocks + [b])
  {
    var db' := BlockOrder.Save(db, b.events).value;
    forall m
      ensures m in db'.sweeps.rows ==> SweepTells(db'.sweeps.rows[m], blocks + [b], m)
      ensures m !in db'.sweeps.rows ==> NothingOf(blocks + [b], m)
    {
      SaveTellsSweep(db.sweeps, blocks, b, m);
    }
    forall k
      ensures k in db'.payouts.rows ==> RowTells(db'.payouts.rows[k], blocks + [b], k)
      ensures k !in db'.payouts.rows ==> Last(Reports(blocks + [b]), About(k)).None?
    {
      SaveTellsRow(db, blocks, b, k);
    }
  }

  // ---------------------------------------------------------------- the other threads

  lemma {:induction false} NotConfirmed(blocks: seq<Block>, k: P.RowKey, q: P.QueryId)
    requires Last(Reports(blocks), SentAbout(k)).None?
    ensures !Confirmed(blocks, k, q)
    decreases |blocks|
  {
    if blocks != [] {
      LastOfTwo(Reports(blocks[..|blocks| - 1]), blocks[|blocks| - 1].events.reports, SentAbout(k));
      NotConfirmed(blocks[..|blocks| - 1], k, q);
    }
  }

  /** A row without reports is as it was inserted, except that it may have been given up. */
  lemma UnreportedTells(r: P.Row, blocks: seq<Block>, k: P.RowKey)
    requires Last(Reports(blocks), About(k)).None?
    requires r.txHash.None? && r.processedLt.None? && r.processedAt.None? && !r.confirmed
    ensures RowTells(r, blocks, k)
  {
    assert forall e | e in Reports(blocks) :: !About(k)(e) && !SentAbout(k)(e);
    NotConfirmed(blocks, k, r.queryId);
  }

  lemma {:induction false} BatchTells(p: P.Ledger, ts: seq<P.Task>, msg: Uuid, expiry: Time, blocks: seq<Block>)
    requires P.CreateBatch(p, ts, msg, expiry).Ok? && RowsTell(p, blocks)
    ensures RowsTell(P.CreateBatch(p, ts, msg, expiry).value, blocks)
    decreases |ts|
  {
    if ts != [] {
      BatchTells(p, ts[..|ts| - 1], msg, expiry, blocks);
      var k := P.RowKey(msg, ts[|ts| - 1].destination);
      UnreportedTells(P.FreshRow(ts[|ts| - 1].queryId, expiry), blocks, k);
    }
  }

  lemma ExpiryTells(p: P.Ledger, cutoff: Time, blocks: seq<Block>)
    requires RowsTell(p, blocks)
    ensures RowsTell(P.SetExpired(p, cutoff), blocks)
  {
    var p' := P.SetExpired(p, cutoff);
    forall k | k in p'.rows ensures RowTells(p'.rows[k], blocks, k) {
      assert RowTells(p.rows[k], blocks, k);
      if P.Overdue(p.rows[k], cutoff) { LiveIsUnreported(p.rows[k], blocks, k); }
    }
  }

  lemma LiveIsUnreported(r: P.Row, blocks: seq<Block>, k: P.RowKey)
    requires RowTells(r, blocks, k) && P.Live(r)
    ensures Last(Reports(blocks), About(k)).None?
  {
    assert forall e: Report | About(k)(e) && !e.failed :: SentAbout(k)(e);
  }

  /** The other threads neither settle rows nor confirm sweeps nor change what they tell. */
  lemma CommitTells(db: Db, t: Transaction, blocks: seq<Block>)
    requires SweepsTell(db.sweeps, blocks) && RowsTell(db.payouts, blocks)
    ensures SweepsTell(Commit(db, t).sweeps, blocks) && RowsTell(Commit(db, t).payouts, blocks)
  {
    match t
    case CreateBatch(ts, msg, expiry) =>
      if P.CreateBatch(db.payouts, ts, msg, expiry).Ok? { BatchTells(db.payouts, ts, msg, expiry, blocks); }
    case ExpireRows(cutoff) => ExpiryTells(db.payouts, cutoff, blocks);
    case SaveSweep(task, expiry, memo) =>
      if memo !in db.sweeps.rows { NothingEnded(Ends(blocks), memo); }
    case _ =>
  }

  ghost predicate Told(w: World)
  {
    SweepsTell(w.db.sweeps, w.blocks) && RowsTell(w.db.payouts, w.blocks)
  }

  lemma NextKeepsTold(c: Setup, chain: seq<Shards.BlockId>, w: World, step: Step, w': World)
    requires Falling(c.node, c.shard) && Told(w) && ScanPipeline.Next(c, chain, w, step, w')
    ensures Told(w')
  {
    if step.Others? {
      CommitTells(w.db, step.transaction, w.blocks);
    } else if w'.blocks != w.blocks {
      SaveTells(w.db, w.blocks, Block(w.service.phase.header, step.events));
    }
  }

  // ---------------------------------------------------------------- every run

  /** Through any crashes and restarts: the events of each saved block are applied once, in the order of the chain; so
      every column of a row and of a sweep is what the saved blocks tell of it. */
  lemma {:induction false} EveryEventIsAppliedOnce(
    c: Setup, chain: seq<Shards.BlockId>, ws: seq<World>, steps: seq<Step>, n: nat)
    requires Falling(c.node, c.shard) && ScanPipeline.Run(c, chain, ws, steps) && n < |ws|
    ensures AppliedOnce(ws[n])
    ensures SweepsTell(ws[n].db.sweeps, ws[n].blocks) && RowsTell(ws[n].db.payouts, ws[n].blocks)
    decreases n
  {
    if n == 0 {
      assert Explains(ws[0], []);
      assert Told(ws[0]);
    } else {
      EveryEventIsAppliedOnce(c, chain, ws, steps, n - 1);
      NextKeepsLog(c, chain, ws[n - 1], steps[n - 1], ws[n]);
      NextKeepsTold(c, chain, ws[n - 1], steps[n - 1], ws[n]);
    }
  }

  /** Whatever final status the query gives comes from the last saved report on a row of the request, with its hash. */
  lemma StatusIsReported(p: P.Ledger, blocks: seq<Block>, q: P.QueryId)
    requires RowsTell(p, blocks) && P.StatusOf(p, q).Ok?
    requires P.StatusOf(p, q).value.Processed? || P.StatusOf(p, q).value.Failed?
    ensures exists k :: k in p.rows && p.rows[k].queryId == q && ReportedAs(Reports(blocks), k, P.StatusOf(p, q).value)
  {
    var k :| P.Decides(p, k, q) && P.StatusOf(p, q) ==
      Ok(if p.rows[k].failed then P.Failed(p.rows[k].txHash) else P.Processed(p.rows[k].txHash));
    assert RowTells(p.rows[k], blocks, k);
    assert forall e: Report | SentAbout(k)(e) :: About(k)(e);
    assert ReportedAs(Reports(blocks), k, P.StatusOf(p, q).value);
  }

  /** The last report on the row says so. */
  ghost predicate ReportedAs(es: seq<Report>, k: P.RowKey, status: P.Status)
  {
    && Last(es, About(k)).Some?
    && var e := Last(es, About(k)).value;
       status == if e.failed then P.Failed(Some(e.txHash)) else P.Processed(Some(e.txHash))
  }

  /** So it does on every run. */
  lemma EveryStatusIsReported(c: Setup, chain: seq<Shards.BlockId>, ws: seq<World>, steps: seq<Step>, n: nat,
                              q: P.QueryId)
    requires Falling(c.node, c.shard) && ScanPipeline.Run(c, chain, ws, steps) && n < |ws|
    requires P.StatusOf(ws[n].db.payouts, q).Ok?
    ensures var status := P.StatusOf(ws[n].db.payouts, q).value; var p := ws[n].db.payouts;
      status.Processed? || status.Failed? ==>
        exists k :: k in p.rows && p.rows[k].queryId == q && ReportedAs(Reports(ws[n].blocks), k, status)
  {
    EveryEventIsAppliedOnce(c, chain, ws, steps, n);
    var status := P.StatusOf(ws[n].db.payouts, q).value;
    if status.Processed? || status.Failed? { StatusIsReported(ws[n].db.payouts, ws[n].blocks, q); }
  }
}
