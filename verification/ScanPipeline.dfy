/** From the shard tracker to the tables and the notifications, through crashes and restarts at any point
    (core/block_scanner.go, cmd/processor/main.go). */
module ScanPipeline {
  import opened Prelude
  import opened Shards
  import opened ShardTracker
  import opened BlockOrder
  import KeyedFold
  import JettonIncome
  import Payouts
  import Sweeps

  /** A row of block_data, and the events that were saved in the same transaction. */
  datatype Block = Block(header: Header, events: Events)

  /** What happens to the service: `of the last saved block, this income is next to be told to this notificator`. */
  datatype Phase = Waiting | Holding(header: Header) | Pushing(income: nat, sink: nat)

  datatype Service = Down | Up(tracker: State, phase: Phase)

  /** An income of a block, handed to one notificator. */
  datatype Notice = Notice(block: BlockId, income: nat, sink: nat)

  datatype World = World(blocks: seq<Block>, db: Db, published: seq<Notice>, service: Service)

  /** The node, the shard of the wallets, and the configuration of the notifications. */
  datatype Setup = Setup(node: Node, shard: byte, depositSide: bool, sinks: nat)

  // ---------------------------------------------------------------- the last saved block

  /** ORDER BY seqno DESC LIMIT 1 */
  ghost predicate LastBySeqno(blocks: seq<Block>, b: Block)
  {
    b in blocks && forall o | o in blocks :: o.header.id.seqno <= b.header.id.seqno
  }

  /** What main reads before it starts the tracker. */
  ghost predicate StartsAt(blocks: seq<Block>, start: Option<BlockId>)
  {
    match start
    case None => blocks == []
    case Some(id) => exists b :: LastBySeqno(blocks, b) && b.header.id == id
  }

  /** The unique key (shard, seqno). */
  predicate AlreadySaved(blocks: seq<Block>, h: Header)
  {
    exists b :: b in blocks && SameBlock(b.header.id, h.id)
  }

  // ---------------------------------------------------------------- steps

  /** The transactions of the other threads on these tables. */
  datatype Transaction =
    | SaveRequest(request: Payouts.Request)
    | CreateBatch(tasks: seq<Payouts.Task>, msg: Uuid, rowExpiry: Time)
    | ExpireRows(rowCutoff: Time)
    | SaveSweep(task: Sweeps.Task, sweepExpiry: Time, memo: Memo)
    | ExpireSweeps(sweepCutoff: Time)

  function LedgerOf(r: Result<Payouts.Ledger, Payouts.Error>, p: Payouts.Ledger): Payouts.Ledger
  {
    if r.Ok? then r.value else p
  }

  function TableOf(r: Result<Sweeps.Table, Sweeps.Error>, t: Sweeps.Table): Sweeps.Table
  {
    if r.Ok? then r.value else t
  }

  /** A transaction that fails is rolled back. */
  function Commit(db: Db, t: Transaction): Db
  {
    match t
    case SaveRequest(r) => db.(payouts := LedgerOf(Payouts.SaveRequest(db.payouts, r), db.payouts))
    case CreateBatch(ts, msg, expiry) =>
      db.(payouts := LedgerOf(Payouts.CreateBatch(db.payouts, ts, msg, expiry), db.payouts))
    case ExpireRows(cutoff) => db.(payouts := Payouts.SetExpired(db.payouts, cutoff))
    case SaveSweep(task, expiry, memo) =>
      db.(sweeps := TableOf(Sweeps.SaveTask(db.sweeps, task, expiry, memo), db.sweeps))
    case ExpireSweeps(cutoff) => db.(sweeps := Sweeps.SetExpired(db.sweeps, cutoff))
  }

  datatype Step =
    | Start(start: Option<BlockId>)
    | Stop
    | Ask(answers: seq<Master>)
    | Save(events: Events)
    | Publish
    | Crash
    | Others(transaction: Transaction)

  const EMPTY_DB := Db(multiset{}, map[], Sweeps.EMPTY_TABLE, Payouts.EMPTY)

  function IncomesOf(c: Setup, e: Events): nat
  {
    if c.depositSide then |e.externalIncomes| else |e.internalIncomes|
  }

  function AfterAsk(c: Setup, st: State, answers: seq<Master>): Service
    requires Falling(c.node, c.shard)
  {
    var (st', out, _) := ShardTracker.Next(c.node, c.shard, st, answers);
    if out.Emit? then Up(st', Holding(out.header)) else Down
  }

  /** The end of processBlock. An error of the transaction ends the service and saves nothing. */
  function AfterSave(w: World, h: Header, e: Events): World
    requires w.service.Up?
  {
    var r := BlockOrder.Save(w.db, e);
    if AlreadySaved(w.blocks, h) || r.None? then w.(service := Down)
    else w.(blocks := w.blocks + [Block(h, e)], db := r.value, service := Up(w.service.tracker, Pushing(0, 0)))
  }

  /** One turn of the loops of pushNotifications: over the incomes, and for each over the notificators. */
  function AfterPublish(c: Setup, w: World): World
    requires w.service.Up? && w.service.phase.Pushing? && w.blocks != []
  {
    var last, st := w.blocks[|w.blocks| - 1], w.service.tracker;
    var Pushing(i, s) := w.service.phase;
    if i >= IncomesOf(c, last.events) then w.(service := Up(st, Waiting))
    else if s >= c.sinks then w.(service := Up(st, Pushing(i + 1, 0)))
    else w.(published := w.published + [Notice(last.header.id, i, s)], service := Up(st, Pushing(i, s + 1)))
  }

  ghost predicate Next(c: Setup, chain: seq<BlockId>, w: World, step: Step, w': World)
    requires Falling(c.node, c.shard)
  {
    match step
    case Start(start) =>
      w.service.Down? && StartsAt(w.blocks, start) && w' == w.(service := Up(State(start, None, [], false), Waiting))
    case Stop =>
      w.service.Up? && w' == w.(service := Up(w.service.tracker.(stopped := true), w.service.phase))
    case Ask(answers) =>
      && w.service.Up? && w.service.phase.Waiting? && Honest(c.shard, chain, answers)
      && w' == w.(service := AfterAsk(c, w.service.tracker, answers))
    case Save(events) =>
      w.service.Up? && w.service.phase.Holding? && w' == AfterSave(w, w.service.phase.header, events)
    case Publish =>
      w.service.Up? && w.service.phase.Pushing? && w.blocks != [] && w' == AfterPublish(c, w)
    case Crash => w' == w.(service := Down)
    case Others(t) => w' == w.(db := Commit(w.db, t))
  }

  ghost predicate Initial(w: World)
  {
    w.blocks == [] && w.db == EMPTY_DB && w.published == [] && w.service.Down?
  }

  ghost predicate Run(c: Setup, chain: seq<BlockId>, ws: seq<World>, steps: seq<Step>)
    requires Falling(c.node, c.shard)
  {
    && |ws| == |steps| + 1 && Initial(ws[0])
    && forall i | 0 <= i < |steps| :: Next(c, chain, ws[i], steps[i], ws[i + 1])
  }

  // ---------------------------------------------------------------- what is promised

  function Headers(blocks: seq<Block>): seq<Header>
  {
    seq(|blocks|, i requires 0 <= i < |blocks| => blocks[i].header)
  }

  /** The saved blocks, in the order of saving, are a stretch of the chain: none missing, none twice, each the
      parent of the next. */
  ghost predicate SavedAreChain(chain: seq<BlockId>, blocks: seq<Block>)
  {
    exists e :: SavedUpTo(chain, blocks, e)
  }

  ghost predicate SavedUpTo(chain: seq<BlockId>, blocks: seq<Block>, e: nat)
  {
    |blocks| <= e < |chain| && Headers(blocks) == Links(chain, e - |blocks| + 1, e + 1)
  }

  function ExternalIncomes(blocks: seq<Block>): seq<JettonIncome.Income>
  {
    if blocks == [] then [] else ExternalIncomes(blocks[..|blocks| - 1]) + blocks[|blocks| - 1].events.externalIncomes
  }

  function InternalIncomes(blocks: seq<Block>): seq<InternalIncome>
  {
    if blocks == [] then [] else InternalIncomes(blocks[..|blocks| - 1]) + blocks[|blocks| - 1].events.internalIncomes
  }

  function RowsOf(rows: map<(Memo, nat), InternalIncome>): set<InternalIncome>
  {
    set k | k in rows :: rows[k]
  }

  /** The income tables hold what the saved blocks brought, every income once. */
  ghost predicate IncomesOnce(w: World)
  {
    && w.db.externalIncomes == multiset(ExternalIncomes(w.blocks))
    && multiset(InternalIncomes(w.blocks)) == multiset(RowsOf(w.db.internalIncomes))
  }

  predicate Earlier(a: Notice, b: Notice)
  {
    a.block.seqno < b.block.seqno
    || (a.block == b.block && (a.income < b.income || (a.income == b.income && a.sink < b.sink)))
  }

  ghost predicate IncomeOf(c: Setup, b: Block, n: Notice)
  {
    b.header.id == n.block && n.income < IncomesOf(c, b.events) && n.sink < c.sinks
  }

  /** Every notice is of an income that is saved, and they are in the order of the chain, so none is sent twice. */
  ghost predicate NoticesOk(c: Setup, w: World)
  {
    && (forall n | n in w.published :: exists b :: b in w.blocks && IncomeOf(c, b, n))
    && (forall i, j | 0 <= i < j < |w.published| :: Earlier(w.published[i], w.published[j]))
  }

  // ---------------------------------------------------------------- where the service stands in the chain

  /** The blocks up to position `e` are handled: saved, or before the first saved one. */
  ghost predicate At(chain: seq<BlockId>, w: World, e: nat)
  {
    && SavedUpTo(chain, w.blocks, e)
    && (w.service.Up? ==> TrackerAt(chain, w.blocks == [], w.service.tracker, w.service.phase, e))
  }

  ghost predicate TrackerAt(chain: seq<BlockId>, empty: bool, st: State, phase: Phase, e: nat)
  {
    (if phase.Holding? then e + 1 < |chain| && phase.header == Link(chain, e + 1) && Tracks(chain, st, e + 1)
        else Tracks(chain, st, e) || (empty && Unanchored(st) && st.lastMaster.None?))
  }

  ghost predicate Somewhere(chain: seq<BlockId>, w: World)
  {
    exists e :: At(chain, w, e)
  }

  lemma SavedHeader(chain: seq<BlockId>, blocks: seq<Block>, e: nat, i: nat)
    requires SavedUpTo(chain, blocks, e) && i < |blocks|
    ensures blocks[i].header == Link(chain, e - |blocks| + 1 + i)
  {
    assert Headers(blocks)[i] == Links(chain, e - |blocks| + 1, e + 1)[i];
  }

  lemma SavedIncrease(c: Setup, chain: seq<BlockId>, blocks: seq<Block>, e: nat, b: Block)
    requires Falling(c.node, c.shard) && IsChain(c.node, c.shard, chain) && SavedUpTo(chain, blocks, e) && b in blocks
    ensures b.header.id == chain[e] || b.header.id.seqno < chain[e].seqno
    ensures b == blocks[|blocks| - 1] || b.header.id.seqno < chain[e].seqno
  {
    var i :| 0 <= i < |blocks| && blocks[i] == b;
    SavedHeader(chain, blocks, e, i);
    if i + 1 < |blocks| { Increasing(c.node, c.shard, chain, e - |blocks| + 1 + i, e); }
  }

  /** The block with the greatest number is the one saved last, so both the restart and the check that the
      service is in sync look at the last block of the chain that is saved. */
  lemma LastIsLastSaved(c: Setup, chain: seq<BlockId>, blocks: seq<Block>, e: nat, b: Block)
    requires Falling(c.node, c.shard) && IsChain(c.node, c.shard, chain) && SavedUpTo(chain, blocks, e)
    ensures LastBySeqno(blocks, b) <==> blocks != [] && b == blocks[|blocks| - 1]
  {
    if blocks != [] {
      SavedHeader(chain, blocks, e, |blocks| - 1);
      forall o | o in blocks ensures o.header.id.seqno <= chain[e].seqno { SavedIncrease(c, chain, blocks, e, o); }
      if LastBySeqno(blocks, b) {
        SavedIncrease(c, chain, blocks, e, b);
        assert blocks[|blocks| - 1] in blocks;
      }
    }
  }

  /** The header in hand is of a block not saved yet. */
  lemma HeldIsNew(c: Setup, chain: seq<BlockId>, w: World, e: nat)
    requires Falling(c.node, c.shard) && IsChain(c.node, c.shard, chain) && At(chain, w, e)
    requires w.service.Up? && w.service.phase.Holding?
    ensures !AlreadySaved(w.blocks, w.service.phase.header)
    ensures forall b | b in w.blocks :: b.header.id.seqno < w.service.phase.header.id.seqno
  {
    Increasing(c.node, c.shard, chain, e, e + 1);
    forall b | b in w.blocks ensures b.header.id.seqno < w.service.phase.header.id.seqno {
      SavedIncrease(c, chain, w.blocks, e, b);
    }
  }

  lemma StartKeeps(c: Setup, chain: seq<BlockId>, w: World, start: Option<BlockId>, w': World, e: nat)
    requires Falling(c.node, c.shard) && IsChain(c.node, c.shard, chain) && At(chain, w, e)
    requires Next(c, chain, w, Start(start), w')
    ensures At(chain, w', e)
  {
    if start.Some? {
      var b :| LastBySeqno(w.blocks, b) && b.header.id == start.value;
      LastIsLastSaved(c, chain, w.blocks, e, b);
      SavedHeader(chain, w.blocks, e, |w.blocks| - 1);
      assert TracksTo(chain, w'.service.tracker, e, e);
    }
  }

  lemma AskKeeps(c: Setup, chain: seq<BlockId>, w: World, answers: seq<Master>, w': World, e: nat) returns (e': nat)
    requires Falling(c.node, c.shard) && IsChain(c.node, c.shard, chain) && At(chain, w, e)
    requires Next(c, chain, w, Ask(answers), w')
    ensures At(chain, w', e')
  {
    e' := e;
    var st := w.service.tracker;
    if Tracks(chain, st, e) {
      NextTracks(c.node, c.shard, chain, st, e, answers);
    } else if answers != [] && !st.stopped {
      assert answers[0] in answers && Honest(c.shard, chain, answers[1..]);
      var i: nat :| i < |chain| && FilterByShard(answers[0].shards, c.shard) == Some(chain[i]);
      FirstAnswerAnchors(c.node, c.shard, chain, st, answers, i);
      NextTracks(c.node, c.shard, chain, Load(c.node, c.shard, st, answers[0]).value, i, answers[1..]);
      assert Headers(w.blocks) == [] == Links(chain, i + 1, i + 1);
      e' := i;
    }
  }

  lemma SaveKeeps(c: Setup, chain: seq<BlockId>, w: World, events: Events, w': World, e: nat) returns (e': nat)
    requires Falling(c.node, c.shard) && IsChain(c.node, c.shard, chain) && At(chain, w, e)
    requires Next(c, chain, w, Save(events), w')
    ensures At(chain, w', e')
  {
    e' := e;
    if w'.service.Up? {
      e' := e + 1;
      var from := e - |w.blocks| + 1;
      assert Headers(w'.blocks) == Headers(w.blocks) + [Link(chain, e + 1)];
      assert Links(chain, from, e + 2) == Links(chain, from, e + 1) + [Link(chain, e + 1)];
    }
  }

  lemma StopKeeps(chain: seq<BlockId>, w: World, w': World, e: nat)
    requires At(chain, w, e) && w.service.Up?
    requires w' == w.(service := Up(w.service.tracker.(stopped := true), w.service.phase))
    ensures At(chain, w', e)
  {
    var st, st' := w.service.tracker, w'.service.tracker;
    forall i, k | TracksTo(chain, st, i, k) ensures TracksTo(chain, st', i, k) {}
  }

  lemma NextKeepsPlace(c: Setup, chain: seq<BlockId>, w: World, step: Step, w': World)
    requires Falling(c.node, c.shard) && IsChain(c.node, c.shard, chain)
    requires Somewhere(chain, w) && Next(c, chain, w, step, w')
    ensures Somewhere(chain, w')
  {
    var e :| At(chain, w, e);
    match step
    case Start(start) => StartKeeps(c, chain, w, start, w', e);
    case Ask(answers) => var e' := AskKeeps(c, chain, w, answers, w', e);
    case Save(events) => var e' := SaveKeeps(c, chain, w, events, w', e);
    case Stop => StopKeeps(chain, w, w', e);
    case _ => assert At(chain, w', e);
  }

  // ---------------------------------------------------------------- incomes

  /** The rows are stored under their keys. */
  ghost predicate Keyed(rows: map<(Memo, nat), InternalIncome>)
  {
    forall k | k in rows :: IncomeKey(rows[k]) == k
  }

  ghost predicate HoldsExactly(rows: map<(Memo, nat), InternalIncome>, incomes: seq<InternalIncome>)
  {
    Keyed(rows) && multiset(RowsOf(rows)) == multiset(incomes)
  }

  lemma InsertOne(rows: map<(Memo, nat), InternalIncome>, incomes: seq<InternalIncome>, i: InternalIncome)
    requires HoldsExactly(rows, incomes) && IncomeKey(i) !in rows
    ensures HoldsExactly(rows[IncomeKey(i) := i], incomes + [i])
  {
    var rows' := rows[IncomeKey(i) := i];
    var all, all' := RowsOf(rows), RowsOf(rows');
    forall x | x in all' ensures x in all + {i} {
      var k :| k in rows' && rows'[k] == x;
    }
    forall x | x in all + {i} ensures x in all' {
      if x == i { assert rows'[IncomeKey(i)] == i; } else { var k :| k in rows && rows[k] == x; assert rows'[k] == x; }
    }
    assert all' == all + {i} && i !in all;
    assert multiset(all') == multiset(all) + multiset{i};
  }

  lemma InsertLast(rows: map<(Memo, nat), InternalIncome>, more: seq<InternalIncome>)
    requires more != [] && KeyedFold.Run(Insert, IncomeKey, rows, more).Some?
    ensures var init := KeyedFold.Run(Insert, IncomeKey, rows, more[..|more| - 1]);
      && init.Some? && IncomeKey(more[|more| - 1]) !in init.value
      && KeyedFold.Run(Insert, IncomeKey, rows, more).value
         == init.value[IncomeKey(more[|more| - 1]) := more[|more| - 1]]
  {
  }

  lemma {:induction false} InsertAll(
    rows: map<(Memo, nat), InternalIncome>, incomes: seq<InternalIncome>, more: seq<InternalIncome>)
    requires HoldsExactly(rows, incomes) && KeyedFold.Run(Insert, IncomeKey, rows, more).Some?
    ensures HoldsExactly(KeyedFold.Run(Insert, IncomeKey, rows, more).value, incomes + more)
    decreases |more|
  {
    if more == [] {
      assert incomes + more == incomes;
    } else {
      var init, last := more[..|more| - 1], more[|more| - 1];
      InsertLast(rows, more);
      InsertAll(rows, incomes, init);
      InsertOne(KeyedFold.Run(Insert, IncomeKey, rows, init).value, incomes + init, last);
      assert incomes + init + [last] == incomes + more;
    }
  }

  ghost predicate IncomesInv(w: World)
  {
    w.db.externalIncomes == multiset(ExternalIncomes(w.blocks))
    && HoldsExactly(w.db.internalIncomes, InternalIncomes(w.blocks))
  }

  lemma CommitKeepsIncomes(db: Db, t: Transaction)
    ensures Commit(db, t).externalIncomes == db.externalIncomes && Commit(db, t).internalIncomes == db.internalIncomes
  {
  }

  lemma NextKeepsIncomes(c: Setup, chain: seq<BlockId>, w: World, step: Step, w': World)
    requires Falling(c.node, c.shard) && IncomesInv(w) && Next(c, chain, w, step, w')
    ensures IncomesInv(w')
  {
    if step.Others? {
      CommitKeepsIncomes(w.db, step.transaction);
    } else if w'.blocks != w.blocks {
      SaveKeepsIncomes(w, w.service.phase.header, step.events, w');
    }
  }

  lemma SaveKeepsIncomes(w: World, h: Header, e: Events, w': World)
    requires IncomesInv(w) && BlockOrder.Save(w.db, e) == Some(w'.db) && w'.blocks == w.blocks + [Block(h, e)]
    ensures IncomesInv(w')
  {
    assert w'.blocks[..|w'.blocks| - 1] == w.blocks;
    InsertAll(w.db.internalIncomes, InternalIncomes(w.blocks), e.internalIncomes);
  }

  // ---------------------------------------------------------------- notices

  /** Where the notices end: in the last saved block, before the one that is next. */
  ghost predicate NoticesEnd(w: World)
  {
    forall n | n in w.published :: w.blocks != [] && Behind(w, n)
  }

  ghost predicate Behind(w: World, n: Notice)
    requires w.blocks != []
  {
    var last := w.blocks[|w.blocks| - 1].header.id;
    n.block.seqno < last.seqno
    || (n.block == last
        && (w.service.Up? && w.service.phase.Pushing? ==>
              || n.income < w.service.phase.income
              || (n.income == w.service.phase.income && n.sink < w.service.phase.sink)))
  }

  lemma SaveKeepsNotices(c: Setup, chain: seq<BlockId>, w: World, events: Events, w': World)
    requires Falling(c.node, c.shard) && IsChain(c.node, c.shard, chain) && Somewhere(chain, w)
    requires NoticesOk(c, w) && NoticesEnd(w) && Next(c, chain, w, Save(events), w')
    ensures NoticesOk(c, w') && NoticesEnd(w')
  {
    if w'.service.Up? {
      var e :| At(chain, w, e);
      HeldIsNew(c, chain, w, e);
      forall n | n in w.published ensures Behind(w', n) && exists b :: b in w'.blocks && IncomeOf(c, b, n) {
      }
    }
  }

  lemma PublishKeepsNotices(c: Setup, w: World, w': World)
    requires w.service.Up? && w.service.phase.Pushing? && w.blocks != [] && w' == AfterPublish(c, w)
    requires NoticesOk(c, w) && NoticesEnd(w)
    ensures NoticesOk(c, w') && NoticesEnd(w')
  {
    var last := w.blocks[|w.blocks| - 1];
    assert last in w.blocks;
    if w'.published != w.published {
      var n := Notice(last.header.id, w.service.phase.income, w.service.phase.sink);
      assert IncomeOf(c, last, n);
      assert forall x | x in w.published :: Behind(w, x) && Earlier(x, n);
      assert forall i | 0 <= i < |w.published| :: w.published[i] in w.published;
      assert forall x | x in w'.published :: x in w.published || x == n;
    }
  }

  lemma NextKeepsNotices(c: Setup, chain: seq<BlockId>, w: World, step: Step, w': World)
    requires Falling(c.node, c.shard) && IsChain(c.node, c.shard, chain) && Somewhere(chain, w)
    requires NoticesOk(c, w) && NoticesEnd(w) && Next(c, chain, w, step, w')
    ensures NoticesOk(c, w') && NoticesEnd(w')
  {
    if step.Save? {
      SaveKeepsNotices(c, chain, w, step.events, w');
    } else if step.Publish? {
      PublishKeepsNotices(c, w, w');
    } else {
      assert w'.blocks == w.blocks && w'.published == w.published;
      assert w'.service.Up? && w'.service.phase.Pushing? ==> w.service.Up? && w'.service.phase == w.service.phase;
      forall n | n in w.published ensures Behind(w', n) { assert Behind(w, n); }
    }
  }

  // ---------------------------------------------------------------- every run

  ghost predicate Inv(c: Setup, chain: seq<BlockId>, w: World)
  {
    Somewhere(chain, w) && IncomesInv(w) && NoticesOk(c, w) && NoticesEnd(w)
  }

  lemma InitialInv(c: Setup, chain: seq<BlockId>, w: World)
    requires chain != [] && Initial(w)
    ensures Inv(c, chain, w)
  {
    assert Headers(w.blocks) == [] == Links(chain, 1, 1);
    assert At(chain, w, 0);
    assert RowsOf(w.db.internalIncomes) == {};
  }

  lemma {:induction false} RunKeeps(c: Setup, chain: seq<BlockId>, ws: seq<World>, steps: seq<Step>, n: nat)
    requires Falling(c.node, c.shard) && IsChain(c.node, c.shard, chain) && chain != []
    requires Run(c, chain, ws, steps) && n < |ws|
    ensures Inv(c, chain, ws[n])
    decreases n
  {
    if n == 0 {
      InitialInv(c, chain, ws[0]);
    } else {
      RunKeeps(c, chain, ws, steps, n - 1);
      NextKeepsPlace(c, chain, ws[n - 1], steps[n - 1], ws[n]);
      NextKeepsIncomes(c, chain, ws[n - 1], steps[n - 1], ws[n]);
      NextKeepsNotices(c, chain, ws[n - 1], steps[n - 1], ws[n]);
    }
  }

  /** Through any crashes and restarts: the saved blocks are a gap-free stretch of the chain, their incomes are
      in the tables exactly once, and no income is told twice to a notificator or before it is saved. */
  lemma EveryRunSavesTheChain(c: Setup, chain: seq<BlockId>, ws: seq<World>, steps: seq<Step>, n: nat)
    requires Falling(c.node, c.shard) && IsChain(c.node, c.shard, chain) && chain != []
    requires Run(c, chain, ws, steps) && n < |ws|
    ensures SavedAreChain(chain, ws[n].blocks)
    ensures IncomesOnce(ws[n])
    ensures NoticesOk(c, ws[n])
  {
    RunKeeps(c, chain, ws, steps, n);
    var e :| At(chain, ws[n], e);
    assert SavedUpTo(chain, ws[n].blocks, e);
  }

  /** A saved block stays saved, and the stretch only grows at its end. */
  lemma {:induction false} SavedStay(c: Setup, chain: seq<BlockId>, ws: seq<World>, steps: seq<Step>, m: nat, n: nat)
    requires Falling(c.node, c.shard) && Run(c, chain, ws, steps) && m <= n < |ws|
    ensures ws[m].blocks <= ws[n].blocks
    ensures ws[m].published <= ws[n].published
    decreases n
  {
    if m < n { SavedStay(c, chain, ws, steps, m, n - 1); }
  }

  /** Which block is saved first is decided by the first answer after the last restart: until a block is saved,
      a crash makes the service start from wherever the chain then is, for every position in it. */
  lemma FirstSavedIsAfterTheAnchor(c: Setup, chain: seq<BlockId>, i: nat, m: Master, m': Master)
    requires Falling(c.node, c.shard) && IsChain(c.node, c.shard, chain) && i + 1 < |chain|
    requires FilterByShard(m.shards, c.shard) == Some(chain[i])
    requires FilterByShard(m'.shards, c.shard) == Some(chain[i + 1]) && m.seqno != m'.seqno
    ensures var s := AfterAsk(c, State(None, None, [], false), [m, m']);
      s.Up? && s.phase == Holding(Link(chain, i + 1))
  {
    var st := State(None, None, [], false);
    FirstAnswerAnchors(c.node, c.shard, chain, st, [m, m'], i);
    var st' := Load(c.node, c.shard, st, m).value;
    WalkFindsChain(c.node, c.shard, chain, i, i);
    assert TracksTo(chain, st', i, i);
    NewBlockIsEmitted(c.node, c.shard, chain, st', i, m', i + 1);
    assert [m, m'][1..] == [m'];
  }

  // ---------------------------------------------------------------- nothing is left out

  /** On every run the block that was emitted is saved with its events if and only if the tables take them; if they do
      not, nothing is saved and the service ends. */
  lemma HeldIsSaved(c: Setup, chain: seq<BlockId>, ws: seq<World>, steps: seq<Step>, n: nat)
    requires Falling(c.node, c.shard) && IsChain(c.node, c.shard, chain) && chain != []
    requires Run(c, chain, ws, steps) && n < |steps| && steps[n].Save?
    ensures var w, w', e := ws[n], ws[n + 1], steps[n].events;
      && w.service.Up? && w.service.phase.Holding?
      && if BlockOrder.Save(w.db, e).Some? then
           && w'.blocks == w.blocks + [Block(w.service.phase.header, e)]
           && Some(w'.db) == BlockOrder.Save(w.db, e) && w'.published == w.published
           && w'.service == Up(w.service.tracker, Pushing(0, 0))
         else w' == w.(service := Down)
  {
    RunKeeps(c, chain, ws, steps, n);
    assert Next(c, chain, ws[n], steps[n], ws[n + 1]);
    var e :| At(chain, ws[n], e);
    HeldIsNew(c, chain, ws[n], e);
  }

  /** On every run with a saved block, when a block is asked for: the service goes on only with the next block of the
      chain in hand; a shutdown or an error of the tracker ends it, and nothing is saved or told. */
  lemma AskedIsHeld(c: Setup, chain: seq<BlockId>, ws: seq<World>, steps: seq<Step>, n: nat)
    requires Falling(c.node, c.shard) && IsChain(c.node, c.shard, chain) && chain != []
    requires Run(c, chain, ws, steps) && n < |steps| && steps[n].Ask? && ws[n].blocks != []
    ensures var w, w', st := ws[n], ws[n + 1], ws[n].service.tracker;
      && w.service.Up? && w'.blocks == w.blocks && w'.db == w.db && w'.published == w.published
      && (w'.service.Up? <==> ShardTracker.Next(c.node, c.shard, st, steps[n].answers).1.Emit?)
      && (st.stopped ==> w'.service.Down?)
      && (w'.service.Up? ==>
            && w'.service.phase.Holding?
            && exists e: nat :: SavedUpTo(chain, w.blocks, e) && e + 1 < |chain|
                        && w'.service.phase.header == Header(chain[e + 1], chain[e]))
  {
    RunKeeps(c, chain, ws, steps, n);
    assert Next(c, chain, ws[n], steps[n], ws[n + 1]);
    var e :| At(chain, ws[n], e);
    NextTracks(c.node, c.shard, chain, ws[n].service.tracker, e, steps[n].answers);
    assert SavedUpTo(chain, ws[n].blocks, e);
  }

  /** What is told of a block: its incomes on the side that is configured, each to every notificator. */
  ghost predicate IsTold(c: Setup, w: World, b: Block, income: nat, sink: nat)
  {
    income < (if c.depositSide then |b.events.externalIncomes| else |b.events.internalIncomes|) && sink < c.sinks ==>
      Notice(b.header.id, income, sink) in w.published
  }

  /** All that comes before this notice is told. */
  ghost predicate ToldUpTo(c: Setup, w: World, b: Block, income: nat, sink: nat)
  {
    forall i: nat, s: nat {:trigger IsTold(c, w, b, i, s)} | i < income || (i == income && s < sink) ::
      IsTold(c, w, b, i, s)
  }

  ghost predicate AllTold(c: Setup, w: World, b: Block)
  {
    forall i: nat, s: nat {:trigger IsTold(c, w, b, i, s)} :: IsTold(c, w, b, i, s)
  }

  /** While a block is told, all that comes before the next notice is told. */
  ghost predicate ToldSoFar(c: Setup, w: World)
  {
    w.service.Up? && w.service.phase.Pushing? && w.blocks != [] ==>
      ToldUpTo(c, w, w.blocks[|w.blocks| - 1], w.service.phase.income, w.service.phase.sink)
  }

  lemma PublishTells(c: Setup, w: World, w': World)
    requires w.service.Up? && w.service.phase.Pushing? && w.blocks != [] && w' == AfterPublish(c, w)
    requires ToldSoFar(c, w)
    ensures w'.service.phase.Pushing? ==> ToldSoFar(c, w')
    ensures !w'.service.phase.Pushing? ==> AllTold(c, w', w.blocks[|w.blocks| - 1])
  {
    var last, phase := w.blocks[|w.blocks| - 1], w.service.phase;
    forall i: nat, s: nat {:trigger IsTold(c, w', last, i, s)} |
      !w'.service.phase.Pushing? || i < w'.service.phase.income
      || (i == w'.service.phase.income && s < w'.service.phase.sink)
      ensures IsTold(c, w', last, i, s)
    {
      assert i < phase.income || (i == phase.income && s < phase.sink) ==> IsTold(c, w, last, i, s);
    }
  }

  lemma NextTellsSoFar(c: Setup, chain: seq<BlockId>, w: World, step: Step, w': World)
    requires Falling(c.node, c.shard) && ToldSoFar(c, w) && Next(c, chain, w, step, w')
    ensures ToldSoFar(c, w')
  {
    if step.Publish? {
      PublishTells(c, w, w');
    } else if w.service.Up? && w.service.phase.Pushing? && w'.service.Up? && w.blocks != [] {
      var last := w.blocks[|w.blocks| - 1];
      forall i: nat, s: nat {:trigger IsTold(c, w', last, i, s)} | IsTold(c, w, last, i, s)
        ensures IsTold(c, w', last, i, s)
      {
      }
    }
  }

  lemma {:induction false} RunTellsSoFar(c: Setup, chain: seq<BlockId>, ws: seq<World>, steps: seq<Step>, n: nat)
    requires Falling(c.node, c.shard) && Run(c, chain, ws, steps) && n < |ws|
    ensures ToldSoFar(c, ws[n])
    decreases n
  {
    if n > 0 {
      RunTellsSoFar(c, chain, ws, steps, n - 1);
      NextTellsSoFar(c, chain, ws[n - 1], steps[n - 1], ws[n]);
    }
  }

  /** Unless the service ends meanwhile, every income of a block is told to every notificator before the next block is
      asked for. */
  lemma AllIsTold(c: Setup, chain: seq<BlockId>, ws: seq<World>, steps: seq<Step>, n: nat)
    requires Falling(c.node, c.shard) && Run(c, chain, ws, steps) && n < |steps|
    requires ws[n].service.Up? && ws[n].service.phase.Pushing? && ws[n].blocks != []
    requires ws[n + 1].service.Up? && !ws[n + 1].service.phase.Pushing?
    ensures ws[n + 1].service.phase.Waiting? && ws[n + 1].blocks == ws[n].blocks
    ensures AllTold(c, ws[n + 1], ws[n].blocks[|ws[n].blocks| - 1])
  {
    RunTellsSoFar(c, chain, ws, steps, n);
    assert Next(c, chain, ws[n], steps[n], ws[n + 1]);
    PublishTells(c, ws[n], ws[n + 1]);
  }
}
