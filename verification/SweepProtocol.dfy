/** Sweeps over whole runs: two threads that select tasks and save them later, the expiry processor, the scanner,
    and the chain. At most one sweep of a deposit is ever under way, no scanned block is refused, and a sweep
    whose sending was scanned is never given up by expiry. */
module SweepProtocol {
  import opened Prelude
  import opened Messages
  import opened AddressBook
  import opened Sweeps
  import PayoutProtocol

  type Params = PayoutProtocol.Params

  /** What a block of the chain does to the deposits: incomes, messages that set a sweep going, and ends. */
  datatype Block = Block(time: Time, incomes: seq<Income>, sends: seq<Confirmation>, ends: seq<Finish>)

  datatype World = World(
    table: Table, incomes: seq<Income>, ton: set<Task>, jetton: set<Task>,
    chain: seq<Block>, saved: nat, synced: Option<Time>)

  const INITIAL := World(EMPTY_TABLE, [], {}, {}, [], 0, None)

  ghost predicate Sends(w: World, i: int, m: Memo)
  {
    0 <= i < |w.chain| && exists c :: c in w.chain[i].sends && c.memo == OfMemo(m)
  }

  ghost predicate EndsAt(w: World, i: int, f: Finish)
  {
    0 <= i < |w.chain| && f in w.chain[i].ends
  }

  // ---------------------------------------------------------------- steps

  datatype Step =
    | SelectTon(wallets: Tables, tonTasks: set<Task>)
    | SelectJetton(wallets: Tables, excluded: seq<Address>, jettonTasks: set<Task>)
    | SaveTon(task: Task, expiredAt: Time, memo: Memo)
    | SaveJetton(task: Task, expiredAt: Time, memo: Memo)
    | Append(block: Block)
    | Scan
    | CheckSync(now: Time)
    | Expire(now: Time, cutoff: Time)
    | Crash

  /** The chain runs only messages of saved sweeps, each in time; a sweep ends in the block that sets it going
      or later, above the income it started from; a failed end is the last thing that happens to it. The same
      TON sweep may run again, as its message outlives the account it empties. */
  ghost predicate CanAppend(c: Params, w: World, b: Block)
  {
    && (|w.chain| > 0 ==> w.chain[|w.chain| - 1].time <= b.time)
    && (forall s | s in b.sends ::
          && s.memo.OfMemo? && s.memo.memo in w.table.rows
          && b.time + c.margin <= w.table.rows[s.memo.memo].expiredAt)
    && (forall f | f in b.ends ::
          && f.memo.OfMemo? && f.memo.memo in w.table.rows && w.table.rows[f.memo.memo].sinceLt < f.lt
          && (Confirms(b.sends, f.memo.memo) || exists j :: Sends(w, j, f.memo.memo)))
    && (forall j, g | EndsAt(w, j, g) && g.failed ::
          && (forall s | s in b.sends :: s.memo != g.memo) && (forall f | f in b.ends :: f.memo != g.memo))
    && (forall i, j | 0 <= i < j < |b.ends| && b.ends[i].memo == b.ends[j].memo :: !b.ends[i].failed)
  }

  /** Jetton deposits and TON deposits are different accounts. */
  ghost predicate Kinds(isTon: Address -> bool, w: Tables)
  {
    && UniqueAddresses(w)
    && (forall i | i in w.ton && w.ton[i].kind.TonDeposit? :: isTon(w.ton[i].address))
    && (forall a | a in w.jetton && w.jetton[a].kind.JettonDeposit? :: !isTon(a))
  }

  ghost predicate Next(c: Params, isTon: Address -> bool, w: World, step: Step, w': World)
  {
    match step
    case SelectTon(wallets, ts) =>
      Kinds(isTon, wallets) && (forall t | t in ts :: TonTask(w.table, w.incomes, wallets, t)) && w' == w.(ton := ts)
    case SelectJetton(wallets, excluded, ts) =>
      Kinds(isTon, wallets) && (forall t | t in ts :: JettonTask(w.table, w.incomes, wallets, excluded, t))
      && w' == w.(jetton := ts)
    case SaveTon(t, expiredAt, memo) =>
      t in w.ton && SaveTask(w.table, t, expiredAt, memo).Ok?
      && w' == w.(table := SaveTask(w.table, t, expiredAt, memo).value, ton := w.ton - {t})
    case SaveJetton(t, expiredAt, memo) =>
      t in w.jetton && SaveTask(w.table, t, expiredAt, memo).Ok?
      && w' == w.(table := SaveTask(w.table, t, expiredAt, memo).value, jetton := w.jetton - {t})
    case Append(b) => CanAppend(c, w, b) && w' == w.(chain := w.chain + [b])
    case Scan =>
      && w.saved < |w.chain| && BlockResult(w).Ok?
      && w' == w.(table := BlockResult(w).value, incomes := w.incomes + w.chain[w.saved].incomes, saved := w.saved + 1)
    case CheckSync(now) =>
      0 < w.saved <= |w.chain| && now - w.chain[w.saved - 1].time < c.lag && w' == w.(synced := Some(now))
    case Expire(now, cutoff) =>
      && cutoff == now - c.lag && w.synced.Some? && w.synced.value <= now <= w.synced.value + c.gap
      && w' == Expiry(w, cutoff)
    case Crash => w' == w.(ton := {}, jetton := {}, synced := None)
  }

  /** What the next unsaved block does to the table. */
  function BlockResult(w: World): Result<Table, Sweeps.Error>
    requires w.saved < |w.chain|
  {
    ApplyBlock(w.table, w.chain[w.saved].sends, w.chain[w.saved].ends)
  }

  function Expiry(w: World, cutoff: Time): World
  {
    w.(table := SetExpired(w.table, cutoff), synced := None)
  }

  ghost predicate Run(c: Params, isTon: Address -> bool, ws: seq<World>, steps: seq<Step>)
  {
    && |ws| == |steps| + 1 && ws[0] == INITIAL
    && forall i | 0 <= i < |steps| :: Next(c, isTon, ws[i], steps[i], ws[i + 1])
  }

  // ---------------------------------------------------------------- what is promised

  /** At most one sweep of a deposit is unfinished, and those that did not fail start at ever later incomes. */
  ghost predicate SweptInOrder(t: Table)
  {
    && (forall m, o | m in t.rows && o in t.rows && t.rows[m].from == t.rows[o].from
                   && !t.rows[m].failed && !t.rows[o].failed
                   && t.rows[m].finishLt.None? && t.rows[o].finishLt.None? :: m == o)
    && (forall m, o | m in t.rows && o in t.rows && t.rows[m].from == t.rows[o].from
                   && !t.rows[m].failed && !t.rows[o].failed && t.rows[m].created < t.rows[o].created ::
          t.rows[m].sinceLt < t.rows[o].sinceLt)
  }

  /** A sweep whose sending was scanned fails only if the chain reports its end as failed. */
  ghost predicate SentNeverExpires(w: World)
  {
    forall m | m in w.table.rows && w.table.rows[m].sendingLt.Some? && w.table.rows[m].failed :: FailedOnChain(w, m)
  }

  ghost predicate FailedOnChain(w: World, m: Memo)
  {
    exists i, f :: i < w.saved && EndsAt(w, i, f) && f.failed && f.memo == OfMemo(m)
  }

  /** The next block, if there is one, is accepted. */
  ghost predicate Accepting(w: World)
  {
    w.saved < |w.chain| ==> BlockResult(w).Ok?
  }

  // ---------------------------------------------------------------- the invariant

  ghost predicate PendingOk(isTon: Address -> bool, w: World)
  {
    && (forall t | t in w.ton :: isTon(t.from) && MaySweep(w.table, t.from, t.lt))
    && (forall t | t in w.jetton :: !isTon(t.from) && MaySweep(w.table, t.from, t.lt))
    && (forall t, o | t in w.ton && o in w.ton && t.from == o.from :: t == o)
    && (forall t, o | t in w.jetton && o in w.jetton && t.from == o.from :: t == o)
  }

  ghost predicate ChainOk(c: Params, w: World)
  {
    && w.saved <= |w.chain|
    && (forall i, j | 0 <= i <= j < |w.chain| :: w.chain[i].time <= w.chain[j].time)
    && (forall i, s | 0 <= i < |w.chain| && s in w.chain[i].sends ::
          && s.memo.OfMemo? && s.memo.memo in w.table.rows
          && w.chain[i].time + c.margin <= w.table.rows[s.memo.memo].expiredAt)
    && (forall i, f | EndsAt(w, i, f) :: EndOk(w, i, f))
    && (forall i, j | 0 <= i < j < |w.chain| :: NothingAfterFailure(w, i, j))
    && (forall i, p, q | 0 <= i < |w.chain| && 0 <= p < q < |w.chain[i].ends|
                      && w.chain[i].ends[p].memo == w.chain[i].ends[q].memo :: !w.chain[i].ends[p].failed)
  }

  ghost predicate EndOk(w: World, i: int, f: Finish)
  {
    && f.memo.OfMemo? && f.memo.memo in w.table.rows && w.table.rows[f.memo.memo].sinceLt < f.lt
    && exists j :: j <= i && Sends(w, j, f.memo.memo)
  }

  ghost predicate NothingAfterFailure(w: World, i: int, j: int)
    requires 0 <= i < |w.chain| && 0 <= j < |w.chain|
  {
    forall g | g in w.chain[i].ends && g.failed ::
      (forall s | s in w.chain[j].sends :: s.memo != g.memo) && (forall f | f in w.chain[j].ends :: f.memo != g.memo)
  }

  /** Rows agree with the scanned part of the chain. */
  ghost predicate RowsMatch(w: World)
  {
    && (forall m, i | m in w.table.rows && i < w.saved && Sends(w, i, m) :: w.table.rows[m].sendingLt.Some?)
    && SentNeverExpires(w)
  }

  /** Sweeps end above the income they started from. */
  ghost predicate EndsLater(t: Table)
  {
    forall m | m in t.rows && t.rows[m].finishLt.Some? :: t.rows[m].sinceLt < t.rows[m].finishLt.value
  }

  /** What holds on every run, however the clocks are read. */
  ghost predicate OrderInv(c: Params, isTon: Address -> bool, w: World)
  {
    OneAtATime(w.table) && PendingOk(isTon, w) && ChainOk(c, w) && EndsLater(w.table) && SentNeverExpires(w)
  }

  /** A sweep given up before its sending was seen can never be sent. */
  ghost predicate GivenUpIsDead(c: Params, w: World)
  {
    forall m | m in w.table.rows && w.table.rows[m].failed && w.table.rows[m].sendingLt.None? ::
      && (forall i :: !Sends(w, i, m))
      && 0 < w.saved <= |w.chain| && w.table.rows[m].expiredAt < w.chain[w.saved - 1].time + c.margin
  }

  ghost predicate SyncOk(c: Params, w: World)
  {
    w.synced.Some? ==> 0 < w.saved <= |w.chain| && w.synced.value - w.chain[w.saved - 1].time < c.lag
  }

  /** What holds besides when the margin covers the clock gap. */
  ghost predicate WorldInv(c: Params, w: World)
  {
    ChainOk(c, w) && RowsMatch(w) && GivenUpIsDead(c, w) && SyncOk(c, w)
  }

  // ---------------------------------------------------------------- the chain and the rows, step by step

  lemma EndStays(w: World, w': World, i: int, f: Finish)
    requires EndsAt(w, i, f) && EndOk(w, i, f) && w.chain <= w'.chain
    requires forall m | m in w.table.rows :: m in w'.table.rows && w'.table.rows[m].sinceLt == w.table.rows[m].sinceLt
    ensures EndOk(w', i, f)
  {
    var j :| j <= i && Sends(w, j, f.memo.memo);
    assert Sends(w', j, f.memo.memo);
  }

  lemma FailureStays(w: World, w': World, m: Memo)
    requires FailedOnChain(w, m) && w.chain <= w'.chain && w.saved <= w'.saved
    ensures FailedOnChain(w', m)
  {
    var i, f :| i < w.saved && EndsAt(w, i, f) && f.failed && f.memo == OfMemo(m);
    assert EndsAt(w', i, f);
  }

  /** The rows of `w` stay, with their start and their expiry time; the chain is the same. */
  ghost predicate RowsStay(w: World, w': World)
  {
    && w'.chain == w.chain
    && forall m | m in w.table.rows :: m in w'.table.rows
         && w'.table.rows[m].sinceLt == w.table.rows[m].sinceLt
         && w'.table.rows[m].expiredAt == w.table.rows[m].expiredAt
  }

  lemma ChainStays(c: Params, w: World, w': World)
    requires ChainOk(c, w) && RowsStay(w, w') && w'.saved <= |w'.chain|
    ensures ChainOk(c, w')
  {
    forall i, f | EndsAt(w', i, f) ensures EndOk(w', i, f) {
      assert EndsAt(w, i, f);
      EndStays(w, w', i, f);
    }
    forall i, j | 0 <= i < j < |w.chain| ensures NothingAfterFailure(w', i, j) { assert NothingAfterFailure(w, i, j); }
  }

  lemma AppendKeepsEnds(c: Params, w: World, b: Block, w': World, i: int, f: Finish)
    requires ChainOk(c, w) && CanAppend(c, w, b) && w' == w.(chain := w.chain + [b]) && EndsAt(w', i, f)
    ensures EndOk(w', i, f)
  {
    var n := |w.chain|;
    if i < n {
      assert EndsAt(w, i, f);
      EndStays(w, w', i, f);
    } else if Confirms(b.sends, f.memo.memo) {
      assert Sends(w', n, f.memo.memo);
    } else {
      var j :| Sends(w, j, f.memo.memo);
      assert Sends(w', j, f.memo.memo);
    }
  }

  lemma AppendKeepsChain(c: Params, w: World, b: Block, w': World)
    requires ChainOk(c, w) && CanAppend(c, w, b) && w' == w.(chain := w.chain + [b])
    ensures ChainOk(c, w')
  {
    var n := |w.chain|;
    forall i, f | EndsAt(w', i, f) ensures EndOk(w', i, f) { AppendKeepsEnds(c, w, b, w', i, f); }
    forall i, j | 0 <= i < j < |w'.chain| ensures NothingAfterFailure(w', i, j) {
      if j < n {
        assert NothingAfterFailure(w, i, j);
      } else {
        assert forall g | g in w.chain[i].ends :: EndsAt(w, i, g);
      }
    }
  }

  /** Nothing that fails a sent sweep happens outside a scan. */
  lemma FailuresStay(w: World, w': World)
    requires SentNeverExpires(w) && w.chain <= w'.chain && w.saved <= w'.saved
    requires forall m | m in w'.table.rows && w'.table.rows[m].sendingLt.Some? && w'.table.rows[m].failed ::
               (m in w.table.rows && w.table.rows[m].sendingLt.Some? && w.table.rows[m].failed) || FailedOnChain(w', m)
    ensures SentNeverExpires(w')
  {
    forall m | FailedOnChain(w, m) ensures FailedOnChain(w', m) { FailureStays(w, w', m); }
  }

  // ---------------------------------------------------------------- sweeps in order

  /** What the queries select may be swept, now and whatever the other threads do before it is saved. */
  lemma DueMaySweep(w: World, ton: bool, deposit: Address, lt: nat)
    requires OneAtATime(w.table) && EndsLater(w.table) && Due(w.table, w.incomes, ton, deposit, lt)
    ensures MaySweep(w.table, deposit, lt)
  {
    var t := w.table;
    forall m | m in t.rows && t.rows[m].from == deposit && !t.rows[m].failed
      ensures t.rows[m].finishLt.Some? && t.rows[m].sinceLt < lt
    {
      var all := set o | o in t.rows && !t.rows[o].failed && t.rows[o].from == deposit;
      assert m in all;
      var n := NewestExists(t, all);
      assert Newest(t, n) && Ordered(t, m, n);
      assert t.rows[n].sinceLt <= SweptTo(t.rows[n], ton);
    }
  }

  lemma SelectKeepsOrder(c: Params, isTon: Address -> bool, w: World, step: Step, w': World)
    requires OrderInv(c, isTon, w) && Next(c, isTon, w, step, w') && (step.SelectTon? || step.SelectJetton?)
    ensures OrderInv(c, isTon, w')
  {
    ChainStays(c, w, w');
    FailuresStay(w, w');
    if step.SelectTon? {
      forall t | t in step.tonTasks
        ensures isTon(t.from) && MaySweep(w.table, t.from, t.lt)
        ensures forall o | o in step.tonTasks && o.from == t.from :: o == t
      {
        TonQueryIsSpec(w.table, w.incomes, step.wallets, t);
        DueMaySweep(w, true, t.from, t.lt);
      }
    } else {
      forall t | t in step.jettonTasks
        ensures !isTon(t.from) && MaySweep(w.table, t.from, t.lt)
        ensures forall o | o in step.jettonTasks && o.from == t.from :: o == t
      {
        JettonQueryIsSpec(w.table, w.incomes, step.wallets, step.excluded, t);
        DueMaySweep(w, false, t.from, t.lt);
      }
    }
  }

  lemma SaveKeepsOrder(c: Params, isTon: Address -> bool, w: World, t: Task, expiredAt: Time, memo: Memo, w': World)
    requires OrderInv(c, isTon, w)
    requires SaveTask(w.table, t, expiredAt, memo).Ok? && w'.table == SaveTask(w.table, t, expiredAt, memo).value
    requires w'.chain == w.chain && w'.saved == w.saved
    requires (t in w.ton && w'.ton == w.ton - {t} && w'.jetton == w.jetton)
             || (t in w.jetton && w'.jetton == w.jetton - {t} && w'.ton == w.ton)
    ensures OrderInv(c, isTon, w')
  {
    SaveTaskKeeps(w.table, t, expiredAt, memo);
    ChainStays(c, w, w');
    FailuresStay(w, w');
    forall o | o in w'.ton || o in w'.jetton ensures MaySweep(w'.table, o.from, o.lt) {
      assert o.from != t.from;
    }
  }

  lemma ScanKeepsOrder(c: Params, isTon: Address -> bool, w: World, w': World)
    requires OrderInv(c, isTon, w) && Next(c, isTon, w, Scan, w')
    ensures OrderInv(c, isTon, w')
  {
    ScannedRows(w);
    ForwardKeeps(w.table, w'.table);
    ChainStays(c, w, w');
    forall m | m in w'.table.rows && w'.table.rows[m].finishLt.Some?
      ensures w'.table.rows[m].sinceLt < w'.table.rows[m].finishLt.value
    {
      assert forall f | f in w.chain[w.saved].ends :: EndsAt(w, w.saved, f) && EndOk(w, w.saved, f);
    }
    ScanKeepsSent(w, w');
  }

  lemma ScanKeepsSent(w: World, w': World)
    requires SentNeverExpires(w) && w.saved < |w.chain| && BlockResult(w).Ok?
    requires w'.table == BlockResult(w).value && w'.chain == w.chain && w'.saved == w.saved + 1
    ensures SentNeverExpires(w')
  {
    var b := w.chain[w.saved];
    ScannedRows(w);
    AcceptedIffConfirmed(w.table, b.sends, b.ends);
    forall m | m in w'.table.rows && w'.table.rows[m].failed && Fails(b.ends, m) ensures FailedOnChain(w', m) {
      var f :| f in b.ends && f.memo == OfMemo(m) && f.failed;
      assert EndsAt(w', w.saved, f);
    }
    FailuresStay(w, w');
  }

  lemma NextKeepsOrder(c: Params, isTon: Address -> bool, w: World, step: Step, w': World)
    requires OrderInv(c, isTon, w) && Next(c, isTon, w, step, w')
    ensures OrderInv(c, isTon, w')
  {
    match step
    case SelectTon(_, _) => SelectKeepsOrder(c, isTon, w, step, w');
    case SelectJetton(_, _, _) => SelectKeepsOrder(c, isTon, w, step, w');
    case SaveTon(t, e, m) => SaveKeepsOrder(c, isTon, w, t, e, m, w');
    case SaveJetton(t, e, m) => SaveKeepsOrder(c, isTon, w, t, e, m, w');
    case Append(b) =>
      AppendKeepsChain(c, w, b, w');
      FailuresStay(w, w');
    case Scan => ScanKeepsOrder(c, isTon, w, w');
    case Expire(now, cutoff) => ExpireKeepsOrder(c, isTon, w, cutoff);
    case _ =>
      ChainStays(c, w, w');
      FailuresStay(w, w');
  }

  lemma ExpireKeepsOrder(c: Params, isTon: Address -> bool, w: World, cutoff: Time)
    requires OrderInv(c, isTon, w)
    ensures OrderInv(c, isTon, Expiry(w, cutoff))
  {
    var w' := Expiry(w, cutoff);
    SetExpiredForward(w.table, cutoff);
    ForwardKeeps(w.table, w'.table);
    ChainStays(c, w, w');
    FailuresStay(w, w');
  }

  lemma {:induction false} RunKeepsOrder(c: Params, isTon: Address -> bool, ws: seq<World>, steps: seq<Step>, n: nat)
    requires Run(c, isTon, ws, steps) && n < |ws|
    ensures OrderInv(c, isTon, ws[n])
    decreases n
  {
    if n > 0 {
      RunKeepsOrder(c, isTon, ws, steps, n - 1);
      NextKeepsOrder(c, isTon, ws[n - 1], steps[n - 1], ws[n]);
    }
  }

  /** On every run, whatever the clocks say and although selecting and saving are separate steps: the sweeps of
      a deposit come one after the other, and one whose sending was scanned is never given up by expiry. */
  lemma EveryRunSweepsInOrder(c: Params, isTon: Address -> bool, ws: seq<World>, steps: seq<Step>, n: nat)
    requires Run(c, isTon, ws, steps) && n < |ws|
    ensures SweptInOrder(ws[n].table) && SentNeverExpires(ws[n])
  {
    RunKeepsOrder(c, isTon, ws, steps, n);
  }

  // ---------------------------------------------------------------- a block is scanned

  /** What an accepted block does to each row. */
  lemma ScannedRows(w: World)
    requires w.saved < |w.chain| && BlockResult(w).Ok?
    ensures AllForward(w.table, BlockResult(w).value)
    ensures forall m | m in w.table.rows ::
              var b, r, r' := w.chain[w.saved], w.table.rows[m], BlockResult(w).value.rows[m];
              && (r'.sendingLt.Some? <==> r.sendingLt.Some? || Confirms(b.sends, m))
              && (r'.failed <==> r.failed || Fails(b.ends, m))
              && (r'.finishLt == r.finishLt || (r'.finishLt.Some? && Ends(b.ends, m, r'.finishLt.value)))
  {
    var b := w.chain[w.saved];
    var t1 := ConfirmAll(w.table, b.sends).value;
    ConfirmAllForward(w.table, b.sends);
    FinishAllForward(t1, b.ends);
  }

  /** A row that the next block mentions did not fail. */
  lemma MentionedIsAlive(c: Params, w: World, m: Memo)
    requires ChainOk(c, w) && RowsMatch(w) && GivenUpIsDead(c, w) && w.saved < |w.chain| && m in w.table.rows
    requires Sends(w, w.saved, m) || exists f :: f in w.chain[w.saved].ends && f.memo == OfMemo(m)
    ensures !w.table.rows[m].failed
  {
    forall i, g | i < w.saved && EndsAt(w, i, g) && g.failed ensures g.memo != OfMemo(m) {
      assert NothingAfterFailure(w, i, w.saved);
    }
    if f :| f in w.chain[w.saved].ends && f.memo == OfMemo(m) {
      assert EndsAt(w, w.saved, f);
      assert EndOk(w, w.saved, f);
    }
  }

  lemma NextBlockOk(c: Params, w: World)
    requires ChainOk(c, w) && RowsMatch(w) && GivenUpIsDead(c, w) && w.saved < |w.chain|
    ensures BlockResult(w).Ok?
  {
    var b := w.chain[w.saved];
    forall s | s in b.sends ensures s.memo.OfMemo? && s.memo.memo in w.table.rows && !w.table.rows[s.memo.memo].failed {
      assert Sends(w, w.saved, s.memo.memo);
      MentionedIsAlive(c, w, s.memo.memo);
    }
    forall f | f in b.ends
      ensures f.memo.OfMemo? && f.memo.memo in w.table.rows && !w.table.rows[f.memo.memo].failed
      ensures w.table.rows[f.memo.memo].sendingLt.Some? || Confirms(b.sends, f.memo.memo)
    {
      assert EndsAt(w, w.saved, f) && EndOk(w, w.saved, f);
      MentionedIsAlive(c, w, f.memo.memo);
      var j :| j <= w.saved && Sends(w, j, f.memo.memo);
    }
    AcceptedIffConfirmed(w.table, b.sends, b.ends);
  }

  /** A sweep that ended has been sent. */
  lemma EndedWasSent(w: World, w': World, f: Finish, m: Memo)
    requires w.saved < |w.chain| && EndOk(w, w.saved, f) && f.memo == OfMemo(m) && RowsMatch(w) && m in w'.table.rows
    requires w'.table.rows[m].sendingLt.Some?
        <==> w.table.rows[m].sendingLt.Some? || Confirms(w.chain[w.saved].sends, m)
    ensures w'.table.rows[m].sendingLt.Some?
  {
    var j :| j <= w.saved && Sends(w, j, m);
  }

  lemma ScanMatches(c: Params, w: World, w': World)
    requires ChainOk(c, w) && RowsMatch(w) && GivenUpIsDead(c, w) && w.saved < |w.chain|
    requires BlockResult(w).Ok? && w'.table == BlockResult(w).value && w'.chain == w.chain && w'.saved == w.saved + 1
    ensures RowsMatch(w')
  {
    var b := w.chain[w.saved];
    ScannedRows(w);
    forall m, i | m in w'.table.rows && i < w'.saved && Sends(w', i, m) ensures w'.table.rows[m].sendingLt.Some? {
      assert Sends(w, i, m);
    }
    ScanKeepsSent(w, w');
  }

  lemma ScanKeeps(c: Params, isTon: Address -> bool, w: World, w': World)
    requires WorldInv(c, w) && Next(c, isTon, w, Scan, w')
    ensures WorldInv(c, w')
  {
    var b := w.chain[w.saved];
    ScannedRows(w);
    ChainStays(c, w, w');
    ScanMatches(c, w, w');
    forall m, i ensures Sends(w', i, m) <==> Sends(w, i, m) {}
    forall m | m in w'.table.rows && w'.table.rows[m].failed && w'.table.rows[m].sendingLt.None?
      ensures w.table.rows[m].failed && w.table.rows[m].sendingLt.None?
    {
      if f :| f in b.ends && f.memo == OfMemo(m) && f.failed {
        assert EndsAt(w, w.saved, f) && EndOk(w, w.saved, f);
        EndedWasSent(w, w', f, m);
      }
    }
    assert w.saved > 0 ==> w.chain[w.saved - 1].time <= b.time;
  }

  // ---------------------------------------------------------------- the other steps

  /** A step that keeps the sendings, failures and expiry times of all rows, the chain and what was scanned. */
  lemma SameRows(c: Params, w: World, w': World)
    requires WorldInv(c, w) && ChainOk(c, w')
    requires w'.chain == w.chain && w'.saved == w.saved
    requires forall m | m in w.table.rows :: m in w'.table.rows && w'.table.rows[m] == w.table.rows[m]
    requires forall m | m in w'.table.rows && m !in w.table.rows :: !w'.table.rows[m].failed
    ensures RowsMatch(w') && GivenUpIsDead(c, w')
  {
    forall m, i ensures Sends(w', i, m) <==> Sends(w, i, m) {}
    forall m, i | Sends(w, i, m) ensures m in w.table.rows { SendsAreInTime(c, w, i, m); }
    forall m | FailedOnChain(w, m) ensures FailedOnChain(w', m) { FailureStays(w, w', m); }
  }

  lemma SendsAreInTime(c: Params, w: World, i: int, m: Memo)
    requires ChainOk(c, w) && Sends(w, i, m)
    ensures m in w.table.rows && w.chain[i].time + c.margin <= w.table.rows[m].expiredAt
  {
    var s :| s in w.chain[i].sends && s.memo == OfMemo(m);
  }

  lemma AppendKeeps(c: Params, isTon: Address -> bool, w: World, b: Block, w': World)
    requires WorldInv(c, w) && Next(c, isTon, w, Append(b), w')
    ensures WorldInv(c, w')
  {
    var n := |w.chain|;
    AppendKeepsChain(c, w, b, w');
    forall m, i ensures Sends(w', i, m) <==> Sends(w, i, m) || (i == n && Confirms(b.sends, m)) {}
    forall m | FailedOnChain(w, m) ensures FailedOnChain(w', m) { FailureStays(w, w', m); }
    forall m | m in w.table.rows && w.table.rows[m].failed && w.table.rows[m].sendingLt.None?
      ensures !Confirms(b.sends, m)
    {
      assert w.chain[w.saved - 1].time <= w.chain[n - 1].time <= b.time;
    }
  }

  lemma ExpireKeeps(c: Params, w: World, now: Time, cutoff: Time)
    requires c.gap <= c.margin && cutoff == now - c.lag
    requires WorldInv(c, w) && w.synced.Some? && w.synced.value <= now <= w.synced.value + c.gap
    ensures WorldInv(c, Expiry(w, cutoff))
  {
    var w' := Expiry(w, cutoff);
    SetExpiredForward(w.table, cutoff);
    ChainStays(c, w, w');
    forall m, i ensures Sends(w', i, m) <==> Sends(w, i, m) {}
    forall m | FailedOnChain(w, m) ensures FailedOnChain(w', m) { FailureStays(w, w', m); }
    forall m | m in w.table.rows && Overdue(w.table.rows[m], cutoff)
      ensures w.table.rows[m].expiredAt < w.chain[w.saved - 1].time + c.margin
      ensures forall i :: !Sends(w, i, m)
    {
      assert forall i | w.saved <= i < |w.chain| :: w.chain[w.saved - 1].time <= w.chain[i].time;
      PayoutProtocol.ExpiryWindow(c, w.table.rows[m].expiredAt, w.chain[w.saved - 1].time, w.synced.value, now);
    }
  }

  lemma NextKeeps(c: Params, isTon: Address -> bool, w: World, step: Step, w': World)
    requires c.gap <= c.margin && WorldInv(c, w) && Next(c, isTon, w, step, w')
    ensures WorldInv(c, w')
  {
    match step
    case Append(b) => AppendKeeps(c, isTon, w, b, w');
    case Scan => ScanKeeps(c, isTon, w, w');
    case Expire(now, cutoff) => ExpireKeeps(c, w, now, cutoff);
    case _ =>
      ChainStays(c, w, w');
      SameRows(c, w, w');
  }

  lemma {:induction false} RunKeeps(c: Params, isTon: Address -> bool, ws: seq<World>, steps: seq<Step>, n: nat)
    requires c.gap <= c.margin && Run(c, isTon, ws, steps) && n < |ws|
    ensures WorldInv(c, ws[n])
    decreases n
  {
    if n > 0 {
      RunKeeps(c, isTon, ws, steps, n - 1);
      NextKeeps(c, isTon, ws[n - 1], steps[n - 1], ws[n]);
    }
  }

  /** When the margin covers the gap between the two clock readings, no run reaches "invalid event order",
      or a success for a sweep that was given up, or any other refusal of a block. */
  lemma EveryRunIsAccepting(c: Params, isTon: Address -> bool, ws: seq<World>, steps: seq<Step>, n: nat)
    requires c.gap <= c.margin && Run(c, isTon, ws, steps) && n < |ws|
    ensures Accepting(ws[n])
  {
    RunKeeps(c, isTon, ws, steps, n);
    if ws[n].saved < |ws[n].chain| { NextBlockOk(c, ws[n]); }
  }
}
