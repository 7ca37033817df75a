/** Moving deposits to the hot wallet: the table internal_withdrawals, its transactions, and the two nested
    task queries (db/db.go). */
module Sweeps {
  import opened Prelude
  import opened Messages
  import opened AddressBook
  import Batch
  import HotWalletScan
  import JettonIncome

  type Task = Batch.SweepTask
  type Confirmation = HotWalletScan.Confirmation
  type Finish = JettonIncome.Withdrawal

  /** A row, with its place in the order of creation. */
  datatype Row = Row(
    created: nat, from: Address, sinceLt: nat, expiredAt: Time,
    sendingLt: Option<nat>, finishLt: Option<nat>, finishedAt: Option<nat>, amount: int, failed: bool)

  datatype Table = Table(next: nat, rows: map<Memo, Row>)

  /** A row of external_incomes, as far as the task queries look at it. */
  datatype Income = Income(deposit: Address, lt: nat)

  datatype Error = NotUnique | BadMemo | UnknownMemo | ExpiredButSent | InvalidEventOrder

  const EMPTY_TABLE := Table(0, map[])

  // ---------------------------------------------------------------- transactions

  function FreshRow(t: Table, task: Task, expiredAt: Time): Row
  {
    Row(t.next, task.from, task.lt, expiredAt, None, None, None, 0, false)
  }

  /** SaveInternalWithdrawalTask */
  function SaveTask(t: Table, task: Task, expiredAt: Time, memo: Memo): Result<Table, Error>
  {
    if memo in t.rows then Err(Error.NotUnique)
    else Ok(Table(t.next + 1, t.rows[memo := FreshRow(t, task, expiredAt)]))
  }

  /** applySendingConfirmations */
  function Confirm(t: Table, c: Confirmation): Result<Table, Error>
  {
    if !c.memo.OfMemo? then Err(BadMemo)
    else if c.memo.memo !in t.rows then Err(UnknownMemo)
    else if t.rows[c.memo.memo].failed then Err(ExpiredButSent)
    else Ok(t.(rows := t.rows[c.memo.memo := t.rows[c.memo.memo].(sendingLt := Some(c.lt))]))
  }

  function Finished(r: Row, w: Finish): Row
  {
    if w.failed then r.(failed := true)
    else r.(finishLt := Some(w.lt), finishedAt := Some(w.utime), amount := r.amount + w.amount)
  }

  /** updateInternalWithdrawal; a memo without a row is taken for one without a sending confirmation. */
  function Finishing(t: Table, w: Finish): Result<Table, Error>
  {
    if !w.memo.OfMemo? then Err(BadMemo)
    else if w.memo.memo !in t.rows then Err(InvalidEventOrder)
    else if t.rows[w.memo.memo].failed then Err(ExpiredButSent)
    else if t.rows[w.memo.memo].sendingLt.None? then Err(InvalidEventOrder)
    else Ok(t.(rows := t.rows[w.memo.memo := Finished(t.rows[w.memo.memo], w)]))
  }

  function ConfirmAll(t: Table, cs: seq<Confirmation>): Result<Table, Error>
    decreases |cs|
  {
    if cs == [] then Ok(t)
    else
      var t1 :- ConfirmAll(t, cs[..|cs| - 1]);
      Confirm(t1, cs[|cs| - 1])
  }

  function FinishAll(t: Table, ws: seq<Finish>): Result<Table, Error>
    decreases |ws|
  {
    if ws == [] then Ok(t)
    else
      var t1 :- FinishAll(t, ws[..|ws| - 1]);
      Finishing(t1, ws[|ws| - 1])
  }

  /** The part of SaveParsedBlockData that concerns sweeps: all confirmations, then all withdrawals. */
  function ApplyBlock(t: Table, cs: seq<Confirmation>, ws: seq<Finish>): Result<Table, Error>
  {
    var t1 :- ConfirmAll(t, cs);
    FinishAll(t1, ws)
  }

  predicate Overdue(r: Row, cutoff: Time)
  {
    r.expiredAt < cutoff && r.sendingLt.None? && !r.failed
  }

  function SetExpired(t: Table, cutoff: Time): Table
  {
    t.(rows := map m | m in t.rows :: if Overdue(t.rows[m], cutoff) then t.rows[m].(failed := true) else t.rows[m])
  }

  // ---------------------------------------------------------------- the task queries, as they are written

  /** The inner query: sweeps that did not fail and are the latest of their deposit by since_lt. */
  ghost predicate Latest(t: Table, m: Memo)
  {
    && m in t.rows && !t.rows[m].failed
    && forall o | o in t.rows && !t.rows[o].failed && t.rows[o].from == t.rows[m].from ::
         t.rows[o].sinceLt <= t.rows[m].sinceLt
  }

  ghost predicate LatestOf(t: Table, m: Memo, deposit: Address)
  {
    Latest(t, m) && t.rows[m].from == deposit
  }

  /** One row of the left join of an income with the inner query; None stands for NULL columns. */
  ghost predicate LeftJoined(t: Table, i: Income, m: Option<Memo>)
  {
    match m
    case Some(memo) => LatestOf(t, memo, i.deposit)
    case None => forall memo :: !LatestOf(t, memo, i.deposit)
  }

  /** The WHERE clause, for TON or for jettons. */
  predicate Passes(t: Table, ton: bool, i: Income, m: Option<Memo>)
  {
    match m
    case None => true
    case Some(memo) =>
      memo in t.rows && t.rows[memo].finishLt.Some?
      && (if ton then i.lt > t.rows[memo].finishLt.value else i.lt > t.rows[memo].sinceLt)
  }

  ghost predicate Joined(t: Table, incomes: seq<Income>, ton: bool, i: Income, m: Option<Memo>)
  {
    i in incomes && LeftJoined(t, i, m) && Passes(t, ton, i, m)
  }

  ghost predicate SomeJoined(t: Table, incomes: seq<Income>, ton: bool, i: Income)
  {
    exists m :: Joined(t, incomes, ton, i, m)
  }

  /** GROUP BY deposit with MAX(lt). */
  ghost predicate Grouped(t: Table, incomes: seq<Income>, ton: bool, deposit: Address, lt: nat)
  {
    && SomeJoined(t, incomes, ton, Income(deposit, lt))
    && forall i: Income | i.deposit == deposit && SomeJoined(t, incomes, ton, i) :: i.lt <= lt
  }

  /** JOIN ton_wallets ... AND type = ton_deposit */
  predicate OfTonDeposit(w: Tables, task: Task)
  {
    && task.subwalletId in w.ton && w.ton[task.subwalletId].address == task.from
    && w.ton[task.subwalletId].kind.TonDeposit? && task.currency == TON
  }

  /** JOIN jetton_wallets LEFT JOIN ton_wallets ... AND NOT tw.address = ANY(excluded). A wallet without owner
      row passes only when nothing is excluded: NULL = ANY of an empty array is false, else NULL. */
  predicate OfJettonDeposit(w: Tables, excluded: seq<Address>, task: Task)
  {
    && task.from in w.jetton && w.jetton[task.from].kind.JettonDeposit?
    && w.jetton[task.from].subwalletId == task.subwalletId && w.jetton[task.from].currency == task.currency
    && (excluded == [] || (task.subwalletId in w.ton && w.ton[task.subwalletId].address !in excluded))
  }

  /** A row of GetTonInternalWithdrawalTasks before its LIMIT. */
  ghost predicate TonTask(t: Table, incomes: seq<Income>, w: Tables, task: Task)
  {
    OfTonDeposit(w, task) && Grouped(t, incomes, true, task.from, task.lt)
  }

  /** A row of GetJettonInternalWithdrawalTasks before its LIMIT. */
  ghost predicate JettonTask(t: Table, incomes: seq<Income>, w: Tables, excluded: seq<Address>, task: Task)
  {
    OfJettonDeposit(w, excluded, task) && Grouped(t, incomes, false, task.from, task.lt)
  }

  // ---------------------------------------------------------------- the task queries, as they are meant

  /** A sweep of the deposit is under way. */
  ghost predicate Busy(t: Table, deposit: Address)
  {
    exists m :: m in t.rows && !t.rows[m].failed && t.rows[m].from == deposit && t.rows[m].finishLt.None?
  }

  /** The last income of the deposit. */
  ghost predicate LastIncome(incomes: seq<Income>, deposit: Address, lt: nat)
  {
    Income(deposit, lt) in incomes && forall i | i in incomes && i.deposit == deposit :: i.lt <= lt
  }

  /** Up to where the deposit has been swept by this sweep. */
  function SweptTo(r: Row, ton: bool): nat
  {
    if ton && r.finishLt.Some? then r.finishLt.value else r.sinceLt
  }

  ghost predicate Newest(t: Table, m: Memo)
  {
    && m in t.rows && !t.rows[m].failed
    && forall o | o in t.rows && !t.rows[o].failed && t.rows[o].from == t.rows[m].from ::
         t.rows[o].created <= t.rows[m].created
  }

  /** Nothing is in flight for the deposit, and its last income is later than its newest sweep reached. */
  ghost predicate Due(t: Table, incomes: seq<Income>, ton: bool, deposit: Address, lt: nat)
  {
    && !Busy(t, deposit) && LastIncome(incomes, deposit, lt)
    && forall m | Newest(t, m) && t.rows[m].from == deposit :: SweptTo(t.rows[m], ton) < lt
  }

  // ---------------------------------------------------------------- what all transactions keep

  /** Of two sweeps of a deposit that did not fail, the older one is finished and began at an earlier income. */
  ghost predicate Ordered(t: Table, m: Memo, o: Memo)
    requires m in t.rows && o in t.rows
  {
    var r, later := t.rows[m], t.rows[o];
    r.from == later.from && !r.failed && !later.failed && r.created < later.created ==>
      r.finishLt.Some? && r.sinceLt < later.sinceLt
  }

  ghost predicate OneAtATime(t: Table)
  {
    && (forall m | m in t.rows :: t.rows[m].created < t.next)
    && (forall m, o | m in t.rows && o in t.rows && t.rows[m].created == t.rows[o].created :: m == o)
    && (forall m, o | m in t.rows && o in t.rows :: Ordered(t, m, o))
  }

  /** Saving a sweep of the deposit up to `lt` is in order. */
  ghost predicate MaySweep(t: Table, deposit: Address, lt: nat)
  {
    forall m | m in t.rows && t.rows[m].from == deposit && !t.rows[m].failed ::
      t.rows[m].finishLt.Some? && t.rows[m].sinceLt < lt
  }

  lemma SaveTaskKeeps(t: Table, task: Task, expiredAt: Time, memo: Memo)
    requires OneAtATime(t) && MaySweep(t, task.from, task.lt) && SaveTask(t, task, expiredAt, memo).Ok?
    ensures OneAtATime(SaveTask(t, task, expiredAt, memo).value)
  {
    var t' := SaveTask(t, task, expiredAt, memo).value;
    forall m, o | m in t'.rows && o in t'.rows ensures Ordered(t', m, o) {
      if m != memo && o != memo { assert Ordered(t, m, o); }
    }
  }

  /** Rows only ever go forward: identity and start never change, what is finished or failed stays so. */
  predicate Forward(r: Row, r': Row)
  {
    && r'.created == r.created && r'.from == r.from && r'.sinceLt == r.sinceLt && r'.expiredAt == r.expiredAt
    && (r.failed ==> r'.failed) && (r.finishLt.Some? ==> r'.finishLt.Some?)
    && (r.sendingLt.Some? ==> r'.sendingLt.Some?)
  }

  ghost predicate AllForward(t: Table, t': Table)
  {
    && t'.next == t.next && t'.rows.Keys == t.rows.Keys
    && forall m | m in t.rows :: Forward(t.rows[m], t'.rows[m])
  }

  lemma ForwardKeeps(t: Table, t': Table)
    requires AllForward(t, t')
    ensures OneAtATime(t) ==> OneAtATime(t')
    ensures forall a, lt | MaySweep(t, a, lt) :: MaySweep(t', a, lt)
  {
    if OneAtATime(t) {
      forall m, o | m in t'.rows && o in t'.rows ensures Ordered(t', m, o) { assert Ordered(t, m, o); }
    }
  }

  lemma {:induction false} ConfirmAllForward(t: Table, cs: seq<Confirmation>)
    requires ConfirmAll(t, cs).Ok?
    ensures AllForward(t, ConfirmAll(t, cs).value)
    ensures forall m | m in t.rows :: var r := ConfirmAll(t, cs).value.rows[m];
              && r == t.rows[m].(sendingLt := r.sendingLt)
              && (r.sendingLt.Some? <==> t.rows[m].sendingLt.Some? || Confirms(cs, m))
    decreases |cs|
  {
    if cs != [] {
      ConfirmAllForward(t, cs[..|cs| - 1]);
      forall m ensures Confirms(cs, m) <==> Confirms(cs[..|cs| - 1], m) || cs[|cs| - 1].memo == OfMemo(m) {
        assert forall c :: c in cs <==> c in cs[..|cs| - 1] || c == cs[|cs| - 1];
      }
    }
  }

  ghost predicate Confirms(cs: seq<Confirmation>, m: Memo)
  {
    exists c :: c in cs && c.memo == OfMemo(m)
  }

  ghost predicate Fails(ws: seq<Finish>, m: Memo)
  {
    exists w :: w in ws && w.memo == OfMemo(m) && w.failed
  }

  ghost predicate Ends(ws: seq<Finish>, m: Memo, lt: nat)
  {
    exists w :: w in ws && w.memo == OfMemo(m) && !w.failed && w.lt == lt
  }

  lemma {:induction false} FinishAllForward(t: Table, ws: seq<Finish>)
    requires FinishAll(t, ws).Ok?
    ensures AllForward(t, FinishAll(t, ws).value)
    ensures forall m | m in t.rows :: var r, r' := t.rows[m], FinishAll(t, ws).value.rows[m];
              && r'.sendingLt == r.sendingLt
              && (r'.failed <==> r.failed || Fails(ws, m))
              && (r'.finishLt == r.finishLt || (r'.finishLt.Some? && Ends(ws, m, r'.finishLt.value)))
    decreases |ws|
  {
    if ws != [] {
      var init, last := ws[..|ws| - 1], ws[|ws| - 1];
      FinishAllForward(t, init);
      assert forall w :: w in ws <==> w in init || w == last;
    }
  }

  // ---------------------------------------------------------------- when a block is accepted

  /** The confirmations are about known sweeps that did not fail. */
  ghost predicate Confirmable(t: Table, cs: seq<Confirmation>)
  {
    forall c | c in cs :: c.memo.OfMemo? && c.memo.memo in t.rows && !t.rows[c.memo.memo].failed
  }

  /** The withdrawals are about known sweeps that did not fail, and none follows a failed one of its sweep. */
  ghost predicate Finishable(t: Table, ws: seq<Finish>)
  {
    && (forall w | w in ws :: w.memo.OfMemo? && w.memo.memo in t.rows && !t.rows[w.memo.memo].failed)
    && (forall i, j | 0 <= i < j < |ws| && ws[i].memo == ws[j].memo :: !ws[i].failed)
  }

  lemma {:induction false} ConfirmAllOk(t: Table, cs: seq<Confirmation>)
    ensures ConfirmAll(t, cs).Ok? <==> Confirmable(t, cs)
    decreases |cs|
  {
    if cs != [] {
      var init := cs[..|cs| - 1];
      ConfirmAllOk(t, init);
      assert forall c :: c in cs <==> c in init || c == cs[|cs| - 1];
      if ConfirmAll(t, init).Ok? { ConfirmAllForward(t, init); }
    }
  }

  ghost predicate AllSent(t: Table, ws: seq<Finish>)
    requires Finishable(t, ws)
  {
    forall w | w in ws :: t.rows[w.memo.memo].sendingLt.Some?
  }

  lemma {:induction false} FinishAllOk(t: Table, ws: seq<Finish>)
    ensures FinishAll(t, ws).Ok? <==> Finishable(t, ws) && AllSent(t, ws)
    decreases |ws|
  {
    if ws != [] {
      var init, last := ws[..|ws| - 1], ws[|ws| - 1];
      assert forall w :: w in ws <==> w in init || w == last;
      assert forall i | 0 <= i < |init| :: init[i] == ws[i];
      FinishAllOk(t, init);
      if FinishAll(t, init).Ok? {
        FinishAllForward(t, init);
        assert Finishable(t, ws) ==> !last.memo.OfMemo? || !Fails(init, last.memo.memo);
      }
    }
  }

  /** A block is accepted if and only if it is about known sweeps that did not fail and every withdrawal in it
      was confirmed, in an earlier block or in this one: "invalid event order" happens in no other case. */
  lemma AcceptedIffConfirmed(t: Table, cs: seq<Confirmation>, ws: seq<Finish>)
    ensures ApplyBlock(t, cs, ws).Ok? <==>
              && Confirmable(t, cs) && Finishable(t, ws)
              && forall w | w in ws :: t.rows[w.memo.memo].sendingLt.Some? || Confirms(cs, w.memo.memo)
  {
    ConfirmAllOk(t, cs);
    if ConfirmAll(t, cs).Ok? {
      ConfirmAllForward(t, cs);
      FinishAllOk(ConfirmAll(t, cs).value, ws);
    }
  }

  /** The block holds the sending of this sweep, which was not seen before. */
  ghost predicate SentHere(t: Table, cs: seq<Confirmation>, w: Finish)
  {
    w.memo.OfMemo? && w.memo.memo in t.rows && t.rows[w.memo.memo].sendingLt.None? && Confirms(cs, w.memo.memo)
  }

  /** Were the withdrawals applied first, a block that is accepted would be refused if and only if it holds both the
      sending and the end of a sweep. */
  lemma OrderMatters(t: Table, cs: seq<Confirmation>, ws: seq<Finish>)
    requires ApplyBlock(t, cs, ws).Ok?
    ensures FinishAll(t, ws).Err? <==> exists w :: w in ws && SentHere(t, cs, w)
  {
    AcceptedIffConfirmed(t, cs, ws);
    FinishAllOk(t, ws);
  }

  lemma SetExpiredForward(t: Table, cutoff: Time)
    ensures AllForward(t, SetExpired(t, cutoff))
    ensures forall m | m in t.rows && t.rows[m].sendingLt.Some? :: SetExpired(t, cutoff).rows[m] == t.rows[m]
  {
  }

  // ---------------------------------------------------------------- the queries mean what they should

  /** The latest sweep by since_lt is the newest one, and there is one unless all sweeps failed. */
  lemma LatestIsNewest(t: Table, m: Memo)
    requires OneAtATime(t)
    ensures Latest(t, m) <==> Newest(t, m)
  {
    if m in t.rows && !t.rows[m].failed {
      forall o | o in t.rows && !t.rows[o].failed && t.rows[o].from == t.rows[m].from
        ensures t.rows[o].sinceLt <= t.rows[m].sinceLt <==> t.rows[o].created <= t.rows[m].created
      {
        assert Ordered(t, m, o) && Ordered(t, o, m);
      }
    }
  }

  lemma {:induction false} NewestExists(t: Table, ms: set<Memo>) returns (m: Memo)
    requires ms != {} && ms <= t.rows.Keys
    ensures m in ms && forall o | o in ms :: t.rows[o].created <= t.rows[m].created
    decreases ms
  {
    m :| m in ms;
    var rest := ms - {m};
    assert forall o | o in ms :: o == m || o in rest;
    if rest != {} {
      var n := NewestExists(t, rest);
      if t.rows[m].created < t.rows[n].created { m := n; }
    }
  }

  /** Idle deposits are those whose newest sweep, if any, is finished. */
  lemma BusyIffNewestUnfinished(t: Table, deposit: Address)
    requires OneAtATime(t)
    ensures Busy(t, deposit) <==> exists m :: LatestOf(t, m, deposit) && t.rows[m].finishLt.None?
    ensures (forall m :: !LatestOf(t, m, deposit)) ==> !Busy(t, deposit)
    ensures forall m, o | LatestOf(t, m, deposit) && LatestOf(t, o, deposit) :: m == o
  {
    forall m ensures Latest(t, m) <==> Newest(t, m) { LatestIsNewest(t, m); }
    if Busy(t, deposit) {
      var b :| b in t.rows && !t.rows[b].failed && t.rows[b].from == deposit && t.rows[b].finishLt.None?;
      var all := set m | m in t.rows && !t.rows[m].failed && t.rows[m].from == deposit;
      assert b in all;
      var n := NewestExists(t, all);
      assert Newest(t, n) && LatestOf(t, n, deposit);
      assert Ordered(t, b, n);
    }
  }

  /** Which joined rows the query sees for a deposit. */
  lemma JoinMeans(t: Table, incomes: seq<Income>, ton: bool, i: Income)
    requires OneAtATime(t)
    ensures SomeJoined(t, incomes, ton, i) <==>
              i in incomes && !Busy(t, i.deposit)
              && forall m | LatestOf(t, m, i.deposit) :: SweptTo(t.rows[m], ton) < i.lt
  {
    BusyIffNewestUnfinished(t, i.deposit);
    if m :| LatestOf(t, m, i.deposit) {
      assert SomeJoined(t, incomes, ton, i) <==> Joined(t, incomes, ton, i, Some(m));
    } else {
      assert SomeJoined(t, incomes, ton, i) <==> Joined(t, incomes, ton, i, None);
    }
  }

  /** The nested joins select exactly the due deposits, each with its last income. */
  lemma GroupedIffDue(t: Table, incomes: seq<Income>, ton: bool, deposit: Address, lt: nat)
    requires OneAtATime(t)
    ensures Grouped(t, incomes, ton, deposit, lt) <==> Due(t, incomes, ton, deposit, lt)
  {
    forall m ensures LatestOf(t, m, deposit) <==> Newest(t, m) && t.rows[m].from == deposit { LatestIsNewest(t, m); }
    forall i: Income | i.deposit == deposit
      ensures SomeJoined(t, incomes, ton, i) <==>
                && i in incomes && !Busy(t, deposit)
                && forall m | LatestOf(t, m, deposit) :: SweptTo(t.rows[m], ton) < i.lt
    {
      JoinMeans(t, incomes, ton, i);
    }
    assert Income(deposit, lt).deposit == deposit;
    if Grouped(t, incomes, ton, deposit, lt) {
      forall i | i in incomes && i.deposit == deposit ensures i.lt <= lt {
        assert lt < i.lt ==> SomeJoined(t, incomes, ton, i);
      }
    }
  }

  /** The TON query before its LIMIT: exactly one task for every TON deposit with nothing in flight and an
      income later than the end of its newest sweep, carrying the last such income. */
  lemma TonQueryIsSpec(t: Table, incomes: seq<Income>, w: Tables, task: Task)
    requires OneAtATime(t) && UniqueAddresses(w)
    ensures TonTask(t, incomes, w, task) <==>
              && task.subwalletId in w.ton && w.ton[task.subwalletId].address == task.from
              && w.ton[task.subwalletId].kind == TonDeposit && task.currency == TON
              && Due(t, incomes, true, task.from, task.lt)
    ensures forall o | TonTask(t, incomes, w, task) && TonTask(t, incomes, w, o) && o.from == task.from :: o == task
  {
    GroupedIffDue(t, incomes, true, task.from, task.lt);
  }

  /** The jetton query before its LIMIT likewise, by the start of the newest sweep, without excluded owners. */
  lemma JettonQueryIsSpec(t: Table, incomes: seq<Income>, w: Tables, excluded: seq<Address>, task: Task)
    requires OneAtATime(t)
    ensures JettonTask(t, incomes, w, excluded, task) <==>
              && task.from in w.jetton && w.jetton[task.from].kind == JettonDeposit
              && w.jetton[task.from].subwalletId == task.subwalletId && w.jetton[task.from].currency == task.currency
              && (excluded == [] || (task.subwalletId in w.ton && w.ton[task.subwalletId].address !in excluded))
              && Due(t, incomes, false, task.from, task.lt)
    ensures JettonTask(t, incomes, w, excluded, task) ==>
              forall o | JettonTask(t, incomes, w, excluded, o) && o.from == task.from :: o == task
  {
    GroupedIffDue(t, incomes, false, task.from, task.lt);
  }

  /** The jetton tasks selected while `used` addresses are excluded suit the batch builder: owners of the
      deposits, distinct, and none of them used. */
  lemma JettonTasksSuitBatch(k: Keys, s: Service, v: Batch.View, t: Table, incomes: seq<Income>, used: seq<Address>,
                             a: Task, b: Task)
    requires Inv(k, s) && forall id :: v.proxy(id) == k.Proxy(id)
    requires JettonTask(t, incomes, s.tables, used, a) && JettonTask(t, incomes, s.tables, used, b) && OneAtATime(t)
    requires Injective(k)
    ensures IsKind(s.book, v.proxy(a.subwalletId), JettonOwner) && IsKind(s.book, a.from, JettonDeposit)
    ensures v.proxy(a.subwalletId) !in used
    ensures v.proxy(a.subwalletId) == v.proxy(b.subwalletId) ==> a == b
  {
    assert JettonRowOk(k, s.tables, a.from) && JettonRowOk(k, s.tables, b.from);
    assert TonRowOk(k, a.subwalletId, s.tables.ton[a.subwalletId]);
    assert k.origin(k.Proxy(a.subwalletId)) == ProxyOf(a.subwalletId);
    assert k.origin(k.Proxy(b.subwalletId)) == ProxyOf(b.subwalletId);
    JettonQueryIsSpec(t, incomes, s.tables, used, a);
  }
}
