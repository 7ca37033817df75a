/** The scanner walks the accounts of a block in the order of a Go map, which is random. The ledger that results
    does not depend on it. */
module BlockOrder {
  import opened Prelude
  import opened Messages
  import opened KeyedFold
  import Payouts
  import Sweeps
  import JettonIncome

  type Report = Payouts.Report

  datatype InternalIncome = InternalIncome(lt: nat, utime: nat, deposit: Address, amount: int, memo: Comment)

  /** core.Events */
  datatype Events = Events(
    externalIncomes: seq<JettonIncome.Income>, internalIncomes: seq<InternalIncome>,
    sends: seq<Sweeps.Confirmation>, ends: seq<Sweeps.Finish>, reports: seq<Report>, confirmed: seq<Payouts.QueryId>)

  const NOTHING := Events([], [], [], [], [], [])

  function Append(a: Events, b: Events): Events
  {
    Events(a.externalIncomes + b.externalIncomes, a.internalIncomes + b.internalIncomes, a.sends + b.sends,
           a.ends + b.ends, a.reports + b.reports, a.confirmed + b.confirmed)
  }

  /** The events of a block: what each account gives, in its own logical-time order, account after account. */
  function Collect(order: seq<Address>, of: Address -> Events): Events
  {
    if order == [] then NOTHING else Append(of(order[0]), Collect(order[1..], of))
  }

  /** processTXs, as a loop over the accounts. */
  method ProcessAccounts(order: seq<Address>, of: Address -> Events) returns (es: Events)
    ensures es == Collect(order, of)
  {
    es := NOTHING;
    AppendNothing(Collect(order, of));
    for i := 0 to |order|
      invariant Append(es, Collect(order[i..], of)) == Collect(order, of)
    {
      AppendAssociates(es, of(order[i]), Collect(order[i + 1..], of));
      assert order[i..][1..] == order[i + 1..];
      es := Append(es, of(order[i]));
    }
    AppendNothing(es);
  }

  lemma AppendAssociates(a: Events, b: Events, c: Events)
    ensures Append(Append(a, b), c) == Append(a, Append(b, c))
  {
  }

  lemma AppendNothing(a: Events)
    ensures Append(NOTHING, a) == a == Append(a, NOTHING)
  {
    assert Append(NOTHING, a).sends == a.sends && Append(a, NOTHING).sends == a.sends;
  }

  /** The tables a block changes. Rows of external_incomes have no key; (memo, lt) is the key of internal ones. */
  datatype Db = Db(
    externalIncomes: multiset<JettonIncome.Income>, internalIncomes: map<(Memo, nat), InternalIncome>,
    sweeps: Sweeps.Table, payouts: Payouts.Ledger)

  function MemoOf(c: Comment): Memo
  {
    if c.OfMemo? then c.memo else 0
  }

  function IncomeKey(i: InternalIncome): (Memo, nat) { (MemoOf(i.memo), i.lt) }

  /** Inserting an internal income fails when its memo is no uuid or the key is taken. */
  function Insert(row: Option<InternalIncome>, i: InternalIncome): Option<InternalIncome>
  {
    if !i.memo.OfMemo? || row.Some? then None else Some(i)
  }

  /** `confirmed` is set on the sent withdrawals of these requests. */
  function ConfirmJettons(p: Payouts.Ledger, qs: seq<Payouts.QueryId>): Payouts.Ledger
    decreases |qs|
  {
    if qs == [] then p else Payouts.ConfirmJetton(ConfirmJettons(p, qs[..|qs| - 1]), qs[|qs| - 1])
  }

  /** SaveParsedBlockData: everything in this order, or nothing. */
  function Save(db: Db, e: Events): Option<Db>
  {
    match Run(Insert, IncomeKey, db.internalIncomes, e.internalIncomes)
    case None => None
    case Some(incomes) =>
      match Sweeps.ApplyBlock(db.sweeps, e.sends, e.ends)
      case Err(_) => None
      case Ok(sweeps) =>
        match Payouts.ApplyReports(db.payouts, e.reports)
        case Err(_) => None
        case Ok(payouts) =>
          Some(Db(db.externalIncomes + multiset(e.externalIncomes), incomes, sweeps,
              ConfirmJettons(payouts, e.confirmed)))
  }

  // ---------------------------------------------------------------- each kind of event as statements on rows

  function SettleRow(row: Option<Payouts.Row>, e: Report): Option<Payouts.Row>
  {
    if row.None? || row.value.failed then None else Some(Payouts.Settle(row.value, e))
  }

  function SendRow(row: Option<Sweeps.Row>, c: Sweeps.Confirmation): Option<Sweeps.Row>
  {
    if !c.memo.OfMemo? || row.None? || row.value.failed then None else Some(row.value.(sendingLt := Some(c.lt)))
  }

  function EndRow(row: Option<Sweeps.Row>, w: Sweeps.Finish): Option<Sweeps.Row>
  {
    if !w.memo.OfMemo? || row.None? || row.value.failed || row.value.sendingLt.None? then None
    else Some(Sweeps.Finished(row.value, w))
  }

  function SendKey(c: Sweeps.Confirmation): Memo { MemoOf(c.memo) }

  function EndKey(w: Sweeps.Finish): Memo { MemoOf(w.memo) }

  lemma {:induction false} SendsAreStatements(t: Sweeps.Table, cs: seq<Sweeps.Confirmation>)
    ensures var r, m := Sweeps.ConfirmAll(t, cs), Run(SendRow, SendKey, t.rows, cs);
      (r.Ok? <==> m.Some?) && (r.Ok? ==> r.value == t.(rows := m.value))
    decreases |cs|
  {
    if cs != [] { SendsAreStatements(t, cs[..|cs| - 1]); }
  }

  lemma {:induction false} EndsAreStatements(t: Sweeps.Table, ws: seq<Sweeps.Finish>)
    ensures var r, m := Sweeps.FinishAll(t, ws), Run(EndRow, EndKey, t.rows, ws);
      (r.Ok? <==> m.Some?) && (r.Ok? ==> r.value == t.(rows := m.value))
    decreases |ws|
  {
    if ws != [] { EndsAreStatements(t, ws[..|ws| - 1]); }
  }

  /** The requests whose rows the reports are about. */
  function Touched(p: Payouts.Ledger, es: seq<Report>): set<Payouts.QueryId>
  {
    set e | e in es && Payouts.KeyOf(e) in p.rows :: p.rows[Payouts.KeyOf(e)].queryId
  }

  function MarkProcessed(requests: map<Payouts.QueryId, Payouts.Request>, qs: set<Payouts.QueryId>)
    : map<Payouts.QueryId, Payouts.Request>
  {
    map q | q in requests :: if q in qs then requests[q].(processed := true) else requests[q]
  }

  ghost predicate SameRequests(a: map<Payouts.RowKey, Payouts.Row>, b: map<Payouts.RowKey, Payouts.Row>)
  {
    a.Keys == b.Keys && forall k | k in a :: a[k].queryId == b[k].queryId
  }

  lemma {:induction false} ReportsAreStatements(p: Payouts.Ledger, es: seq<Report>)
    ensures var r, m := Payouts.ApplyReports(p, es), Run(SettleRow, Payouts.KeyOf, p.rows, es);
      && (r.Ok? <==> m.Some?)
      && (r.Ok? ==> SameRequests(p.rows, m.value))
      && (r.Ok? ==> r.value == Payouts.Ledger(p.nextId, MarkProcessed(p.requests, Touched(p, es)), m.value))
    decreases |es|
  {
    if es == [] {
      assert MarkProcessed(p.requests, Touched(p, es)) == p.requests;
    } else {
      var init, e := es[..|es| - 1], es[|es| - 1];
      ReportsAreStatements(p, init);
      if Payouts.ApplyReports(p, es).Ok? { MarkOneMore(p, init, e); }
      assert es == init + [e];
    }
  }

  lemma MarkOneMore(p: Payouts.Ledger, init: seq<Report>, e: Report)
    requires Payouts.KeyOf(e) in p.rows
    ensures MarkProcessed(p.requests, Touched(p, init + [e]))
         == Payouts.SetProcessed(MarkProcessed(p.requests, Touched(p, init)), p.rows[Payouts.KeyOf(e)].queryId)
  {
    assert forall x :: x in init + [e] <==> x in init || x == e;
    assert Touched(p, init + [e]) == Touched(p, init) + {p.rows[Payouts.KeyOf(e)].queryId};
  }

  lemma {:induction false} ConfirmsAreOneStatement(p: Payouts.Ledger, qs: seq<Payouts.QueryId>)
    ensures ConfirmJettons(p, qs) == p.(rows := map k | k in p.rows ::
              if p.rows[k].queryId in qs && p.rows[k].processedLt.Some? then p.rows[k].(confirmed := true)
              else p.rows[k])
    decreases |qs|
  {
    if qs == [] {
      assert ConfirmJettons(p, qs).rows == p.rows;
    } else {
      ConfirmsAreOneStatement(p, qs[..|qs| - 1]);
      assert forall q :: q in qs <==> q in qs[..|qs| - 1] || q == qs[|qs| - 1];
    }
  }

  // ---------------------------------------------------------------- the result does not depend on the order

  /** Two lists of events that say the same about every row. */
  ghost predicate SameRowByRow(a: Events, b: Events)
  {
    && multiset(a.externalIncomes) == multiset(b.externalIncomes)
    && (forall k :: About(IncomeKey, k, a.internalIncomes) == About(IncomeKey, k, b.internalIncomes))
    && (forall k :: About(SendKey, k, a.sends) == About(SendKey, k, b.sends))
    && (forall k :: About(EndKey, k, a.ends) == About(EndKey, k, b.ends))
    && (forall k :: About(Payouts.KeyOf, k, a.reports) == About(Payouts.KeyOf, k, b.reports))
    && multiset(a.reports) == multiset(b.reports) && multiset(a.confirmed) == multiset(b.confirmed)
  }

  lemma SavesTheSame(db: Db, a: Events, b: Events)
    requires SameRowByRow(a, b)
    ensures Save(db, a) == Save(db, b)
  {
    SameAboutEachRow(Insert, IncomeKey, db.internalIncomes, a.internalIncomes, b.internalIncomes);
    SweepsTheSame(db.sweeps, a, b);
    PayoutsTheSame(db.payouts, a, b);
    var p := Payouts.ApplyReports(db.payouts, a.reports);
    if p.Ok? {
      ConfirmsAreOneStatement(p.value, a.confirmed);
      ConfirmsAreOneStatement(p.value, b.confirmed);
      assert forall q :: q in a.confirmed <==> q in multiset(a.confirmed);
      assert forall q :: q in b.confirmed <==> q in multiset(b.confirmed);
      assert ConfirmJettons(p.value, a.confirmed).rows == ConfirmJettons(p.value, b.confirmed).rows;
    }
  }

  lemma SweepsTheSame(t: Sweeps.Table, a: Events, b: Events)
    requires SameRowByRow(a, b)
    ensures var x, y := Sweeps.ApplyBlock(t, a.sends, a.ends), Sweeps.ApplyBlock(t, b.sends, b.ends);
      (x.Ok? <==> y.Ok?) && (x.Ok? ==> x == y)
  {
    SendsAreStatements(t, a.sends);
    SendsAreStatements(t, b.sends);
    SameAboutEachRow(SendRow, SendKey, t.rows, a.sends, b.sends);
    if Sweeps.ConfirmAll(t, a.sends).Ok? {
      var t1 := Sweeps.ConfirmAll(t, a.sends).value;
      EndsAreStatements(t1, a.ends);
      EndsAreStatements(t1, b.ends);
      SameAboutEachRow(EndRow, EndKey, t1.rows, a.ends, b.ends);
    }
  }

  lemma PayoutsTheSame(p: Payouts.Ledger, a: Events, b: Events)
    requires SameRowByRow(a, b)
    ensures var x, y := Payouts.ApplyReports(p, a.reports), Payouts.ApplyReports(p, b.reports);
      (x.Ok? <==> y.Ok?) && (x.Ok? ==> x == y)
  {
    ReportsAreStatements(p, a.reports);
    ReportsAreStatements(p, b.reports);
    SameAboutEachRow(SettleRow, Payouts.KeyOf, p.rows, a.reports, b.reports);
    assert forall e :: e in a.reports <==> e in multiset(a.reports);
    assert forall e :: e in b.reports <==> e in multiset(b.reports);
    assert Touched(p, a.reports) == Touched(p, b.reports);
  }

  // ---------------------------------------------------------------- accounts

  function ExternalIncomesOf(of: Address -> Events): Address -> seq<JettonIncome.Income> { a => of(a).externalIncomes }
  function InternalIncomesOf(of: Address -> Events): Address -> seq<InternalIncome> { a => of(a).internalIncomes }
  function SendsOf(of: Address -> Events): Address -> seq<Sweeps.Confirmation> { a => of(a).sends }
  function EndsOf(of: Address -> Events): Address -> seq<Sweeps.Finish> { a => of(a).ends }
  function ReportsOf(of: Address -> Events): Address -> seq<Report> { a => of(a).reports }
  function ConfirmedOf(of: Address -> Events): Address -> seq<Payouts.QueryId> { a => of(a).confirmed }

  lemma {:induction false} CollectGathers(order: seq<Address>, of: Address -> Events)
    ensures Collect(order, of) == Events(
      Gather(order, ExternalIncomesOf(of)), Gather(order, InternalIncomesOf(of)), Gather(order, SendsOf(of)),
      Gather(order, EndsOf(of)), Gather(order, ReportsOf(of)), Gather(order, ConfirmedOf(of)))
  {
    if order != [] { CollectGathers(order[1..], of); }
  }

  /** Every key is reported on by one account: (memo, lt) and message ids by the hot wallet, the sending of a
      sweep by one account, its end by one account. Nothing is assumed of comments that are no uuids. */
  datatype Owners = Owners(
    income: ((Memo, nat)) -> Address, send: Memo -> Address, end: Memo -> Address, report: Payouts.RowKey -> Address)

  ghost predicate OwnersOk(o: Owners, of: Address -> Events)
  {
    && (forall a, i | i in of(a).internalIncomes && i.memo.OfMemo? :: o.income(IncomeKey(i)) == a)
    && (forall a, c | c in of(a).sends && c.memo.OfMemo? :: o.send(SendKey(c)) == a)
    && (forall a, w | w in of(a).ends && w.memo.OfMemo? :: o.end(EndKey(w)) == a)
    && (forall a, e | e in of(a).reports :: o.report(Payouts.KeyOf(e)) == a)
  }

  /** All comments that should be uuids are. */
  ghost predicate AllMemos(e: Events)
  {
    && (forall i | i in e.internalIncomes :: i.memo.OfMemo?)
    && (forall c | c in e.sends :: c.memo.OfMemo?)
    && (forall w | w in e.ends :: w.memo.OfMemo?)
  }

  lemma {:induction false} InsertNeedsMemo(rows: map<(Memo, nat), InternalIncome>, es: seq<InternalIncome>)
    requires Run(Insert, IncomeKey, rows, es).Some?
    ensures forall i | i in es :: i.memo.OfMemo?
    decreases |es|
  {
    if es != [] {
      InsertNeedsMemo(rows, es[..|es| - 1]);
      assert forall i | i in es :: i in es[..|es| - 1] || i == es[|es| - 1];
    }
  }

  /** Any other comment makes the block refused. */
  lemma SaveNeedsMemos(db: Db, e: Events)
    requires Save(db, e).Some?
    ensures AllMemos(e)
  {
    InsertNeedsMemo(db.internalIncomes, e.internalIncomes);
    Sweeps.AcceptedIffConfirmed(db.sweeps, e.sends, e.ends);
  }

  /** Both orders have the same events, so both have such a comment or neither. */
  lemma MemosEitherWay(x: seq<Address>, y: seq<Address>, of: Address -> Events)
    requires multiset(x) == multiset(y)
    ensures AllMemos(Collect(x, of)) <==> AllMemos(Collect(y, of))
  {
    CollectGathers(x, of);
    CollectGathers(y, of);
    GatherAsMultiset(x, y, InternalIncomesOf(of));
    GatherAsMultiset(x, y, SendsOf(of));
    GatherAsMultiset(x, y, EndsOf(of));
    forall i ensures i in Collect(x, of).internalIncomes <==> i in Collect(y, of).internalIncomes {
      assert i in Collect(x, of).internalIncomes <==> i in multiset(Collect(x, of).internalIncomes);
    }
    forall c ensures c in Collect(x, of).sends <==> c in Collect(y, of).sends {
      assert c in Collect(x, of).sends <==> c in multiset(Collect(x, of).sends);
    }
    forall w ensures w in Collect(x, of).ends <==> w in Collect(y, of).ends {
      assert w in Collect(x, of).ends <==> w in multiset(Collect(x, of).ends);
    }
  }

  lemma {:induction false} GatheredIn<E>(order: seq<Address>, of: Address -> seq<E>, a: Address)
    requires a in order
    ensures forall e | e in of(a) :: e in Gather(order, of)
  {
    if a != order[0] { GatheredIn(order[1..], of, a); }
  }

  /** Applying a block gives the same result, ledger or refusal, for every order of the accounts. */
  lemma OrderDoesNotMatter(db: Db, x: seq<Address>, y: seq<Address>, of: Address -> Events, o: Owners)
    requires NoRepeats(x) && NoRepeats(y) && multiset(x) == multiset(y) && OwnersOk(o, of)
    ensures Save(db, Collect(x, of)) == Save(db, Collect(y, of))
  {
    if Save(db, Collect(x, of)).Some? { SaveNeedsMemos(db, Collect(x, of)); }
    if Save(db, Collect(y, of)).Some? { SaveNeedsMemos(db, Collect(y, of)); }
    MemosEitherWay(x, y, of);
    if AllMemos(Collect(x, of)) {
      assert forall a :: a in x <==> a in multiset(x);
      assert forall a :: a in y <==> a in multiset(y);
      MemosOfAccounts(x, of);
      SameForRows(x, y, of, o);
      SavesTheSame(db, Collect(x, of), Collect(y, of));
    }
  }

  lemma MemosOfAccounts(x: seq<Address>, of: Address -> Events)
    requires AllMemos(Collect(x, of))
    ensures forall a | a in x :: AllMemos(of(a))
  {
    CollectGathers(x, of);
    forall a | a in x ensures AllMemos(of(a)) {
      GatheredIn(x, InternalIncomesOf(of), a);
      GatheredIn(x, SendsOf(of), a);
      GatheredIn(x, EndsOf(of), a);
    }
  }

  lemma SameForRows(x: seq<Address>, y: seq<Address>, of: Address -> Events, o: Owners)
    requires NoRepeats(x) && NoRepeats(y) && multiset(x) == multiset(y) && OwnersOk(o, of)
    requires forall a :: a in x <==> a in y
    requires forall a | a in x :: AllMemos(of(a))
    ensures SameRowByRow(Collect(x, of), Collect(y, of))
  {
    CollectGathers(x, of);
    CollectGathers(y, of);
    GatherAsMultiset(x, y, ExternalIncomesOf(of));
    GatherAsMultiset(x, y, ReportsOf(of));
    GatherAsMultiset(x, y, ConfirmedOf(of));
    forall k
      ensures About(IncomeKey, k, Gather(x, InternalIncomesOf(of)))
           == About(IncomeKey, k, Gather(y, InternalIncomesOf(of)))
    {
      AboutGathered(IncomeKey, k, x, InternalIncomesOf(of), o.income(k));
      AboutGathered(IncomeKey, k, y, InternalIncomesOf(of), o.income(k));
    }
    forall k ensures About(SendKey, k, Gather(x, SendsOf(of))) == About(SendKey, k, Gather(y, SendsOf(of))) {
      AboutGathered(SendKey, k, x, SendsOf(of), o.send(k));
      AboutGathered(SendKey, k, y, SendsOf(of), o.send(k));
    }
    forall k ensures About(EndKey, k, Gather(x, EndsOf(of))) == About(EndKey, k, Gather(y, EndsOf(of))) {
      AboutGathered(EndKey, k, x, EndsOf(of), o.end(k));
      AboutGathered(EndKey, k, y, EndsOf(of), o.end(k));
    }
    forall k
      ensures About(Payouts.KeyOf, k, Gather(x, ReportsOf(of))) == About(Payouts.KeyOf, k, Gather(y, ReportsOf(of)))
    {
      AboutGathered(Payouts.KeyOf, k, x, ReportsOf(of), o.report(k));
      AboutGathered(Payouts.KeyOf, k, y, ReportsOf(of), o.report(k));
    }
  }
}
