/** What every transaction on the withdrawal ledger keeps, whatever the other threads do in between. */
module PayoutInvariants {
  import opened Prelude
  import opened Payouts

  ghost predicate RowOk(p: Ledger, k: RowKey)
    requires k in p.rows
  {
    var r := p.rows[k];
    && r.queryId in p.requests
    && p.requests[r.queryId].destination == k.to
    && (if Settled(r) then r.failed || r.processedLt.Some? else r.processedLt.None?)
    && (!Expired(r) ==> p.requests[r.queryId].processing && (Settled(r) <==> p.requests[r.queryId].processed))
  }

  /** `k` is the one row that stands for request `q`: live or settled, not given up. */
  ghost predicate Stands(p: Ledger, k: RowKey, q: QueryId)
  {
    k in p.rows && p.rows[k].queryId == q && !Expired(p.rows[k])
  }

  ghost predicate RequestOk(p: Ledger, q: QueryId)
    requires q in p.requests
  {
    && q < p.nextId
    && (p.requests[q].processing ==> exists k :: Stands(p, k, q))
    && (p.requests[q].processed ==> p.requests[q].processing)
  }

  ghost predicate OneStands(p: Ledger)
  {
    forall k, k', q | Stands(p, k, q) && Stands(p, k', q) :: k == k'
  }

  ghost predicate Inv(p: Ledger)
  {
    && (forall k | k in p.rows :: RowOk(p, k))
    && (forall q | q in p.requests :: RequestOk(p, q))
    && OneStands(p)
  }

  // ---------------------------------------------------------------- each transaction

  lemma SaveRequestKeeps(p: Ledger, w: Request)
    requires Inv(p) && SaveRequest(p, w).Ok?
    ensures Inv(SaveRequest(p, w).value)
  {
    var p' := SaveRequest(p, w).value;
    assert p.nextId !in p.requests;
    forall q | q in p'.requests ensures RequestOk(p', q) {
      if q != p.nextId && p'.requests[q].processing {
        var k :| Stands(p, k, q);
        assert Stands(p', k, q);
      }
    }
    forall k, k', q | Stands(p', k, q) && Stands(p', k', q) ensures k == k' {
      assert Stands(p, k, q) && Stands(p, k', q);
    }
  }

  lemma ClaimKeeps(p: Ledger, t: Task, msg: Uuid, expiredAt: Time)
    requires Inv(p) && Unclaimed(p, t) && Claim(p, t, msg, expiredAt).Ok?
    ensures Inv(Claim(p, t, msg, expiredAt).value)
  {
    var p' := Claim(p, t, msg, expiredAt).value;
    var newKey := RowKey(msg, t.destination);
    forall k | k in p'.rows ensures RowOk(p', k) {
      if k != newKey { assert RowOk(p, k); }
    }
    forall k | k in p.rows && p.rows[k].queryId == t.queryId ensures Expired(p.rows[k]) { assert RowOk(p, k); }
    forall k, k', q | Stands(p', k, q) && Stands(p', k', q) ensures k == k' {
      assert k == newKey || Stands(p, k, q);
      assert k' == newKey || Stands(p, k', q);
    }
    forall q | q in p'.requests ensures RequestOk(p', q) {
      assert RequestOk(p, q);
      if q == t.queryId {
        assert Stands(p', newKey, q);
      } else if p'.requests[q].processing {
        var k :| Stands(p, k, q);
        assert Stands(p', k, q);
      }
    }
  }

  /** Tasks that are all unclaimed and belong to different requests. */
  ghost predicate Claimable(p: Ledger, tasks: seq<Task>)
  {
    && (forall i | 0 <= i < |tasks| :: Unclaimed(p, tasks[i]))
    && (forall i, j | 0 <= i < j < |tasks| :: tasks[i].queryId != tasks[j].queryId)
  }

  ghost predicate ClaimsRequest(tasks: seq<Task>, q: QueryId)
  {
    exists t :: t in tasks && t.queryId == q
  }

  ghost predicate PaysTo(tasks: seq<Task>, to: Address)
  {
    exists t :: t in tasks && t.destination == to
  }

  /** CreateExternalWithdrawals claims the tasks, adds a fresh row for each and touches nothing else. */
  ghost predicate BatchAdded(p: Ledger, tasks: seq<Task>, msg: Uuid, expiredAt: Time, p': Ledger)
  {
    && p'.nextId == p.nextId
    && p'.requests.Keys == p.requests.Keys
    && (forall q | q in p.requests ::
          p'.requests[q] == if ClaimsRequest(tasks, q) then p.requests[q].(processing := true) else p.requests[q])
    && (forall k :: k in p'.rows <==> k in p.rows || (k.msg == msg && PaysTo(tasks, k.to)))
    && (forall k | k in p.rows :: p'.rows[k] == p.rows[k])
    && (forall t | t in tasks ::
          && RowKey(msg, t.destination) !in p.rows
          && RowKey(msg, t.destination) in p'.rows
          && p'.rows[RowKey(msg, t.destination)] == FreshRow(t.queryId, expiredAt))
  }

  lemma ClaimAdds(p: Ledger, init: seq<Task>, p1: Ledger, t: Task, msg: Uuid, expiredAt: Time)
    requires BatchAdded(p, init, msg, expiredAt, p1) && Claim(p1, t, msg, expiredAt).Ok?
    ensures BatchAdded(p, init + [t], msg, expiredAt, Claim(p1, t, msg, expiredAt).value)
  {
    var tasks := init + [t];
    var p' := Claim(p1, t, msg, expiredAt).value;
    assert forall x :: x in tasks <==> x in init || x == t;
    assert forall q :: ClaimsRequest(tasks, q) <==> ClaimsRequest(init, q) || t.queryId == q;
    assert forall a :: PaysTo(tasks, a) <==> PaysTo(init, a) || t.destination == a;
  }

  lemma {:induction false} CreateBatchAdds(p: Ledger, tasks: seq<Task>, msg: Uuid, expiredAt: Time)
    requires CreateBatch(p, tasks, msg, expiredAt).Ok?
    ensures BatchAdded(p, tasks, msg, expiredAt, CreateBatch(p, tasks, msg, expiredAt).value)
    decreases |tasks|
  {
    if tasks != [] {
      var init, t := tasks[..|tasks| - 1], tasks[|tasks| - 1];
      CreateBatchAdds(p, init, msg, expiredAt);
      ClaimAdds(p, init, CreateBatch(p, init, msg, expiredAt).value, t, msg, expiredAt);
      assert tasks == init + [t];
    }
  }

  lemma {:induction false} CreateBatchKeeps(p: Ledger, tasks: seq<Task>, msg: Uuid, expiredAt: Time)
    requires Inv(p) && Claimable(p, tasks) && CreateBatch(p, tasks, msg, expiredAt).Ok?
    ensures Inv(CreateBatch(p, tasks, msg, expiredAt).value)
    decreases |tasks|
  {
    if tasks != [] {
      var init, t := tasks[..|tasks| - 1], tasks[|tasks| - 1];
      CreateBatchKeeps(p, init, msg, expiredAt);
      CreateBatchAdds(p, init, msg, expiredAt);
      var p1 := CreateBatch(p, init, msg, expiredAt).value;
      assert Unclaimed(p, t);
      ClaimKeeps(p1, t, msg, expiredAt);
    }
  }

  /** A report, whatever it says, keeps the invariant whenever the code accepts it. */
  lemma UpdateKeeps(p: Ledger, e: Report)
    requires Inv(p) && UpdateWithdrawal(p, e).Ok?
    ensures Inv(UpdateWithdrawal(p, e).value)
  {
    var p' := UpdateWithdrawal(p, e).value;
    var k0 := KeyOf(e);
    assert RowOk(p, k0);
    var q0 := p.rows[k0].queryId;
    assert Stands(p, k0, q0);
    forall k, q | Stands(p', k, q) ensures Stands(p, k, q) {}
    forall k | k in p'.rows ensures RowOk(p', k) {
      assert RowOk(p, k);
      if k != k0 && p.rows[k].queryId == q0 {
        assert Expired(p.rows[k]) by {
          if !Expired(p.rows[k]) { assert Stands(p, k, q0); assert false; }
        }
      }
    }
    forall q | q in p'.requests ensures RequestOk(p', q) {
      assert RequestOk(p, q);
      if p'.requests[q].processing {
        var k :| Stands(p, k, q);
        assert Stands(p', k, q);
      }
    }
  }

  lemma {:induction false} ApplyReportsKeeps(p: Ledger, es: seq<Report>)
    requires Inv(p) && ApplyReports(p, es).Ok?
    ensures Inv(ApplyReports(p, es).value)
    decreases |es|
  {
    if es != [] {
      ApplyReportsKeeps(p, es[..|es| - 1]);
      UpdateKeeps(ApplyReports(p, es[..|es| - 1]).value, es[|es| - 1]);
    }
  }

  lemma SetExpiredKeeps(p: Ledger, cutoff: Time)
    requires Inv(p)
    ensures Inv(SetExpired(p, cutoff))
  {
    var p' := SetExpired(p, cutoff);
    var ids := OverdueIds(p, cutoff);
    forall k, q | Stands(p', k, q) ensures Stands(p, k, q) && q !in ids {
      if q in ids {
        var o :| o in p.rows && Overdue(p.rows[o], cutoff) && p.rows[o].queryId == q;
        assert RowOk(p, o);
        assert Stands(p, o, q) && Stands(p, k, q);
        assert false;
      }
    }
    forall k | k in p'.rows ensures RowOk(p', k) {
      assert RowOk(p, k);
      if !Expired(p'.rows[k]) { assert Stands(p', k, p'.rows[k].queryId); }
    }
    forall q | q in p'.requests ensures RequestOk(p', q) {
      assert RequestOk(p, q);
      if q in ids {
        var o :| o in p.rows && Overdue(p.rows[o], cutoff) && p.rows[o].queryId == q;
        assert RowOk(p, o);
      } else if p'.requests[q].processing {
        var k :| Stands(p, k, q);
        assert Stands(p', k, q);
      }
    }
  }

  lemma ConfirmKeeps(p: Ledger, q0: QueryId)
    requires Inv(p)
    ensures Inv(ConfirmJetton(p, q0))
  {
    var p' := ConfirmJetton(p, q0);
    forall k | k in p'.rows ensures RowOk(p', k) { assert RowOk(p, k); }
    forall k, q ensures Stands(p', k, q) <==> Stands(p, k, q) {}
    forall q | q in p'.requests ensures RequestOk(p', q) {
      assert RequestOk(p, q);
      if p'.requests[q].processing { var k :| Stands(p, k, q); assert Stands(p', k, q); }
    }
  }

  // ---------------------------------------------------------------- every interleaving

  /** The service as its threads interleave on the ledger: a step is one transaction. Selecting tasks and
      saving the batch built from them are separate steps of the one batch-building thread, which keeps
      what it selected in `pending`. A crash forgets it. */
  datatype State = State(ledger: Ledger, pending: seq<Task>)

  datatype Step =
    | Save(w: Request)
    | Select(tasks: seq<Task>)
    | Create(batch: seq<Task>, msg: Uuid, expiredAt: Time)
    | Apply(reports: seq<Report>)
    | Confirm(q: QueryId)
    | Expire(cutoff: Time)
    | Crash

  /** `batch` holds some of the selected tasks, in the order in which they were selected. */
  ghost predicate PartOf(batch: seq<Task>, pending: seq<Task>)
  {
    && (forall t | t in batch :: t in pending)
    && (forall i, j | 0 <= i < j < |batch| :: batch[i] != batch[j])
  }

  function LedgerOr(r: Result<Ledger, Error>, p: Ledger): Ledger
  {
    if r.Ok? then r.value else p
  }

  /** A transaction that fails is rolled back; nothing is assumed about the reports in a block. */
  ghost predicate Next(s: State, step: Step, s': State)
  {
    match step
    case Save(w) => s' == s.(ledger := LedgerOr(SaveRequest(s.ledger, w), s.ledger))
    case Select(tasks) => IsTaskList(s.ledger, tasks) && s' == s.(pending := tasks)
    case Create(batch, msg, expiredAt) =>
      PartOf(batch, s.pending) && s' == State(LedgerOr(CreateBatch(s.ledger, batch, msg, expiredAt), s.ledger), [])
    case Apply(reports) => s' == s.(ledger := LedgerOr(ApplyReports(s.ledger, reports), s.ledger))
    case Confirm(q) => s' == s.(ledger := ConfirmJetton(s.ledger, q))
    case Expire(cutoff) => s' == s.(ledger := SetExpired(s.ledger, cutoff))
    case Crash => s' == s.(pending := [])
  }

  ghost predicate PendingOk(s: State)
  {
    && (forall t | t in s.pending :: Unclaimed(s.ledger, t))
    && (forall t, t' | t in s.pending && t' in s.pending && t.destination == t'.destination :: t == t')
  }

  ghost predicate StateInv(s: State)
  {
    Inv(s.ledger) && PendingOk(s)
  }

  lemma PendingIsClaimable(s: State, batch: seq<Task>)
    requires StateInv(s) && PartOf(batch, s.pending)
    ensures Claimable(s.ledger, batch)
    ensures forall i, j | 0 <= i < j < |batch| :: batch[i].destination != batch[j].destination
  {
    forall i | 0 <= i < |batch| ensures Unclaimed(s.ledger, batch[i]) { assert batch[i] in s.pending; }
    forall i, j | 0 <= i < j < |batch|
      ensures batch[i].queryId != batch[j].queryId && batch[i].destination != batch[j].destination
    {
      assert batch[i] in s.pending && batch[j] in s.pending;
    }
  }

  /** A request that no row stands for keeps its selected task valid through any report the code accepts. */
  lemma {:induction false} ReportsKeepUnclaimed(p: Ledger, es: seq<Report>, t: Task)
    requires Inv(p) && Unclaimed(p, t) && ApplyReports(p, es).Ok?
    ensures Unclaimed(ApplyReports(p, es).value, t)
    decreases |es|
  {
    if es != [] {
      var init, e := es[..|es| - 1], es[|es| - 1];
      ReportsKeepUnclaimed(p, init, t);
      ApplyReportsKeeps(p, init);
      var p1 := ApplyReports(p, init).value;
      assert RowOk(p1, KeyOf(e));
    }
  }

  lemma NextKeeps(s: State, step: Step, s': State)
    requires StateInv(s) && Next(s, step, s')
    ensures StateInv(s')
  {
    match step
    case Save(w) =>
      if SaveRequest(s.ledger, w).Ok? { SaveRequestKeeps(s.ledger, w); }
      assert forall q | q in s.ledger.requests :: RequestOk(s.ledger, q);
    case Select(tasks) =>
    case Create(batch, msg, expiredAt) =>
      PendingIsClaimable(s, batch);
      if CreateBatch(s.ledger, batch, msg, expiredAt).Ok? { CreateBatchKeeps(s.ledger, batch, msg, expiredAt); }
    case Apply(reports) =>
      if ApplyReports(s.ledger, reports).Ok? {
        ApplyReportsKeeps(s.ledger, reports);
        forall t | t in s.pending ensures Unclaimed(s'.ledger, t) { ReportsKeepUnclaimed(s.ledger, reports, t); }
      }
    case Confirm(q) => ConfirmKeeps(s.ledger, q);
    case Expire(cutoff) => SetExpiredKeeps(s.ledger, cutoff);
    case Crash =>
  }

  ghost predicate Run(states: seq<State>, steps: seq<Step>)
  {
    && |states| == |steps| + 1
    && states[0] == State(EMPTY, [])
    && forall i | 0 <= i < |steps| :: Next(states[i], steps[i], states[i + 1])
  }

  /** On every run: at most one row stands for a request, an unclaimed request has only given-up rows
      without a transaction hash, a processed request is claimed and exactly one of its rows carries a hash. */
  lemma {:induction false} EveryRunKeeps(states: seq<State>, steps: seq<Step>, n: nat)
    requires Run(states, steps) && n < |states|
    ensures StateInv(states[n])
    ensures var p := states[n].ledger;
      && (forall k, k' | k in p.rows && k' in p.rows && p.rows[k].queryId == p.rows[k'].queryId
                      && Live(p.rows[k]) && Live(p.rows[k']) :: k == k')
      && (forall k | k in p.rows && p.rows[k].queryId in p.requests && !p.requests[p.rows[k].queryId].processing ::
            p.rows[k].failed && p.rows[k].txHash.None?)
      && (forall q | q in p.requests && p.requests[q].processed ::
            && p.requests[q].processing
            && (exists k :: k in p.rows && p.rows[k].queryId == q && p.rows[k].txHash.Some?)
            && (forall k, k' | k in p.rows && k' in p.rows && p.rows[k].queryId == q == p.rows[k'].queryId
                            && p.rows[k].txHash.Some? && p.rows[k'].txHash.Some? :: k == k'))
    decreases n
  {
    if n > 0 {
      EveryRunKeeps(states, steps, n - 1);
      NextKeeps(states[n - 1], steps[n - 1], states[n]);
    }
    InvMeans(states[n].ledger);
  }

  lemma InvMeans(p: Ledger)
    requires Inv(p)
    ensures forall k, k' | k in p.rows && k' in p.rows && p.rows[k].queryId == p.rows[k'].queryId
                        && Live(p.rows[k]) && Live(p.rows[k']) :: k == k'
    ensures forall k | k in p.rows && !p.requests[p.rows[k].queryId].processing ::
              p.rows[k].failed && p.rows[k].txHash.None?
    ensures forall q | q in p.requests && p.requests[q].processed ::
            && p.requests[q].processing
            && (exists k :: k in p.rows && p.rows[k].queryId == q && p.rows[k].txHash.Some?)
            && (forall k, k' | k in p.rows && k' in p.rows && p.rows[k].queryId == q == p.rows[k'].queryId
                            && p.rows[k].txHash.Some? && p.rows[k'].txHash.Some? :: k == k')
  {
    forall k, k' | k in p.rows && k' in p.rows && p.rows[k].queryId == p.rows[k'].queryId
                && !Expired(p.rows[k]) && !Expired(p.rows[k'])
      ensures k == k'
    {
      assert Stands(p, k, p.rows[k].queryId) && Stands(p, k', p.rows[k].queryId);
    }
    forall k | k in p.rows && !p.requests[p.rows[k].queryId].processing ensures Expired(p.rows[k]) {
      assert RowOk(p, k);
    }
    forall q | q in p.requests && p.requests[q].processed
      ensures p.requests[q].processing && exists k :: k in p.rows && p.rows[k].queryId == q && p.rows[k].txHash.Some?
    {
      assert RequestOk(p, q);
      var k :| Stands(p, k, q);
      assert RowOk(p, k);
    }
  }

  // ---------------------------------------------------------------- the status query

  /** On every state the invariant allows, the status query answers for every external request (neither
      "no rows" nor "bad status"), and its LIMIT 1 has exactly one row to pick from when it looks for one. */
  lemma StatusIsTotal(p: Ledger, q: QueryId)
    requires Inv(p) && q in p.requests && !p.requests[q].isInternal
    ensures StatusOf(p, q).Ok?
    ensures StatusOf(p, q).value.Pending? <==> !p.requests[q].processing
    ensures StatusOf(p, q).value.Processing? <==> exists k :: Stands(p, k, q) && Live(p.rows[k])
    ensures forall k | Stands(p, k, q) && Settled(p.rows[k]) ::
              StatusOf(p, q).value == if p.rows[k].failed then Failed(p.rows[k].txHash) else Processed(p.rows[k].txHash)
    ensures p.requests[q].processed ==> exists k :: Stands(p, k, q) && Settled(p.rows[k])
    ensures forall k, k' | Decides(p, k, q) && Decides(p, k', q) :: k == k'
  {
    assert RequestOk(p, q);
    forall k | Stands(p, k, q) ensures RowOk(p, k) && (Settled(p.rows[k]) <==> p.requests[q].processed) {
      assert RowOk(p, k);
    }
    if p.requests[q].processing {
      var k :| Stands(p, k, q);
      assert RowOk(p, k);
      if p.requests[q].processed { assert Decides(p, k, q); }
    }
    forall k | Decides(p, k, q) ensures Stands(p, k, q) { assert RowOk(p, k); }
    forall k | Stands(p, k, q) && Live(p.rows[k]) ensures !Settled(p.rows[k]) { assert RowOk(p, k); }
  }

  predicate Final(s: Status) { s.Processed? || s.Failed? }

  /** A report that calls failed what an earlier report called sent. */
  ghost predicate Contradicts(p: Ledger, e: Report, q: QueryId)
  {
    e.failed && Stands(p, KeyOf(e), q) && p.rows[KeyOf(e)].processedLt.Some?
  }

  /** A report, accepted on a final request, keeps its status final; and it turns Processed into Failed
      exactly when it contradicts the report that settled the request. */
  lemma ReportOnFinal(p: Ledger, e: Report, q: QueryId)
    requires Inv(p) && UpdateWithdrawal(p, e).Ok?
    requires StatusOf(p, q).Ok? && Final(StatusOf(p, q).value)
    ensures var p' := UpdateWithdrawal(p, e).value;
      && StatusOf(p', q).Ok? && Final(StatusOf(p', q).value)
      && (StatusOf(p', q).value.Failed? <==> StatusOf(p, q).value.Failed? || Contradicts(p, e, q))
  {
    var p' := UpdateWithdrawal(p, e).value;
    UpdateKeeps(p, e);
    StatusIsTotal(p, q);
    StatusIsTotal(p', q);
    var k :| Stands(p, k, q) && Settled(p.rows[k]);
    assert Stands(p', k, q);
    assert RowOk(p, k);
    var k0 := KeyOf(e);
    if k0 != k && p.rows[k0].queryId == q { assert Stands(p, k0, q); }
  }

  lemma FinalMeans(p: Ledger, q: QueryId) returns (k: RowKey)
    requires Inv(p) && StatusOf(p, q).Ok? && Final(StatusOf(p, q).value)
    ensures Stands(p, k, q) && Settled(p.rows[k]) && RowOk(p, k) && p.requests[q].processed
  {
    StatusIsTotal(p, q);
    k :| Stands(p, k, q) && Settled(p.rows[k]);
    assert RowOk(p, k);
  }

  /** No other transaction changes a final status at all. */
  lemma OthersKeepFinal(s: State, step: Step, s': State, q: QueryId)
    requires StateInv(s) && Next(s, step, s') && !step.Apply?
    requires StatusOf(s.ledger, q).Ok? && Final(StatusOf(s.ledger, q).value)
    ensures StatusOf(s'.ledger, q) == StatusOf(s.ledger, q)
  {
    NextKeeps(s, step, s');
    var k := FinalMeans(s.ledger, q);
    if step.Create? {
      PendingIsClaimable(s, step.batch);
      if CreateBatch(s.ledger, step.batch, step.msg, step.expiredAt).Ok? {
        CreateBatchAdds(s.ledger, step.batch, step.msg, step.expiredAt);
        assert RequestOk(s.ledger, q);
        assert !ClaimsRequest(step.batch, q);
      }
    }
    if step.Expire? {
      forall o | o in s.ledger.rows && Overdue(s.ledger.rows[o], step.cutoff) ensures s.ledger.rows[o].queryId != q {
        assert RowOk(s.ledger, o);
        assert Stands(s.ledger, o, s.ledger.rows[o].queryId);
        assert s.ledger.rows[o].queryId == q ==> o == k;
      }
    }
    assert RequestOk(s.ledger, q);
    assert Stands(s'.ledger, k, q);
    StatusIsTotal(s.ledger, q);
    StatusIsTotal(s'.ledger, q);
  }
}
