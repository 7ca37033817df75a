/** The withdrawal ledger: tables `withdrawal_requests` and `external_withdrawals` and the database
    transactions that change them, each as a function from tables to tables. */
module Payouts {
  import opened Prelude

  type QueryId = nat

  datatype Request = Request(
    userId: string, userQueryId: string, isInternal: bool,
    currency: string, amount: int, destination: Address,
    processing: bool, processed: bool)

  /** The unique key (msg_uuid, address) of a row of external_withdrawals. */
  datatype RowKey = RowKey(msg: Uuid, to: Address)

  datatype Row = Row(
    queryId: QueryId, expiredAt: Time,
    processedLt: Option<nat>, processedAt: Option<nat>,
    confirmed: bool, failed: bool, txHash: Option<Hash>)

  datatype Ledger = Ledger(nextId: QueryId, requests: map<QueryId, Request>, rows: map<RowKey, Row>)

  datatype Task = Task(queryId: QueryId, currency: string, amount: int, destination: Address)

  /** What the block scanner reports about one message of a batch. */
  datatype Report = Report(msg: Uuid, to: Address, lt: nat, utime: nat, failed: bool, txHash: Hash)

  function KeyOf(e: Report): RowKey { RowKey(e.msg, e.to) }

  datatype Error = NotUnique | ExpiredButExecuted | UnknownWithdrawal | NotFound | NoRows | BadStatus

  /** A row given up by the expiry processor: its message is believed lost. */
  predicate Expired(r: Row) { r.failed && r.txHash.None? }

  /** A row whose message may still be executed. */
  predicate Live(r: Row) { !r.failed && r.processedLt.None? }

  /** A row whose fate a scanned block decided. */
  predicate Settled(r: Row) { r.txHash.Some? }

  const EMPTY := Ledger(1, map[], map[])

  // ---------------------------------------------------------------- transactions

  predicate SameUserQuery(a: Request, b: Request)
  {
    a.userId == b.userId && a.userQueryId == b.userQueryId && a.isInternal == b.isInternal
  }

  function SaveRequest(p: Ledger, w: Request): (r: Result<Ledger, Error>)
  {
    if exists q | q in p.requests :: SameUserQuery(p.requests[q], w) then Err(NotUnique)
    else Ok(Ledger(p.nextId + 1, p.requests[p.nextId := w.(processing := false, processed := false)], p.rows))
  }

  function FreshRow(q: QueryId, expiredAt: Time): Row
  {
    Row(q, expiredAt, None, None, false, false, None)
  }

  function SetProcessing(requests: map<QueryId, Request>, q: QueryId, on: bool): map<QueryId, Request>
  {
    if q in requests then requests[q := requests[q].(processing := on)] else requests
  }

  function SetProcessed(requests: map<QueryId, Request>, q: QueryId): map<QueryId, Request>
  {
    if q in requests then requests[q := requests[q].(processed := true)] else requests
  }

  /** One iteration of CreateExternalWithdrawals: insert the row, claim the request. */
  function Claim(p: Ledger, t: Task, msg: Uuid, expiredAt: Time): Result<Ledger, Error>
  {
    var k := RowKey(msg, t.destination);
    if k in p.rows then Err(NotUnique)
    else Ok(Ledger(p.nextId, SetProcessing(p.requests, t.queryId, true), p.rows[k := FreshRow(t.queryId, expiredAt)]))
  }

  function CreateBatch(p: Ledger, tasks: seq<Task>, msg: Uuid, expiredAt: Time): Result<Ledger, Error>
    decreases |tasks|
  {
    if tasks == [] then Ok(p)
    else
      var init :- CreateBatch(p, tasks[..|tasks| - 1], msg, expiredAt);
      Claim(init, tasks[|tasks| - 1], msg, expiredAt)
  }

  function Settle(r: Row, e: Report): Row
  {
    if e.failed then r.(failed := true, txHash := Some(e.txHash))
    else r.(processedLt := Some(e.lt), processedAt := Some(e.utime), txHash := Some(e.txHash))
  }

  function UpdateWithdrawal(p: Ledger, e: Report): Result<Ledger, Error>
  {
    var k := KeyOf(e);
    if k !in p.rows then Err(if e.failed then NoRows else UnknownWithdrawal)
    else if p.rows[k].failed then Err(ExpiredButExecuted)
    else
      Ok(Ledger(p.nextId, SetProcessed(p.requests, p.rows[k].queryId), p.rows[k := Settle(p.rows[k], e)]))
  }

  /** The external-withdrawal part of SaveParsedBlockData: all reports of a block, or none of them. */
  function ApplyReports(p: Ledger, es: seq<Report>): Result<Ledger, Error>
    decreases |es|
  {
    if es == [] then Ok(p)
    else
      var init :- ApplyReports(p, es[..|es| - 1]);
      UpdateWithdrawal(init, es[|es| - 1])
  }

  /** The rows that one run of SetExpired gives up. */
  predicate Overdue(r: Row, cutoff: Time) { r.expiredAt < cutoff && Live(r) }

  function OverdueIds(p: Ledger, cutoff: Time): set<QueryId>
  {
    set k | k in p.rows && Overdue(p.rows[k], cutoff) :: p.rows[k].queryId
  }

  function SetExpired(p: Ledger, cutoff: Time): (p': Ledger)
  {
    var ids := OverdueIds(p, cutoff);
    Ledger(p.nextId,
           map q | q in p.requests :: if q in ids then p.requests[q].(processing := false) else p.requests[q],
           map k | k in p.rows :: if Overdue(p.rows[k], cutoff) then p.rows[k].(failed := true) else p.rows[k])
  }

  function ConfirmJetton(p: Ledger, q: QueryId): (p': Ledger)
  {
    p.(rows := map k | k in p.rows ::
         if p.rows[k].queryId == q && p.rows[k].processedLt.Some? then p.rows[k].(confirmed := true) else p.rows[k])
  }

  // ---------------------------------------------------------------- queries

  function TaskOf(q: QueryId, r: Request): Task
  {
    Task(q, r.currency, r.amount, r.destination)
  }

  /** What GetExternalWithdrawalTasks may return, up to the order of the rows and the choice LIMIT makes
      between destinations: for every destination listed, the oldest unclaimed request to it, once. */
  ghost predicate IsTaskList(p: Ledger, tasks: seq<Task>)
  {
    && (forall i | 0 <= i < |tasks| :: Unclaimed(p, tasks[i]))
    && (forall i, j | 0 <= i < j < |tasks| :: tasks[i].destination != tasks[j].destination)
    && (forall i, q | 0 <= i < |tasks| && q in p.requests && !p.requests[q].processing
                   && p.requests[q].destination == tasks[i].destination :: tasks[i].queryId <= q)
  }

  predicate Unclaimed(p: Ledger, t: Task)
  {
    t.queryId in p.requests && !p.requests[t.queryId].processing && t == TaskOf(t.queryId, p.requests[t.queryId])
  }

  datatype Status = Pending | Processing | Processed(tx: Option<Hash>) | Failed(tx: Option<Hash>)

  predicate Decides(p: Ledger, k: RowKey, q: QueryId)
  {
    k in p.rows && p.rows[k].queryId == q && (p.rows[k].txHash.Some? || p.rows[k].processedLt.Some?)
  }

  /** GetExternalWithdrawalStatus; `k` is the row its LIMIT 1 happens to pick. */
  ghost function StatusOf(p: Ledger, q: QueryId): Result<Status, Error>
  {
    if q !in p.requests || p.requests[q].isInternal then Err(NotFound)
    else if p.requests[q].processing && p.requests[q].processed then
      if k :| Decides(p, k, q) then
        Ok(if p.rows[k].failed then Failed(p.rows[k].txHash) else Processed(p.rows[k].txHash))
      else Err(NoRows)
    else if p.requests[q].processing then Ok(Processing)
    else if !p.requests[q].processed then Ok(Pending)
    else Err(BadStatus)
  }
}
