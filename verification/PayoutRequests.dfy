/** What becomes of a request: when it is refused, what of it never changes, and what a selected task says of it. */
module PayoutRequests {
  import opened Prelude
  import opened Payouts
  import opened PayoutInvariants

  // ---------------------------------------------------------------- which requests are refused

  /** A request of this user, with this id and of this kind, is stored. */
  ghost predicate Asked(p: Ledger, userId: string, userQueryId: string, isInternal: bool)
  {
    exists q :: q in p.requests && p.requests[q].userId == userId && p.requests[q].userQueryId == userQueryId
      && p.requests[q].isInternal == isInternal
  }

  /** A request is refused if and only if its user asked for the same id and kind before. Otherwise it is stored as it
      came, unclaimed, under an id that was never used, beside all the others. */
  lemma RefusedIffAsked(p: Ledger, w: Request)
    requires Inv(p)
    ensures SaveRequest(p, w).Err? <==> Asked(p, w.userId, w.userQueryId, w.isInternal)
    ensures SaveRequest(p, w).Err? ==> SaveRequest(p, w) == Err(NotUnique)
    ensures SaveRequest(p, w).Ok? ==> var p' := SaveRequest(p, w).value;
      && p.nextId !in p.requests && p'.nextId > p.nextId && p'.rows == p.rows
      && p'.requests.Keys == p.requests.Keys + {p.nextId}
      && (forall q | q in p.requests :: p'.requests[q] == p.requests[q])
      && p'.requests[p.nextId] == Request(w.userId, w.userQueryId, w.isInternal, w.currency, w.amount, w.destination,
                                          false, false)
  {
    assert p.nextId in p.requests ==> RequestOk(p, p.nextId);
  }

  // ---------------------------------------------------------------- what never changes

  /** The two requests ask for the same; they may differ in how far they got. */
  predicate SameWish(a: Request, b: Request)
  {
    && a.userId == b.userId && a.userQueryId == b.userQueryId && a.isInternal == b.isInternal
    && a.currency == b.currency && a.amount == b.amount && a.destination == b.destination
  }

  /** No wish changes and none is lost. */
  ghost predicate WishesStay(p: Ledger, p': Ledger)
  {
    forall q | q in p.requests :: q in p'.requests && SameWish(p.requests[q], p'.requests[q])
  }

  /** No two requests are of the same user, id and kind. */
  ghost predicate NoneTwice(p: Ledger)
  {
    forall q, q' | q in p.requests && q' in p.requests
      && p.requests[q].userId == p.requests[q'].userId && p.requests[q].userQueryId == p.requests[q'].userQueryId
      && p.requests[q].isInternal == p.requests[q'].isInternal :: q == q'
  }

  lemma {:induction false} ReportsKeepWishes(p: Ledger, es: seq<Report>)
    requires ApplyReports(p, es).Ok?
    ensures WishesStay(p, ApplyReports(p, es).value)
    ensures ApplyReports(p, es).value.requests.Keys == p.requests.Keys
    decreases |es|
  {
    if es != [] { ReportsKeepWishes(p, es[..|es| - 1]); }
  }

  lemma SaveKeepsWishes(p: Ledger, w: Request)
    requires Inv(p)
    ensures WishesStay(p, LedgerOr(SaveRequest(p, w), p))
    ensures NoneTwice(p) ==> NoneTwice(LedgerOr(SaveRequest(p, w), p))
  {
    RefusedIffAsked(p, w);
  }

  /** Where no request is added, none can be there twice. */
  lemma SameWishes(p: Ledger, p': Ledger)
    requires p'.requests.Keys == p.requests.Keys
    requires forall q | q in p.requests :: SameWish(p.requests[q], p'.requests[q])
    ensures WishesStay(p, p') && (NoneTwice(p) ==> NoneTwice(p'))
  {
  }

  lemma NextKeepsWishes(s: State, step: Step, s': State)
    requires StateInv(s) && Next(s, step, s')
    ensures WishesStay(s.ledger, s'.ledger)
    ensures NoneTwice(s.ledger) ==> NoneTwice(s'.ledger)
  {
    match step
    case Save(w) => SaveKeepsWishes(s.ledger, w);
    case Create(batch, msg, expiredAt) =>
      if CreateBatch(s.ledger, batch, msg, expiredAt).Ok? {
        CreateBatchAdds(s.ledger, batch, msg, expiredAt);
        SameWishes(s.ledger, s'.ledger);
      }
    case Apply(reports) =>
      if ApplyReports(s.ledger, reports).Ok? {
        ReportsKeepWishes(s.ledger, reports);
        SameWishes(s.ledger, s'.ledger);
      }
    case _ => SameWishes(s.ledger, s'.ledger);
  }

  /** On every run no request is stored twice, and what a request asks for never changes. */
  lemma {:induction false} EveryRunKeepsWishes(states: seq<State>, steps: seq<Step>, m: nat, n: nat)
    requires Run(states, steps) && m <= n < |states|
    ensures NoneTwice(states[n].ledger)
    ensures WishesStay(states[m].ledger, states[n].ledger)
    decreases n
  {
    if n > 0 {
      EveryRunKeeps(states, steps, n - 1);
      EveryRunKeepsWishes(states, steps, if m < n then m else n - 1, n - 1);
      NextKeepsWishes(states[n - 1], steps[n - 1], states[n]);
    }
  }

  // ---------------------------------------------------------------- what a task says

  /** The task is of an unclaimed request, and asks for the same. */
  ghost predicate Stated(p: Ledger, t: Task)
  {
    && t.queryId in p.requests && !p.requests[t.queryId].processing
    && t.currency == p.requests[t.queryId].currency && t.amount == p.requests[t.queryId].amount
    && t.destination == p.requests[t.queryId].destination
  }

  /** Every selected task carries the currency, amount and destination of its request, which is the oldest unclaimed
      one to that destination. */
  lemma TasksStateRequests(p: Ledger, tasks: seq<Task>)
    requires IsTaskList(p, tasks)
    ensures forall t | t in tasks :: Stated(p, t)
    ensures forall i, j | 0 <= i < j < |tasks| :: tasks[i].queryId != tasks[j].queryId
    ensures forall t, q | t in tasks && q in p.requests && !p.requests[q].processing
                       && p.requests[q].destination == t.destination :: t.queryId <= q
  {
    forall t | t in tasks ensures Unclaimed(p, t) {}
    forall i, j | 0 <= i < j < |tasks| ensures tasks[i].queryId != tasks[j].queryId {
      assert Unclaimed(p, tasks[i]) && Unclaimed(p, tasks[j]);
    }
  }

  /** And still does so when its batch is saved, on every run and whatever came in between. */
  lemma PendingStatesRequests(states: seq<State>, steps: seq<Step>, n: nat)
    requires Run(states, steps) && n < |states|
    ensures forall t | t in states[n].pending :: Stated(states[n].ledger, t)
  {
    EveryRunKeeps(states, steps, n);
    forall t | t in states[n].pending ensures Unclaimed(states[n].ledger, t) {}
  }

  // ---------------------------------------------------------------- the status query

  /** It fails exactly for an id that is unknown or of an internal request, and then says so. */
  lemma NotFoundIff(p: Ledger, q: QueryId)
    requires Inv(p)
    ensures StatusOf(p, q) == Err(NotFound) <==> (q in p.requests ==> p.requests[q].isInternal)
    ensures StatusOf(p, q).Err? ==> StatusOf(p, q) == Err(NotFound)
  {
    if q in p.requests && !p.requests[q].isInternal { StatusIsTotal(p, q); }
  }
}
