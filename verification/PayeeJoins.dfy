/** A payee that becomes a wallet of the service while its payment is under way: the scanner keeps silent about the
    payment, expiry takes it for lost, and the request is shown as pending although the chain paid it. */
module PayeeJoins {
  import opened Prelude
  import opened Payouts
  import opened PayoutInvariants
  import opened PayoutProtocol
  import opened PayoutGap

  /** The block that pays, at the last moment. */
  function PayingBlock(c: Params): PayoutProtocol.Block { BlockAt(c, [FIRST_RUN]) }

  /** A block late enough for the payment to be overdue. */
  function LateBlock(c: Params): PayoutProtocol.Block
  {
    PayoutProtocol.Block(if -c.margin > 2.0 then -c.margin else 2.0, [])
  }

  function CheckTime(c: Params): Time { c.lag + 1.0 }

  function JoinWorlds(c: Params): seq<World>
  {
    var one, two := [PayingBlock(c)], [PayingBlock(c), LateBlock(c)];
    [ INITIAL,
      World(ASKED, [], false, {}, map[], [], 0, None),
      World(ASKED, [TASK], false, {}, map[], [], 0, None),
      World(ASKED, [TASK], true, {}, map[], [], 0, None),
      World(CLAIMED, [], false, {}, ONE_BATCH, [], 0, None),
      World(CLAIMED, [], false, {}, ONE_BATCH, one, 0, None),
      World(CLAIMED, [], false, {PAYEE}, ONE_BATCH, one, 0, None),
      World(CLAIMED, [], false, {PAYEE}, ONE_BATCH, one, 1, None),
      World(CLAIMED, [], false, {PAYEE}, ONE_BATCH, two, 1, None),
      World(CLAIMED, [], false, {PAYEE}, ONE_BATCH, two, 2, None),
      World(CLAIMED, [], false, {PAYEE}, ONE_BATCH, two, 2, Some(CheckTime(c))),
      World(RELEASED, [], false, {PAYEE}, ONE_BATCH, two, 2, None) ]
  }

  function JoinSteps(c: Params): seq<PayoutProtocol.Step>
  {
    [ PayoutProtocol.Save(ASK), PayoutProtocol.Select([TASK]), Build([TASK]), PayoutProtocol.Create([TASK], 1, 0.0),
      Append(PayingBlock(c)), Join(PAYEE), Scan([]), Append(LateBlock(c)), Scan([]),
      CheckSync(CheckTime(c)), PayoutProtocol.Expire(CheckTime(c), CheckTime(c) - c.lag) ]
  }

  lemma BatchSent(c: Params, i: nat)
    requires i < 4
    ensures PayoutProtocol.Next(c, JoinWorlds(c)[i], JoinSteps(c)[i], JoinWorlds(c)[i + 1])
  {
    SameStart(c, i);
    if i < 3 { FirstAttempt(c, i); } else { FirstBatch(c); }
  }

  /** The run begins like the one that pays twice. */
  lemma SameStart(c: Params, i: nat)
    requires i < 4
    ensures JoinWorlds(c)[i] == Worlds(c)[i] && JoinWorlds(c)[i + 1] == Worlds(c)[i + 1]
    ensures JoinSteps(c)[i] == Steps(c)[i]
  {
  }

  lemma PaidAndJoined(c: Params, i: nat)
    requires 4 <= i < 7 && c.payeesJoin
    ensures PayoutProtocol.Next(c, JoinWorlds(c)[i], JoinSteps(c)[i], JoinWorlds(c)[i + 1])
  {
  }

  lemma NotReported(c: Params, i: nat)
    requires 7 <= i < 10
    ensures PayoutProtocol.Next(c, JoinWorlds(c)[i], JoinSteps(c)[i], JoinWorlds(c)[i + 1])
  {
    assert [PayingBlock(c), LateBlock(c)] == [PayingBlock(c)] + [LateBlock(c)];
  }

  lemma TakenForLost(c: Params)
    requires 0.0 <= c.gap
    ensures PayoutProtocol.Next(c, JoinWorlds(c)[10], JoinSteps(c)[10], JoinWorlds(c)[11])
  {
    ReleaseOverdue(CheckTime(c) - c.lag);
  }

  /** Whatever the clocks: the payment ran, its block is saved, and yet its row is given up and the request shown
      as pending. */
  lemma JoiningPayeeIsForgotten(c: Params)
    requires 0.0 <= c.gap && c.payeesJoin
    ensures PayoutProtocol.Run(c, JoinWorlds(c), JoinSteps(c))
    ensures var w := JoinWorlds(c)[11];
      && Executes(w, 0, FIRST_RUN) && w.saved == |w.chain| && Expired(w.ledger.rows[FIRST])
      && StatusOf(w.ledger, 1) == Ok(Pending) && !Safe(c, w)
  {
    forall i | 0 <= i < |JoinSteps(c)|
      ensures PayoutProtocol.Next(c, JoinWorlds(c)[i], JoinSteps(c)[i], JoinWorlds(c)[i + 1])
    {
      if i < 4 { BatchSent(c, i); }
      else if i < 7 { PaidAndJoined(c, i); }
      else if i < 10 { NotReported(c, i); }
      else { TakenForLost(c); }
    }
    var w := JoinWorlds(c)[11];
    assert Executes(w, 0, FIRST_RUN);
    assert FIRST in w.ledger.rows && Expired(w.ledger.rows[FIRST]) && !Dead(c, w, FIRST);
  }

  /** All runs are safe if and only if the margin covers the gap and no payee may join the service while its
      payment is under way. */
  lemma SafeIffCoveredAndApart(c: Params)
    requires 0.0 <= c.gap
    ensures (forall ws, steps, n: nat | PayoutProtocol.Run(c, ws, steps) && n < |ws| :: Safe(c, ws[n]))
       <==> c.gap <= c.margin && !c.payeesJoin
  {
    if c.payeesJoin {
      JoiningPayeeIsForgotten(c);
      assert !Safe(c, JoinWorlds(c)[11]);
    } else if c.gap <= c.margin {
      forall ws, steps, n: nat | PayoutProtocol.Run(c, ws, steps) && n < |ws| ensures Safe(c, ws[n]) {
        CoveredGapIsSafe(c, ws, steps, n);
      }
    } else {
      UncoveredGapPaysTwice(c);
      assert !Safe(c, Worlds(c)[13]);
    }
  }
}
