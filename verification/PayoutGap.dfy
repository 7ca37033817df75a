/** The margin must cover the gap: if it does not, here is a run that pays one request twice. */
module PayoutGap {
  import opened Prelude
  import opened Payouts
  import opened PayoutInvariants
  import opened PayoutProtocol

  const PAYEE := Address(7, 42)
  const ASK := Request("user", "order-1", false, TON, 5, PAYEE, false, false)
  const TASK := Task(1, TON, 5, PAYEE)
  const FIRST := RowKey(1, PAYEE)
  const SECOND := RowKey(2, PAYEE)
  const FIRST_RUN := Execution(1, {PAYEE}, 71)
  const SECOND_RUN := Execution(2, {PAYEE}, 72)
  const LOST := FreshRow(1, 0.0).(failed := true)

  const ASKED := Ledger(2, map[1 := ASK], map[])
  const CLAIMED := Ledger(2, map[1 := ASK.(processing := true)], map[FIRST := FreshRow(1, 0.0)])
  const RELEASED := Ledger(2, map[1 := ASK], map[FIRST := LOST])
  const RECLAIMED := Ledger(2, map[1 := ASK.(processing := true)], map[FIRST := LOST, SECOND := FreshRow(1, 0.0)])

  /** All blocks of the run carry the last time at which a message with TTL 0 still runs. */
  function BlockAt(c: Params, xs: seq<Execution>): Block { Block(-c.margin, xs) }

  function ChainAt(c: Params, n: nat): seq<Block>
    requires n <= 3
  {
    [BlockAt(c, []), BlockAt(c, [FIRST_RUN]), BlockAt(c, [SECOND_RUN])][..n]
  }

  /** A passing sync check as late as `half` before it would fail. */
  function CheckedAt(c: Params): Time { -c.margin + c.lag - (c.gap - c.margin) / 2.0 }

  const ONE_BATCH: map<Uuid, Batch> := map[1 := Batch(0.0, {PAYEE})]
  const TWO_BATCHES: map<Uuid, Batch> := map[1 := Batch(0.0, {PAYEE}), 2 := Batch(0.0, {PAYEE})]

  function Worlds(c: Params): seq<World>
  {
    [ INITIAL,
      World(ASKED, [], false, {}, map[], [], 0, None),
      World(ASKED, [TASK], false, {}, map[], [], 0, None),
      World(ASKED, [TASK], true, {}, map[], [], 0, None),
      World(CLAIMED, [], false, {}, ONE_BATCH, [], 0, None),
      World(CLAIMED, [], false, {}, ONE_BATCH, ChainAt(c, 1), 0, None),
      World(CLAIMED, [], false, {}, ONE_BATCH, ChainAt(c, 1), 1, None),
      World(CLAIMED, [], false, {}, ONE_BATCH, ChainAt(c, 1), 1, Some(CheckedAt(c))),
      World(RELEASED, [], false, {}, ONE_BATCH, ChainAt(c, 1), 1, None),
      World(RELEASED, [TASK], false, {}, ONE_BATCH, ChainAt(c, 1), 1, None),
      World(RELEASED, [TASK], true, {}, ONE_BATCH, ChainAt(c, 1), 1, None),
      World(RECLAIMED, [], false, {}, TWO_BATCHES, ChainAt(c, 1), 1, None),
      World(RECLAIMED, [], false, {}, TWO_BATCHES, ChainAt(c, 2), 1, None),
      World(RECLAIMED, [], false, {}, TWO_BATCHES, ChainAt(c, 3), 1, None) ]
  }

  function Steps(c: Params): seq<PayoutProtocol.Step>
  {
    var now := CheckedAt(c) + c.gap;
    [ PayoutProtocol.Save(ASK), PayoutProtocol.Select([TASK]), Build([TASK]), PayoutProtocol.Create([TASK], 1, 0.0),
      Append(BlockAt(c, [])), Scan([]), CheckSync(CheckedAt(c)), PayoutProtocol.Expire(now, now - c.lag),
      PayoutProtocol.Select([TASK]), Build([TASK]), PayoutProtocol.Create([TASK], 2, 0.0),
      Append(BlockAt(c, [FIRST_RUN])), Append(BlockAt(c, [SECOND_RUN])) ]
  }

  lemma FirstAttempt(c: Params, i: nat)
    requires i < 3
    ensures PayoutProtocol.Next(c, Worlds(c)[i], Steps(c)[i], Worlds(c)[i + 1])
  {
  }

  lemma FirstBatch(c: Params)
    ensures PayoutProtocol.Next(c, Worlds(c)[3], Steps(c)[3], Worlds(c)[4])
  {
    assert [TASK][..0] == [];
    assert Recipients([TASK]) == {PAYEE};
  }

  lemma CheckedInTime(c: Params, i: nat)
    requires 4 <= i < 7 && c.margin < c.gap
    ensures PayoutProtocol.Next(c, Worlds(c)[i], Steps(c)[i], Worlds(c)[i + 1])
  {
  }

  lemma GivenUp(c: Params)
    requires 0.0 <= c.gap && c.margin < c.gap
    ensures PayoutProtocol.Next(c, Worlds(c)[7], Steps(c)[7], Worlds(c)[8])
  {
    var cutoff := CheckedAt(c) + c.gap - c.lag;
    assert cutoff == (c.gap - c.margin) / 2.0 > 0.0;
    ReleaseOverdue(cutoff);
  }

  lemma ReleaseOverdue(cutoff: Time)
    requires cutoff > 0.0
    ensures SetExpired(CLAIMED, cutoff) == RELEASED
  {
    assert OverdueIds(CLAIMED, cutoff) == {1} by {
      assert FIRST in CLAIMED.rows && Overdue(CLAIMED.rows[FIRST], cutoff);
    }
    assert SetExpired(CLAIMED, cutoff).requests == RELEASED.requests;
    assert SetExpired(CLAIMED, cutoff).rows == RELEASED.rows;
  }

  lemma SecondAttempt(c: Params, i: nat)
    requires 8 <= i < 10
    ensures PayoutProtocol.Next(c, Worlds(c)[i], Steps(c)[i], Worlds(c)[i + 1])
  {
  }

  lemma SecondBatch(c: Params)
    ensures PayoutProtocol.Next(c, Worlds(c)[10], Steps(c)[10], Worlds(c)[11])
  {
    assert [TASK][..0] == [];
    assert Recipients([TASK]) == {PAYEE};
  }

  lemma BothExecuted(c: Params, i: nat)
    requires 11 <= i < 13
    ensures PayoutProtocol.Next(c, Worlds(c)[i], Steps(c)[i], Worlds(c)[i + 1])
  {
    assert ChainAt(c, 2) == ChainAt(c, 1) + [BlockAt(c, [FIRST_RUN])];
    assert ChainAt(c, 3) == ChainAt(c, 2) + [BlockAt(c, [SECOND_RUN])];
  }

  /** An uncovered gap, however small, lets a run pay a request twice. */
  lemma UncoveredGapPaysTwice(c: Params)
    requires 0.0 <= c.gap && c.margin < c.gap
    ensures PayoutProtocol.Run(c, Worlds(c), Steps(c))
    ensures !PaidAtMostOnce(Worlds(c)[13])
  {
    forall i | 0 <= i < |Steps(c)| ensures PayoutProtocol.Next(c, Worlds(c)[i], Steps(c)[i], Worlds(c)[i + 1]) {
      if i < 3 { FirstAttempt(c, i); }
      else if i < 4 { FirstBatch(c); }
      else if i < 7 { CheckedInTime(c, i); }
      else if i < 8 { GivenUp(c); }
      else if i < 10 { SecondAttempt(c, i); }
      else if i < 11 { SecondBatch(c); }
      else { BothExecuted(c, i); }
    }
    var w := Worlds(c)[13];
    assert Executes(w, 1, FIRST_RUN) && Pays(w, FIRST_RUN, PAYEE, 1);
    assert Executes(w, 2, SECOND_RUN) && Pays(w, SECOND_RUN, PAYEE, 1);
  }

  /** No run pays a request twice, or has a block refused, if and only if the margin covers the gap, whether or
      not payees join the service. */
  lemma PaysOnceIffGapCovered(c: Params)
    requires 0.0 <= c.gap
    ensures (forall ws, steps, n: nat | PayoutProtocol.Run(c, ws, steps) && n < |ws| :: PaysOnce(ws[n]))
       <==> c.gap <= c.margin
  {
    if c.gap <= c.margin {
      forall ws, steps, n: nat | PayoutProtocol.Run(c, ws, steps) && n < |ws| ensures PaysOnce(ws[n]) {
        CoveredGapPaysOnce(c, ws, steps, n);
      }
    } else {
      UncoveredGapPaysTwice(c);
      assert !PaysOnce(Worlds(c)[13]);
    }
  }
}
