/** When a scanned block is refused because of a sweep. Never because events come out of order; and because a
    sweep was given up too early only if the margin does not cover the clock gap, in which case it does happen. */
module SweepRefusals {
  import opened Prelude
  import opened Messages
  import AddressBook
  import opened Sweeps
  import opened SweepProtocol
  import Batch
  import HotWalletScan

  // ---------------------------------------------------------------- every refusal is of a sweep given up

  /** The scanned sendings are in the table. */
  ghost predicate Seen(w: World)
  {
    forall m, i | m in w.table.rows && i < w.saved && Sends(w, i, m) :: w.table.rows[m].sendingLt.Some?
  }

  lemma NextKeepsSeen(c: Params, isTon: Address -> bool, w: World, step: Step, w': World)
    requires ChainOk(c, w) && Seen(w) && Next(c, isTon, w, step, w')
    ensures Seen(w')
  {
    match step
    case Scan =>
      ScannedRows(w);
      forall m, i | m in w'.table.rows && i < w'.saved && Sends(w', i, m) ensures w'.table.rows[m].sendingLt.Some? {
        assert Sends(w, i, m);
      }
    case Append(b) =>
      forall m, i | m in w'.table.rows && i < w'.saved && Sends(w', i, m) ensures w'.table.rows[m].sendingLt.Some? {
        assert Sends(w, i, m);
      }
    case _ =>
      forall m, i | m in w'.table.rows && i < w'.saved && Sends(w', i, m) ensures w'.table.rows[m].sendingLt.Some? {
        assert Sends(w, i, m);
        SendsAreInTime(c, w, i, m);
      }
  }

  lemma {:induction false} RunKeepsSeen(c: Params, isTon: Address -> bool, ws: seq<World>, steps: seq<Step>, n: nat)
    requires Run(c, isTon, ws, steps) && n < |ws|
    ensures Seen(ws[n]) && OrderInv(c, isTon, ws[n])
    decreases n
  {
    RunKeepsOrder(c, isTon, ws, steps, n);
    if n > 0 {
      RunKeepsSeen(c, isTon, ws, steps, n - 1);
      NextKeepsSeen(c, isTon, ws[n - 1], steps[n - 1], ws[n]);
    }
  }

  lemma {:induction false} KnownFailToConfirm(t: Table, cs: seq<Confirmation>)
    requires forall s | s in cs :: s.memo.OfMemo? && s.memo.memo in t.rows
    ensures ConfirmAll(t, cs).Err? ==> ConfirmAll(t, cs).error == ExpiredButSent
    decreases |cs|
  {
    if cs != [] {
      KnownFailToConfirm(t, cs[..|cs| - 1]);
      if ConfirmAll(t, cs[..|cs| - 1]).Ok? { ConfirmAllForward(t, cs[..|cs| - 1]); }
    }
  }

  /** The end of a sweep whose sendings are all confirmed finds its row sent and not failed. */
  lemma EndFindsItsRow(c: Params, w: World, t: Table, f: Finish)
    requires ChainOk(c, w) && Seen(w) && SentNeverExpires(w) && w.saved < |w.chain| && f in w.chain[w.saved].ends
    requires ConfirmAll(w.table, w.chain[w.saved].sends) == Ok(t)
    ensures f.memo.OfMemo? && f.memo.memo in t.rows && !t.rows[f.memo.memo].failed
    ensures t.rows[f.memo.memo].sendingLt.Some?
  {
    var b := w.chain[w.saved];
    assert EndsAt(w, w.saved, f) && EndOk(w, w.saved, f);
    var m := f.memo.memo;
    var j :| j <= w.saved && Sends(w, j, m);
    ConfirmAllOk(w.table, b.sends);
    ConfirmAllForward(w.table, b.sends);
    assert j == w.saved ==> Confirms(b.sends, m);
    assert t.rows[m].failed == w.table.rows[m].failed;
    if j < w.saved {
      forall i, g | i < w.saved && EndsAt(w, i, g) && g.failed ensures g.memo != f.memo {
        assert NothingAfterFailure(w, i, w.saved);
      }
      assert !FailedOnChain(w, m);
    }
  }

  /** On every run, whatever the clocks say, no block is refused for its order of events: the one refusal left is
      that of the sending of a sweep that expiry gave up although its message could still run. */
  lemma NeverOutOfOrder(c: Params, isTon: Address -> bool, ws: seq<World>, steps: seq<Step>, n: nat)
    requires Run(c, isTon, ws, steps) && n < |ws| && ws[n].saved < |ws[n].chain|
    ensures BlockResult(ws[n]).Err? ==> BlockResult(ws[n]).error == ExpiredButSent
    ensures BlockResult(ws[n]).Err? ==> exists m :: GivenUpTooEarly(c, ws[n], m)
  {
    RunKeepsSeen(c, isTon, ws, steps, n);
    var w, b := ws[n], ws[n].chain[ws[n].saved];
    KnownFailToConfirm(w.table, b.sends);
    ConfirmAllOk(w.table, b.sends);
    match ConfirmAll(w.table, b.sends)
    case Ok(t) =>
      forall f | f in b.ends
        ensures f.memo.OfMemo? && f.memo.memo in t.rows && !t.rows[f.memo.memo].failed
        ensures t.rows[f.memo.memo].sendingLt.Some?
      {
        EndFindsItsRow(c, w, t, f);
      }
      FinishAllOk(t, b.ends);
    case Err(_) =>
      var s :| s in b.sends && w.table.rows[s.memo.memo].failed;
      assert Sends(w, w.saved, s.memo.memo);
      SendsAreInTime(c, w, w.saved, s.memo.memo);
      if w.table.rows[s.memo.memo].sendingLt.Some? {
        NotFailedBefore(c, w, s);
      }
      assert GivenUpTooEarly(c, w, s.memo.memo);
  }

  lemma NotFailedBefore(c: Params, w: World, s: Confirmation)
    requires ChainOk(c, w) && w.saved < |w.chain| && s in w.chain[w.saved].sends && s.memo.OfMemo?
    ensures !FailedOnChain(w, s.memo.memo)
  {
    forall i, g | i < w.saved && EndsAt(w, i, g) && g.failed ensures g.memo != s.memo {
      assert NothingAfterFailure(w, i, w.saved);
    }
  }

  /** Given up without having been seen sent, while the next block still sends it in time. */
  ghost predicate GivenUpTooEarly(c: Params, w: World, m: Memo)
  {
    && w.saved < |w.chain| && Sends(w, w.saved, m) && m in w.table.rows
    && w.table.rows[m].failed && w.table.rows[m].sendingLt.None?
    && w.chain[w.saved].time + c.margin <= w.table.rows[m].expiredAt
  }

  // ---------------------------------------------------------------- it happens when the gap is not covered

  const DEPOSIT := Address(7, 42)
  const WALLETS := AddressBook.Tables(map[1 := AddressBook.TonWallet("user", TonDeposit, DEPOSIT)], map[])
  const PAID := Income(DEPOSIT, 1)
  const TASK := Batch.SweepTask(DEPOSIT, 1, 1, TON)
  const SENT := HotWalletScan.Confirmation(2, DEPOSIT, OfMemo(1))
  const SWEEP := Row(0, DEPOSIT, 1, 0.0, None, None, None, 0, false)

  const SAVED := Table(1, map[1 := SWEEP])
  const GIVEN_UP := Table(1, map[1 := SWEEP.(failed := true)])

  function IncomeBlock(c: Params): Block { Block(-c.margin, [PAID], [], []) }

  function SendBlock(c: Params): Block { Block(-c.margin, [], [SENT], []) }

  /** A passing sync check, half of the uncovered gap before it would fail. */
  function CheckedAt(c: Params): Time { -c.margin + c.lag - (c.gap - c.margin) / 2.0 }

  function Worlds(c: Params): seq<World>
  {
    [ INITIAL,
      World(EMPTY_TABLE, [], {}, {}, [IncomeBlock(c)], 0, None),
      World(EMPTY_TABLE, [PAID], {}, {}, [IncomeBlock(c)], 1, None),
      World(EMPTY_TABLE, [PAID], {TASK}, {}, [IncomeBlock(c)], 1, None),
      World(SAVED, [PAID], {}, {}, [IncomeBlock(c)], 1, None),
      World(SAVED, [PAID], {}, {}, [IncomeBlock(c)], 1, Some(CheckedAt(c))),
      World(GIVEN_UP, [PAID], {}, {}, [IncomeBlock(c)], 1, None),
      World(GIVEN_UP, [PAID], {}, {}, [IncomeBlock(c), SendBlock(c)], 1, None) ]
  }

  function Steps(c: Params): seq<Step>
  {
    var now := CheckedAt(c) + c.gap;
    [ Append(IncomeBlock(c)), Scan, SelectTon(WALLETS, {TASK}), SaveTon(TASK, 0.0, 1), CheckSync(CheckedAt(c)),
      Expire(now, now - c.lag), Append(SendBlock(c)) ]
  }

  lemma PaidAndSelected(c: Params, isTon: Address -> bool, i: nat)
    requires i < 3 && isTon(DEPOSIT)
    ensures Next(c, isTon, Worlds(c)[i], Steps(c)[i], Worlds(c)[i + 1])
  {
    if i == 1 {
      assert ConfirmAll(EMPTY_TABLE, []) == Ok(EMPTY_TABLE) && FinishAll(EMPTY_TABLE, []) == Ok(EMPTY_TABLE);
      assert [] + [PAID] == [PAID];
    } else if i == 2 {
      TonQueryIsSpec(EMPTY_TABLE, [PAID], WALLETS, TASK);
      assert LastIncome([PAID], DEPOSIT, 1);
      assert TonTask(EMPTY_TABLE, [PAID], WALLETS, TASK);
    }
  }

  lemma SentAfterAll(c: Params, isTon: Address -> bool)
    ensures Next(c, isTon, Worlds(c)[6], Steps(c)[6], Worlds(c)[7])
    ensures !Accepting(Worlds(c)[7])
  {
    var w := Worlds(c)[6];
    assert [IncomeBlock(c), SendBlock(c)] == [IncomeBlock(c)] + [SendBlock(c)];
    forall j, g ensures !EndsAt(w, j, g) {}
    assert SENT in [SENT];
    ConfirmAllOk(GIVEN_UP, [SENT]);
  }

  lemma UncoveredGapRefuses(c: Params, isTon: Address -> bool)
    requires 0.0 <= c.gap && c.margin < c.gap && isTon(DEPOSIT)
    ensures Run(c, isTon, Worlds(c), Steps(c)) && !Accepting(Worlds(c)[7])
  {
    forall i | 0 <= i < |Steps(c)| ensures Next(c, isTon, Worlds(c)[i], Steps(c)[i], Worlds(c)[i + 1]) {
      if i < 3 { PaidAndSelected(c, isTon, i); }
      else if i < 6 {}
      else { SentAfterAll(c, isTon); }
    }
    SentAfterAll(c, isTon);
  }

  /** No run ever refuses a block if and only if the margin covers the gap between the clock readings. */
  lemma AcceptingIffGapCovered(c: Params)
    requires 0.0 <= c.gap
    ensures (forall isTon, ws, steps, n: nat | Run(c, isTon, ws, steps) && n < |ws| :: Accepting(ws[n]))
       <==> c.gap <= c.margin
  {
    if c.gap <= c.margin {
      forall isTon, ws, steps, n: nat | Run(c, isTon, ws, steps) && n < |ws| ensures Accepting(ws[n]) {
        EveryRunIsAccepting(c, isTon, ws, steps, n);
      }
    } else {
      var isTon := (a: Address) => true;
      UncoveredGapRefuses(c, isTon);
      assert !Accepting(Worlds(c)[7]);
    }
  }
}
