/** The block scanner on a transaction in which a TON deposit executes a withdrawal to the hot wallet
    (core/block_scanner.go). */
module DepositScan {
  import opened Prelude
  import opened Lists
  import opened Messages
  import opened Sweeps
  import HotWalletScan
  import JettonIncome

  datatype OutMsg = NotInternal | Internal(to: Address, lt: nat, utime: nat, amount: int, comment: Comment)

  datatype ScanError = AnomalousDeposit

  function SendOf(deposit: Address, o: OutMsg): Confirmation
    requires o.Internal?
  {
    HotWalletScan.Confirmation(o.lt, deposit, o.comment)
  }

  function EndOf(deposit: Address, o: OutMsg): Finish
    requires o.Internal?
  {
    JettonIncome.Withdrawal(o.utime, o.lt, deposit, o.amount, o.comment, false)
  }

  function IsToHotWallet(book: Book): OutMsg -> bool { (o: OutMsg) => o.Internal? && IsKind(book, o.to, TonHot) }

  /** The messages among `outs` that go to the hot wallet, in their order. */
  function ToHotWallet(book: Book, outs: seq<OutMsg>): (hs: seq<OutMsg>)
    ensures forall h | h in hs :: h in outs && h.Internal? && h.to in book && book[h.to].kind == TonHot
    ensures forall o | o in outs && o.Internal? && o.to in book && book[o.to].kind == TonHot :: o in hs
  {
    Where(outs, IsToHotWallet(book))
  }

  /** processTonDepositWalletExternalInMsg: every message to the hot wallet is both the sending and the end of
      the sweep named in its comment. */
  method ProcessExternalIn(book: Book, deposit: Address, outs: seq<OutMsg>)
    returns (ok: bool, sends: seq<Confirmation>, ends: seq<Finish>)
    ensures ok <==> forall o | o in outs :: o.Internal?
    ensures ok ==> Paired(ToHotWallet(book, outs), deposit, sends, ends)
  {
    sends, ends := [], [];
    for i := 0 to |outs|
      invariant forall o | o in outs[..i] :: o.Internal?
      invariant Paired(ToHotWallet(book, outs[..i]), deposit, sends, ends)
    {
      assert outs[..i + 1][..i] == outs[..i];
      var o := outs[i];
      if o.NotInternal? {
        assert o in outs;
        return false, [], [];
      }
      if o.to !in book || book[o.to].kind != TonHot { continue; }
      sends, ends := sends + [SendOf(deposit, o)], ends + [EndOf(deposit, o)];
    }
    assert outs[..|outs|] == outs;
    ok := true;
  }

  /** Both events are of this message. */
  predicate PairOf(h: OutMsg, deposit: Address, send: Confirmation, end: Finish)
  {
    && h.Internal? && send.lt == end.lt == h.lt && send.from == end.from == deposit
    && send.memo == end.memo == h.comment && end.utime == h.utime && end.amount == h.amount && !end.failed
  }

  ghost predicate Paired(hs: seq<OutMsg>, deposit: Address, sends: seq<Confirmation>, ends: seq<Finish>)
  {
    |sends| == |ends| == |hs| && forall i | 0 <= i < |hs| :: PairOf(hs[i], deposit, sends[i], ends[i])
  }

  /** The events of such a transaction are never out of order: the table takes them all if it knows the sweeps
      and has not given them up. */
  lemma DepositEventsInOrder(t: Table, hs: seq<OutMsg>, deposit: Address, sends: seq<Confirmation>, ends: seq<Finish>)
    requires Paired(hs, deposit, sends, ends)
    ensures ApplyBlock(t, sends, ends).Ok? <==> Confirmable(t, sends)
  {
    AcceptedIffConfirmed(t, sends, ends);
    forall i | 0 <= i < |ends| ensures ends[i].memo == sends[i].memo && sends[i] in sends {}
  }
}
