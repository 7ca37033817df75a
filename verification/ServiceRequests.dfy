/** Service withdrawals: returning jettons and TON that ended up on deposit addresses. A request from a TON deposit
    takes two steps, filling the deposit with TON for fees and then sending its jettons; one from a jetton deposit
    takes one (db/db.go, core/withdrawal_processor.go, api/handlers.go). */
module ServiceRequests {
  import opened Prelude
  import opened Messages
  import opened AddressBook
  import Batch
  import BatchTransfers

  type Task = Batch.ServiceTask

  /** A row of service_withdrawal_requests, under its memo. */
  datatype Row = Row(
    from: Address, jettonMaster: Option<Address>, filled: bool, processed: bool,
    tonAmount: int, jettonAmount: int, expiredAt: Option<Time>)

  type Table = map<Memo, Row>

  // ---------------------------------------------------------------- requests

  datatype NewRequest = NewRequest(from: Address, jettonMaster: Option<Address>)

  datatype Refusal = InvalidAddress | UnknownDeposit | WrongWallet | InvalidMaster

  /** convertTonServiceWithdrawal; the address is None when it does not parse. */
  function ConvertTon(book: Book, from: Option<Address>): Result<NewRequest, Refusal>
  {
    if from.None? then Err(InvalidAddress)
    else if from.value !in book then Err(UnknownDeposit)
    else if !book[from.value].kind.JettonOwner? then Err(WrongWallet)
    else Ok(NewRequest(from.value, None))
  }

  /** convertJettonServiceWithdrawal */
  function ConvertJetton(book: Book, owner: Option<Address>, master: Option<Address>): Result<NewRequest, Refusal>
  {
    if owner.None? then Err(InvalidAddress)
    else if owner.value !in book then Err(UnknownDeposit)
    else if !book[owner.value].kind.JettonOwner? && !book[owner.value].kind.TonDeposit? then Err(WrongWallet)
    else if master.None? then Err(InvalidMaster)
    else Ok(NewRequest(owner.value, master))
  }

  /** SaveServiceWithdrawalRequest; the database draws the memo. */
  function SaveRequest(t: Table, r: NewRequest, memo: Memo): Option<Table>
  {
    if memo in t then None else Some(t[memo := Row(r.from, r.jettonMaster, false, false, 0, 0, None)])
  }

  /** UpdateServiceWithdrawalRequest: what is not filled is done. */
  function Update(t: Table, task: Task, tonAmount: int, expiredAt: Time, filled: bool): Table
  {
    if task.memo !in t then t
    else
      t[task.memo := t[task.memo].(
        tonAmount := tonAmount, jettonAmount := task.jettonAmount, processed := !filled,
        expiredAt := Some(expiredAt), filled := filled)]
  }

  // ---------------------------------------------------------------- task queries

  /** The join with ton_wallets. */
  ghost predicate OfWallet(w: Tables, from: Address, subwalletId: nat, kind: WalletType)
  {
    subwalletId in w.ton && w.ton[subwalletId].address == from && w.ton[subwalletId].kind == kind
  }

  predicate Waits(r: Row) { !r.processed && !r.filled }

  /** A row that GetServiceHotWithdrawalTasks may return. */
  ghost predicate HotTask(t: Table, w: Tables, task: Task)
  {
    && task.memo in t && Waits(t[task.memo])
    && (OfWallet(w, task.from, task.subwalletId, JettonOwner) || OfWallet(w, task.from, task.subwalletId, TonDeposit))
    && task.from == t[task.memo].from && task.jettonMaster == t[task.memo].jettonMaster && task.jettonAmount == 0
  }

  /** A row that GetServiceDepositWithdrawalTasks may return. */
  ghost predicate DepositTask(t: Table, w: Tables, task: Task)
  {
    && task.memo in t && !t[task.memo].processed && t[task.memo].filled
    && OfWallet(w, task.from, task.subwalletId, TonDeposit)
    && task.from == t[task.memo].from && task.jettonMaster == t[task.memo].jettonMaster
    && task.jettonAmount == t[task.memo].jettonAmount
  }

  ghost predicate ForHot(t: Table, w: Tables, memo: Memo)
  {
    exists task: Task :: task.memo == memo && HotTask(t, w, task)
  }

  ghost predicate ForDeposit(t: Table, w: Tables, memo: Memo)
  {
    exists task: Task :: task.memo == memo && DepositTask(t, w, task)
  }

  // ---------------------------------------------------------------- steps

  /** The tables, what the batch-building thread and the deposit thread selected and did not update yet, and how
      many updates each request got so far. */
  datatype World = World(
    table: Table, wallets: Service, hot: set<Task>, deposit: set<Task>, updates: map<Memo, nat>)

  datatype Step =
    | RequestTon(from: Option<Address>, memo: Memo)
    | RequestJetton(owner: Option<Address>, master: Option<Address>, memo: Memo)
    | NewWallets(wallets: Service)
    | SelectHot(hotTasks: set<Task>)
    | UpdateHot(hotTask: Task, view: Batch.View, expiredAt: Time)
    | SelectDeposit(depositTasks: set<Task>)
    | UpdateDeposit(depositTask: Task, expiredAt: Time)
    | Crash

  ghost predicate WalletsOk(s: Service)
  {
    && OwnersPresent(s.tables) && UniqueAddresses(s.tables) && Describes(s.book, s.tables)
    && (forall a | a in s.tables.jetton :: s.tables.jetton[a].kind.JettonHot? || s.tables.jetton[a].kind.JettonDeposit?)
  }

  /** Wallets are only ever added. */
  ghost predicate Grown(s: Service, s': Service)
  {
    && WalletsOk(s')
    && (forall i | i in s.tables.ton :: i in s'.tables.ton && s'.tables.ton[i] == s.tables.ton[i])
  }

  ghost predicate Created(w: World, r: Result<NewRequest, Refusal>, memo: Memo, w': World)
  {
    if r.Err? || SaveRequest(w.table, r.value, memo).None? then w' == w
    else w' == w.(table := SaveRequest(w.table, r.value, memo).value, updates := w.updates[memo := 0])
  }

  function Counted(w: World, memo: Memo): map<Memo, nat>
  {
    if memo in w.updates then w.updates[memo := w.updates[memo] + 1] else w.updates
  }

  /** A hot task is updated with what the build says of it: at once when no message is built, else when the
      batch is saved. */
  ghost predicate Next(w: World, step: Step, w': World)
  {
    match step
    case RequestTon(from, memo) => Created(w, ConvertTon(w.wallets.book, from), memo, w')
    case RequestJetton(owner, master, memo) => Created(w, ConvertJetton(w.wallets.book, owner, master), memo, w')
    case NewWallets(s) => Grown(w.wallets, s) && w' == w.(wallets := s)
    case SelectHot(ts) => (forall t | t in ts :: HotTask(w.table, w.wallets.tables, t)) && w' == w.(hot := ts)
    case UpdateHot(t, view, expiredAt) =>
      && t in w.hot && Batch.BuildService(view, w.wallets.book, t).Ok?
      && var u := Batch.BuildService(view, w.wallets.book, t).value.1;
         w' == w.(table := Update(w.table, u.task, u.tonAmount, expiredAt, u.filled), hot := w.hot - {t},
                  updates := Counted(w, t.memo))
    case SelectDeposit(ts) =>
      (forall t | t in ts :: DepositTask(w.table, w.wallets.tables, t)) && w' == w.(deposit := ts)
    case UpdateDeposit(t, expiredAt) =>
      && t in w.deposit
      && w' == w.(table := Update(w.table, t, 0, expiredAt, false), deposit := w.deposit - {t},
          updates := Counted(w, t.memo))
    case Crash => w' == w.(hot := {}, deposit := {})
  }

  ghost predicate Initial(w: World)
  {
    w.table == map[] && WalletsOk(w.wallets) && w.hot == {} && w.deposit == {} && w.updates == map[]
  }

  ghost predicate Run(ws: seq<World>, steps: seq<Step>)
  {
    && |ws| == |steps| + 1 && Initial(ws[0])
    && forall i | 0 <= i < |steps| :: Next(ws[i], steps[i], ws[i + 1])
  }

  // ---------------------------------------------------------------- what is promised

  /** At most two updates, never filled and processed at once, and until it is processed a request is selected
      by exactly one of the two queries; afterwards by none. */
  ghost predicate Served(w: World, memo: Memo)
    requires memo in w.table
  {
    var r, t := w.table[memo], w.wallets.tables;
    && memo in w.updates && w.updates[memo] <= 2
    && !(r.filled && r.processed)
    && (r.processed ==> !ForHot(w.table, t, memo) && !ForDeposit(w.table, t, memo))
    && (!r.processed ==> (ForHot(w.table, t, memo) <==> !ForDeposit(w.table, t, memo)))
  }

  /** The build of a selected task never fails, and the jettons to send from a deposit are those of a master. */
  ghost predicate Buildable(w: World)
  {
    && (forall v, t | t in w.hot :: Batch.BuildService(v, w.wallets.book, t).Ok?)
    && (forall t | t in w.deposit :: t.jettonMaster.Some? && t.jettonAmount != 0)
  }

  // ---------------------------------------------------------------- invariant

  ghost predicate RowOk(w: World, memo: Memo)
    requires memo in w.table
  {
    var r := w.table[memo];
    && memo in w.updates
    && (IsKind(w.wallets.book, r.from, JettonOwner) || IsKind(w.wallets.book, r.from, TonDeposit))
    && (IsKind(w.wallets.book, r.from, TonDeposit) ==> r.jettonMaster.Some?)
    && (r.filled ==> IsKind(w.wallets.book, r.from, TonDeposit) && r.jettonAmount != 0)
    && (if Waits(r) then w.updates[memo] == 0 else 1 <= w.updates[memo] <= 2)
    && (r.filled ==> !r.processed && w.updates[memo] == 1)
  }

  ghost predicate Inv(w: World)
  {
    && WalletsOk(w.wallets)
    && (forall memo | memo in w.table :: RowOk(w, memo))
    && (forall t | t in w.hot :: HotTask(w.table, w.wallets.tables, t))
    && (forall t | t in w.deposit :: DepositTask(w.table, w.wallets.tables, t))
  }

  /** What the address book keeps on every run is enough here. */
  lemma WalletsAreOk(k: Keys, s: Service)
    requires Injective(k) && AddressBook.Inv(k, s)
    ensures WalletsOk(s)
  {
    TablesAreUnique(k, s.tables);
    forall a | a in s.tables.jetton ensures JettonRowOk(k, s.tables, a) {}
  }

  /** The book and the table of wallets say the same about a wallet's type. */
  lemma KindByTable(s: Service, from: Address, kind: WalletType)
    requires WalletsOk(s) && (kind.JettonOwner? || kind.TonDeposit?)
    ensures IsKind(s.book, from, kind) <==> exists id :: OfWallet(s.tables, from, id, kind)
  {
    if IsKind(s.book, from, kind) {
      assert HasTon(s.tables, from);
      var id :| id in s.tables.ton && s.tables.ton[id].address == from;
      assert OfWallet(s.tables, from, id, kind);
    }
  }

  lemma KindStays(s: Service, s': Service, from: Address, kind: WalletType)
    requires WalletsOk(s) && Grown(s, s') && (kind.JettonOwner? || kind.TonDeposit?)
    requires IsKind(s.book, from, kind)
    ensures IsKind(s'.book, from, kind)
  {
    KindByTable(s, from, kind);
    var id :| OfWallet(s.tables, from, id, kind);
    assert OfWallet(s'.tables, from, id, kind);
    KindByTable(s', from, kind);
  }

  lemma GrowKeeps(w: World, s: Service)
    requires Inv(w) && Grown(w.wallets, s)
    ensures Inv(w.(wallets := s))
  {
    var w' := w.(wallets := s);
    forall memo | memo in w'.table ensures RowOk(w', memo) { GrowKeepsRow(w, s, memo); }
  }

  lemma GrowKeepsRow(w: World, s: Service, memo: Memo)
    requires WalletsOk(w.wallets) && Grown(w.wallets, s) && memo in w.table && RowOk(w, memo)
    ensures RowOk(w.(wallets := s), memo)
  {
    var from := w.table[memo].from;
    var kind := if IsKind(w.wallets.book, from, JettonOwner) then JettonOwner else TonDeposit;
    KindStays(w.wallets, s, from, kind);
  }

  /** What the build says of a task: the same request, filled only when it is from a TON deposit with jettons. */
  lemma BuildSays(view: Batch.View, book: Book, t: Task)
    requires Batch.BuildService(view, book, t).Ok?
    ensures var u := Batch.BuildService(view, book, t).value.1;
      u.task.memo == t.memo && (u.filled ==> IsKind(book, t.from, TonDeposit) && u.task.jettonAmount != 0)
  {
  }

  lemma UpdateHotKeeps(w: World, t: Task, told: Task, tonAmount: int, expiredAt: Time, filled: bool, w': World)
    requires Inv(w) && t in w.hot && told.memo == t.memo
    requires filled ==> IsKind(w.wallets.book, t.from, TonDeposit) && told.jettonAmount != 0
    requires w'.wallets == w.wallets && w'.table == Update(w.table, told, tonAmount, expiredAt, filled)
    requires w'.hot == w.hot - {t} && w'.deposit == w.deposit && w'.updates == Counted(w, t.memo)
    ensures Inv(w')
  {
    assert HotTask(w.table, w.wallets.tables, t);
    assert RowOk(w, t.memo);
    assert forall memo | memo in w.table && memo != t.memo :: w'.table[memo] == w.table[memo];
    forall memo | memo in w'.table ensures RowOk(w', memo) { assert RowOk(w, memo); }
    forall o | o in w'.hot ensures HotTask(w'.table, w'.wallets.tables, o) {
      assert HotTask(w.table, w.wallets.tables, o);
      SameTask(w.wallets, t, o);
    }
    forall o | o in w'.deposit ensures DepositTask(w'.table, w'.wallets.tables, o) {
      assert DepositTask(w.table, w.wallets.tables, o);
    }
  }

  lemma UpdateDepositKeeps(w: World, t: Task, expiredAt: Time, w': World)
    requires Inv(w) && Next(w, UpdateDeposit(t, expiredAt), w')
    ensures Inv(w')
  {
    assert DepositTask(w.table, w.wallets.tables, t);
    assert RowOk(w, t.memo);
    forall memo | memo in w'.table ensures RowOk(w', memo) { assert RowOk(w, memo); }
    forall o | o in w'.deposit ensures DepositTask(w'.table, w'.wallets.tables, o) {
      assert DepositTask(w.table, w.wallets.tables, o);
      SameTask(w.wallets, t, o);
    }
  }

  /** The address of a wallet gives its subwallet id. */
  lemma SameTask(s: Service, t: Task, o: Task)
    requires WalletsOk(s) && t.subwalletId in s.tables.ton && o.subwalletId in s.tables.ton
    requires s.tables.ton[t.subwalletId].address == t.from && s.tables.ton[o.subwalletId].address == o.from
    ensures t.from == o.from ==> t.subwalletId == o.subwalletId
  {
  }

  lemma CreatedKeeps(w: World, r: NewRequest, memo: Memo, w': World)
    requires Inv(w) && memo !in w.table && w'.wallets == w.wallets && w'.hot == w.hot && w'.deposit == w.deposit
    requires SaveRequest(w.table, r, memo) == Some(w'.table) && w'.updates == w.updates[memo := 0]
    requires IsKind(w.wallets.book, r.from, JettonOwner)
          || (IsKind(w.wallets.book, r.from, TonDeposit) && r.jettonMaster.Some?)
    ensures Inv(w')
  {
    forall m | m in w'.table ensures RowOk(w', m) {
      if m != memo { assert RowOk(w, m); }
    }
    forall o | o in w'.hot ensures HotTask(w'.table, w'.wallets.tables, o) {
      assert HotTask(w.table, w.wallets.tables, o);
    }
    forall o | o in w'.deposit ensures DepositTask(w'.table, w'.wallets.tables, o) {
      assert DepositTask(w.table, w.wallets.tables, o);
    }
  }

  lemma NextKeeps(w: World, step: Step, w': World)
    requires Inv(w) && Next(w, step, w')
    ensures Inv(w')
  {
    if step.RequestTon? || step.RequestJetton? {
      var r := if step.RequestTon? then ConvertTon(w.wallets.book, step.from)
               else ConvertJetton(w.wallets.book, step.owner, step.master);
      if r.Ok? && step.memo !in w.table { CreatedKeeps(w, r.value, step.memo, w'); }
    } else if step.NewWallets? {
      GrowKeeps(w, step.wallets);
    } else if step.UpdateHot? {
      BuildSays(step.view, w.wallets.book, step.hotTask);
      var u := Batch.BuildService(step.view, w.wallets.book, step.hotTask).value.1;
      UpdateHotKeeps(w, step.hotTask, u.task, u.tonAmount, step.expiredAt, u.filled, w');
    } else if step.UpdateDeposit? {
      UpdateDepositKeeps(w, step.depositTask, step.expiredAt, w');
    } else {
      forall memo | memo in w'.table ensures RowOk(w', memo) { assert RowOk(w, memo); }
    }
  }

  lemma {:induction false} RunKeeps(ws: seq<World>, steps: seq<Step>, n: nat)
    requires Run(ws, steps) && n < |ws|
    ensures Inv(ws[n])
    decreases n
  {
    if n > 0 {
      RunKeeps(ws, steps, n - 1);
      NextKeeps(ws[n - 1], steps[n - 1], ws[n]);
    }
  }

  lemma InvServes(w: World, memo: Memo)
    requires Inv(w) && memo in w.table
    ensures Served(w, memo)
  {
    var r, t := w.table[memo], w.wallets.tables;
    assert RowOk(w, memo);
    if Waits(r) {
      var kind := if IsKind(w.wallets.book, r.from, JettonOwner) then JettonOwner else TonDeposit;
      KindByTable(w.wallets, r.from, kind);
      var id :| OfWallet(t, r.from, id, kind);
      assert HotTask(w.table, t, Batch.ServiceTask(r.from, r.jettonMaster, 0, memo, id));
    } else if r.filled {
      KindByTable(w.wallets, r.from, TonDeposit);
      var id :| OfWallet(t, r.from, id, TonDeposit);
      assert DepositTask(w.table, t, Batch.ServiceTask(r.from, r.jettonMaster, r.jettonAmount, memo, id));
    }
  }

  lemma InvBuilds(w: World)
    requires Inv(w)
    ensures Buildable(w)
  {
    forall t | t in w.hot ensures forall v :: Batch.BuildService(v, w.wallets.book, t).Ok? {
      assert RowOk(w, t.memo);
    }
    forall t | t in w.deposit ensures t.jettonMaster.Some? && t.jettonAmount != 0 {
      assert RowOk(w, t.memo);
    }
  }

  /** On every run every request is served in at most two updates, and neither thread ever lacks a jetton master. */
  lemma EveryRunServes(ws: seq<World>, steps: seq<Step>, n: nat)
    requires Run(ws, steps) && n < |ws|
    ensures forall memo | memo in ws[n].table :: Served(ws[n], memo)
    ensures Buildable(ws[n])
  {
    RunKeeps(ws, steps, n);
    forall memo | memo in ws[n].table ensures Served(ws[n], memo) { InvServes(ws[n], memo); }
    InvBuilds(ws[n]);
  }

  ghost predicate Keeps(r: Row, r': Row)
  {
    (r.processed ==> r' == r) && (r.filled ==> r'.jettonAmount == r.jettonAmount && r'.jettonMaster == r.jettonMaster)
  }

  /** A processed request is never changed again, and a filled one keeps the jettons it was filled for. */
  lemma ProcessedIsForever(w: World, step: Step, w': World, memo: Memo)
    requires Inv(w) && Next(w, step, w') && memo in w.table
    ensures memo in w'.table && Keeps(w.table[memo], w'.table[memo])
  {
    if step.UpdateHot? {
      BuildSays(step.view, w.wallets.book, step.hotTask);
      assert HotTask(w.table, w.wallets.tables, step.hotTask);
    } else if step.UpdateDeposit? {
      assert DepositTask(w.table, w.wallets.tables, step.depositTask);
    } else if step.RequestTon? || step.RequestJetton? {
      assert w'.table == w.table || step.memo !in w.table;
    }
  }

  // ---------------------------------------------------------------- what is accepted, and what is stored of it

  /** TON is returned from owner contracts, jettons from these and from TON deposits, given a jetton master; all other
      addresses are refused, known or not. What is accepted is what was asked for. */
  lemma AcceptedIff(book: Book, from: Option<Address>, master: Option<Address>)
    ensures var r := ConvertTon(book, from);
      && (r.Ok? <==> from.Some? && from.value in book && book[from.value].kind == JettonOwner)
      && (r.Ok? ==> r.value.from == from.value && r.value.jettonMaster == None)
    ensures var r := ConvertJetton(book, from, master);
      && (r.Ok? <==> && from.Some? && from.value in book && master.Some?
                     && book[from.value].kind in {JettonOwner, TonDeposit})
      && (r.Ok? ==> r.value.from == from.value && r.value.jettonMaster == master)
    ensures forall e | ConvertTon(book, from) == Err(e) || ConvertJetton(book, from, master) == Err(e) ::
      && (e == InvalidAddress <==> from.None?)
      && (e == UnknownDeposit <==> from.Some? && from.value !in book)
      && (e == InvalidMaster ==> master.None?)
  {
  }

  /** What a step stores of a request: a new one as it was asked for, with nothing done yet; the result of a build with
      what it found and whether the deposit was only filled; the end of a filled one with what it was filled for. What
      was asked for never changes, and no other row. */
  ghost predicate Stores(w: World, step: Step, w': World, memo: Memo)
    requires memo in w'.table
  {
    var r' := w'.table[memo];
    if memo !in w.table then
      match step
      case RequestTon(from, m) =>
        m == memo && from == Some(r'.from) && r' == Row(r'.from, None, false, false, 0, 0, None)
      case RequestJetton(owner, master, m) =>
        m == memo && owner == Some(r'.from) && master.Some? && r' == Row(r'.from, master, false, false, 0, 0, None)
      case _ => false
    else
      var r := w.table[memo];
      && r'.from == r.from && r'.jettonMaster == r.jettonMaster
      && match step
         case UpdateHot(t, view, at) =>
           if t.memo != memo then r' == r
           else
             var wallet := BatchTransfers.WalletOf(view, w.wallets.book, t);
             var work := BatchTransfers.HasWork(view, w.wallets.book, t);
             && (r'.filled <==> work && IsKind(w.wallets.book, r.from, TonDeposit)) && (r'.processed <==> !r'.filled)
             && r'.tonAmount == (if wallet.None? then view.tonBalance(view.proxy(t.subwalletId)) else 0)
             && r'.jettonAmount == (if wallet.Some? && work then view.jettonBalance(wallet.value) else 0)
             && r'.expiredAt == Some(at)
         case UpdateDeposit(t, at) =>
           if t.memo != memo then r' == r
           else
             && !r'.filled && r'.processed && r'.tonAmount == 0 && r'.jettonAmount == r.jettonAmount
             && r'.expiredAt == Some(at)
         case _ => r' == r
  }

  lemma StepStores(w: World, step: Step, w': World, memo: Memo)
    requires Inv(w) && Next(w, step, w') && memo in w'.table
    ensures Stores(w, step, w', memo)
  {
    match step
    case UpdateHot(t, view, at) =>
      assert HotTask(w.table, w.wallets.tables, t);
      BatchTransfers.ServiceMovesAll(view, w.wallets.book, t);
    case UpdateDeposit(t, at) =>
      assert DepositTask(w.table, w.wallets.tables, t);
    case RequestTon(from, m) => AcceptedIff(w.wallets.book, from, None);
    case RequestJetton(owner, master, m) => AcceptedIff(w.wallets.book, owner, master);
    case _ =>
  }

  /** And every request that is accepted is stored, unless its memo is taken. */
  lemma AcceptedIsStored(w: World, step: Step, w': World)
    requires Inv(w) && Next(w, step, w')
    ensures step.RequestTon? && step.memo !in w.table ==>
      (step.memo in w'.table <==> step.from.Some? && IsKind(w.wallets.book, step.from.value, JettonOwner))
    ensures step.RequestJetton? && step.memo !in w.table ==>
      (step.memo in w'.table <==>
         step.owner.Some? && step.master.Some?
         && (IsKind(w.wallets.book, step.owner.value, JettonOwner)
             || IsKind(w.wallets.book, step.owner.value, TonDeposit)))
  {
  }
}
