/** Wallet tables, the in-memory address book over them, and the creation of deposit addresses
    (db/db.go, blockchain/blockchain.go, api/handlers.go). */
module AddressBook {
  import opened Prelude
  import opened Messages

  datatype TonWallet = TonWallet(userId: string, kind: WalletType, address: Address)

  datatype JettonWallet = JettonWallet(subwalletId: nat, userId: string, currency: string, kind: WalletType)

  /** ton_wallets by its unique subwallet_id, jetton_wallets by its unique address. */
  datatype Tables = Tables(ton: map<nat, TonWallet>, jetton: map<Address, JettonWallet>)

  /** What an account address is the hash of: the hot wallet, a subwallet of the seed, the proxy contract
      with a subwallet id, or the jetton wallet of an owner for a jetton master. */
  datatype Origin = HotOf | SubwalletOf(id: nat) | ProxyOf(id: nat) | JettonWalletOf(owner: Address, master: Address)

  /** How addresses are derived. `origin` only serves to say that hashes do not collide. */
  datatype Keys = Keys(
    address: Origin -> Address, origin: Address -> Origin, masters: map<string, Address>, shard: byte)
  {
    function Hot(): Address { address(HotOf) }
    function TonWalletAt(id: nat): Address { address(SubwalletOf(id)) }
    function Proxy(id: nat): Address { address(ProxyOf(id)) }
    function JettonWalletFor(owner: Address, master: Address): Address { address(JettonWalletOf(owner, master)) }
  }

  datatype Service = Service(tables: Tables, book: Book)

  datatype Command =
    | InitTonHot
    | InitJettonHot(currency: string)
    | NewTonDeposit(userId: string)
    | NewJettonDeposit(userId: string, currency: string)
    | Restart

  datatype Error = NotUnique | NotFound | UnknownJetton | NoOwner

  const DEFAULT_SUBWALLET: nat := 698983191
  const MAX_UINT32: nat := 0xFFFF_FFFF

  // ---------------------------------------------------------------- loading

  predicate OwnersPresent(t: Tables)
  {
    forall a | a in t.jetton :: t.jetton[a].subwalletId in t.ton
  }

  ghost predicate UniqueAddresses(t: Tables)
  {
    && (forall i, j | i in t.ton && j in t.ton && t.ton[i].address == t.ton[j].address :: i == j)
    && (forall i | i in t.ton :: t.ton[i].address !in t.jetton)
  }

  function TonInfo(w: TonWallet): AddressInfo
  {
    AddressInfo(w.kind, None, w.userId)
  }

  function JettonInfo(t: Tables, a: Address): AddressInfo
    requires a in t.jetton && t.jetton[a].subwalletId in t.ton
  {
    AddressInfo(t.jetton[a].kind, Some(t.ton[t.jetton[a].subwalletId].address), t.jetton[a].userId)
  }

  /** Some TON wallet row has this address. */
  ghost predicate HasTon(t: Tables, a: Address)
  {
    exists i :: i in t.ton && t.ton[i].address == a
  }

  /** The book says of every address in the tables what its row says, and nothing of any other. */
  ghost predicate Describes(book: Book, t: Tables)
    requires OwnersPresent(t)
  {
    && (forall a | a in t.jetton :: a in book && book[a] == JettonInfo(t, a))
    && (forall i | i in t.ton :: t.ton[i].address in book && book[t.ton[i].address] == TonInfo(t.ton[i]))
    && (forall a | a in book :: a in t.jetton || HasTon(t, a))
  }

  /** Only one book describes the tables. */
  lemma DescriptionIsUnique(b: Book, b': Book, t: Tables)
    requires OwnersPresent(t) && Describes(b, t) && Describes(b', t)
    ensures b == b'
  {
    forall a | a in b ensures a in b' && b'[a] == b[a] {
      if a !in t.jetton { var i :| i in t.ton && t.ton[i].address == a; }
    }
    forall a | a in b' ensures a in b {
      if a !in t.jetton { var i :| i in t.ton && t.ton[i].address == a; }
    }
  }

  /** LoadAddressBook: the TON wallets, then the jetton wallets with their owners. */
  method LoadAddressBook(t: Tables) returns (r: Result<Book, Error>)
    ensures r.Ok? <==> OwnersPresent(t)
    ensures r.Ok? && UniqueAddresses(t) ==> Describes(r.value, t)
  {
    var book: Book := map[];
    var ids := t.ton.Keys;
    while ids != {}
      invariant ids <= t.ton.Keys
      invariant forall a | a in book :: HasTon(t, a)
      invariant UniqueAddresses(t) ==> forall i | i in t.ton && i !in ids ::
                  t.ton[i].address in book && book[t.ton[i].address] == TonInfo(t.ton[i])
      decreases ids
    {
      var i :| i in ids;
      ids := ids - {i};
      book := book[t.ton[i].address := TonInfo(t.ton[i])];
    }
    ghost var tonBook := book;
    var rest := t.jetton.Keys;
    while rest != {}
      invariant rest <= t.jetton.Keys
      invariant forall a | a in t.jetton && a !in rest ::
                  t.jetton[a].subwalletId in t.ton && a in book && book[a] == JettonInfo(t, a)
      invariant forall a | a !in t.jetton :: (a in book <==> a in tonBook) && (a in book ==> book[a] == tonBook[a])
      decreases rest
    {
      var a :| a in rest;
      if t.jetton[a].subwalletId !in t.ton { return Err(NoOwner); }
      rest := rest - {a};
      book := book[a := JettonInfo(t, a)];
    }
    r := Ok(book);
  }

  // ---------------------------------------------------------------- choosing a subwallet

  /** Is the account of the deposit with this subwallet id in the service's shard? */
  predicate InShard(k: Keys, master: Option<Address>, id: nat)
  {
    (if master.None? then k.TonWalletAt(id) else k.JettonWalletFor(k.Proxy(id), master.value)).first == k.shard
  }

  /** The least id from `start` on in the shard, if there is one below the greatest uint32. */
  predicate IsFirst(k: Keys, master: Option<Address>, start: nat, r: Option<nat>)
  {
    match r
    case Some(id) =>
      start <= id < MAX_UINT32 && InShard(k, master, id) && forall j | start <= j < id :: !InShard(k, master, j)
    case None => forall j | start <= j < MAX_UINT32 :: !InShard(k, master, j)
  }

  function FirstId(k: Keys, master: Option<Address>, start: nat): (r: Option<nat>)
    ensures IsFirst(k, master, start, r)
    decreases MAX_UINT32 - start
  {
    if start >= MAX_UINT32 then None
    else if InShard(k, master, start) then Some(start)
    else FirstId(k, master, start + 1)
  }

  /** GenerateSubWallet and the search in GenerateDepositJettonWalletForProxy. */
  method GenerateSubWallet(k: Keys, master: Option<Address>, start: nat) returns (r: Option<nat>)
    ensures IsFirst(k, master, start, r) && r == FirstId(k, master, start)
  {
    var id := start;
    while id < MAX_UINT32
      invariant start <= id && forall j | start <= j < id :: !InShard(k, master, j)
      decreases MAX_UINT32 - id
    {
      if InShard(k, master, id) {
        FirstIsUnique(k, master, start, Some(id));
        return Some(id);
      }
      id := id + 1;
    }
    FirstIsUnique(k, master, start, None);
    r := None;
  }

  lemma FirstIsUnique(k: Keys, master: Option<Address>, start: nat, r: Option<nat>)
    requires IsFirst(k, master, start, r)
    ensures r == FirstId(k, master, start)
  {
    var f := FirstId(k, master, start);
    if r.Some? && f.Some? {
      assert !(r.value < f.value) && !(f.value < r.value);
    }
  }

  predicate IsGreatest(s: set<nat>, m: nat)
  {
    m in s && forall i | i in s :: i <= m
  }

  /** GetLastSubwalletID */
  function LastId(t: Tables): (m: nat)
    ensures if t.ton == map[] then m == DEFAULT_SUBWALLET else IsGreatest(t.ton.Keys, m)
  {
    if t.ton == map[] then DEFAULT_SUBWALLET
    else
      GreatestExists(t.ton.Keys);
      var m :| IsGreatest(t.ton.Keys, m);
      m
  }

  lemma {:induction false} GreatestExists(s: set<nat>)
    requires s != {}
    ensures exists m :: IsGreatest(s, m)
    decreases s
  {
    var x :| x in s;
    var rest := s - {x};
    assert forall i | i in s :: i == x || i in rest;
    if rest == {} {
      assert IsGreatest(s, x);
    } else {
      GreatestExists(rest);
      var m :| IsGreatest(rest, m);
      assert IsGreatest(s, if m < x then x else m);
    }
  }

  /** subwalletID + 1 on uint32 */
  function NextStart(last: nat): nat { (last + 1) % (MAX_UINT32 + 1) }

  // ---------------------------------------------------------------- the transactions

  function SaveTonWallet(s: Service, id: nat, w: TonWallet): Result<Service, Error>
  {
    if id in s.tables.ton then Err(NotUnique)
    else Ok(Service(s.tables.(ton := s.tables.ton[id := w]), s.book[w.address := TonInfo(w)]))
  }

  /** SaveJettonWallet: `owner` is also saved, unless it is the hot wallet, which is there already. */
  function SaveJettonWallet(s: Service, owner: Address, a: Address, w: JettonWallet, saveOwner: bool)
    : Result<Service, Error>
  {
    if saveOwner && w.subwalletId in s.tables.ton then Err(NotUnique)
    else if a in s.tables.jetton then Err(NotUnique)
    else
      var ownerRow := TonWallet(w.userId, JettonOwner, owner);
      var ton := if saveOwner then s.tables.ton[w.subwalletId := ownerRow] else s.tables.ton;
      var book := if w.kind.JettonDeposit? then s.book[owner := TonInfo(ownerRow)] else s.book;
      Ok(Service(Tables(ton, s.tables.jetton[a := w]), book[a := AddressInfo(w.kind, Some(owner), w.userId)]))
  }

  function HotWallet(k: Keys): TonWallet { TonWallet("", TonHot, k.Hot()) }

  function JettonDepositOf(k: Keys, master: Address, id: nat): Address { k.JettonWalletFor(k.Proxy(id), master) }

  /** One initialisation step or one address request; the handler's mutex makes each of them atomic. Reloading
      at a restart is a separate command. */
  function Create(k: Keys, s: Service, c: Command): Result<Service, Error>
    requires !c.Restart?
  {
    match c
    case InitTonHot => SaveTonWallet(s, DEFAULT_SUBWALLET, HotWallet(k))
    case InitJettonHot(currency) =>
      if currency !in k.masters then Err(UnknownJetton)
      else
        var w := JettonWallet(DEFAULT_SUBWALLET, "", currency, JettonHot);
        SaveJettonWallet(s, k.Hot(), k.JettonWalletFor(k.Hot(), k.masters[currency]), w, false)
    case NewTonDeposit(userId) =>
      (match FirstId(k, None, NextStart(LastId(s.tables)))
       case None => Err(NotFound)
       case Some(id) => SaveTonWallet(s, id, TonWallet(userId, TonDeposit, k.TonWalletAt(id))))
    case NewJettonDeposit(userId, currency) =>
      if currency !in k.masters then Err(UnknownJetton)
      else
        var master := k.masters[currency];
        match FirstId(k, Some(master), NextStart(LastId(s.tables)))
        case None => Err(NotFound)
        case Some(id) =>
          SaveJettonWallet(s, k.Proxy(id), JettonDepositOf(k, master, id),
                           JettonWallet(id, userId, currency, JettonDeposit), true)
  }

  /** The handler with its storage: the tables and the cache beside them. */
  class Handler {
    const keys: Keys
    var tables: Tables
    var book: Book

    constructor (keys: Keys)
      ensures this.keys == keys && State() == EMPTY
    {
      this.keys, tables, book := keys, Tables(map[], map[]), map[];
    }

    function State(): Service
      reads this
    {
      Service(tables, book)
    }

    method Put(a: Address, info: AddressInfo)
      modifies this`book
      ensures book == old(book)[a := info]
    {
      book := book[a := info];
    }

    method SaveTon(id: nat, w: TonWallet) returns (ok: bool)
      modifies this
      ensures ok <==> SaveTonWallet(old(State()), id, w).Ok?
      ensures State() == if ok then SaveTonWallet(old(State()), id, w).value else old(State())
    {
      if id in tables.ton { return false; }
      tables := tables.(ton := tables.ton[id := w]);
      Put(w.address, AddressInfo(w.kind, None, w.userId));
      ok := true;
    }

    method SaveJetton(owner: Address, a: Address, w: JettonWallet, saveOwner: bool) returns (ok: bool)
      modifies this
      ensures ok <==> SaveJettonWallet(old(State()), owner, a, w, saveOwner).Ok?
      ensures State() == if ok then SaveJettonWallet(old(State()), owner, a, w, saveOwner).value else old(State())
    {
      var t := tables;
      if saveOwner {
        if w.subwalletId in t.ton { return false; }
        t := t.(ton := t.ton[w.subwalletId := TonWallet(w.userId, JettonOwner, owner)]);
      }
      if a in t.jetton { return false; }
      t := t.(jetton := t.jetton[a := w]);
      tables := t;
      if w.kind.JettonDeposit? { Put(owner, AddressInfo(JettonOwner, None, w.userId)); }
      Put(a, AddressInfo(w.kind, Some(owner), w.userId));
      ok := true;
    }

    /** generateAddress */
    method GenerateAddress(userId: string, currency: string) returns (ok: bool)
      modifies this
      ensures var c := if currency == TON then NewTonDeposit(userId) else NewJettonDeposit(userId, currency);
        && (ok <==> Create(keys, old(State()), c).Ok?)
        && State() == if ok then Create(keys, old(State()), c).value else old(State())
    {
      var start := NextStart(LastId(tables));
      if currency == TON {
        var id := GenerateSubWallet(keys, None, start);
        if id.None? { return false; }
        ok := SaveTon(id.value, TonWallet(userId, TonDeposit, keys.TonWalletAt(id.value)));
      } else {
        if currency !in keys.masters { return false; }
        var master := keys.masters[currency];
        var id := GenerateSubWallet(keys, Some(master), start);
        if id.None? { return false; }
        ok := SaveJetton(keys.Proxy(id.value), JettonDepositOf(keys, master, id.value),
                         JettonWallet(id.value, userId, currency, JettonDeposit), true);
      }
    }

    /** At a restart the cache is built anew. */
    method Reload() returns (ok: bool)
      modifies this`book
      ensures ok <==> OwnersPresent(tables)
      ensures !ok ==> book == old(book)
      ensures ok && UniqueAddresses(tables) ==> Describes(book, tables)
    {
      var r := LoadAddressBook(tables);
      ok := r.Ok?;
      if ok { book := r.value; }
    }
  }

  const EMPTY := Service(Tables(map[], map[]), map[])

  // ---------------------------------------------------------------- the invariant

  /** Different keys give different addresses, of whatever kind. */
  ghost predicate Injective(k: Keys)
  {
    forall o :: k.origin(k.address(o)) == o
  }

  ghost predicate TonRowOk(k: Keys, i: nat, w: TonWallet)
  {
    if i == DEFAULT_SUBWALLET then w == HotWallet(k)
    else
      && DEFAULT_SUBWALLET < i < MAX_UINT32
      && ((w.kind.TonDeposit? && w.address == k.TonWalletAt(i) && InShard(k, None, i))
          || (w.kind.JettonOwner? && w.address == k.Proxy(i)))
  }

  ghost predicate JettonRowOk(k: Keys, t: Tables, a: Address)
    requires a in t.jetton
  {
    var w := t.jetton[a];
    && w.subwalletId in t.ton && w.currency in k.masters
    && ((w.kind.JettonHot? && w.subwalletId == DEFAULT_SUBWALLET
         && a == k.JettonWalletFor(k.Hot(), k.masters[w.currency]))
        || (w.kind.JettonDeposit? && t.ton[w.subwalletId].kind.JettonOwner?
            && t.ton[w.subwalletId].userId == w.userId
            && a == JettonDepositOf(k, k.masters[w.currency], w.subwalletId)
            && InShard(k, Some(k.masters[w.currency]), w.subwalletId)))
  }

  ghost predicate OneDepositPerOwner(t: Tables)
  {
    forall a, b | a in t.jetton && b in t.jetton && t.jetton[a].kind.JettonDeposit? && t.jetton[b].kind.JettonDeposit?
               && t.jetton[a].subwalletId == t.jetton[b].subwalletId :: a == b
  }

  ghost predicate TablesOk(k: Keys, t: Tables)
  {
    && (t.ton != map[] ==> DEFAULT_SUBWALLET in t.ton)
    && (forall i | i in t.ton :: TonRowOk(k, i, t.ton[i]))
    && (forall a | a in t.jetton :: JettonRowOk(k, t, a))
    && OneDepositPerOwner(t)
  }

  /** Every wallet is where its id says, the hot wallet comes first, no two deposits share an owner, and the
      cache is what a reload would give. */
  ghost predicate Inv(k: Keys, s: Service)
  {
    TablesOk(k, s.tables) && OwnersPresent(s.tables) && Describes(s.book, s.tables)
  }

  lemma TablesAreUnique(k: Keys, t: Tables)
    requires Injective(k) && TablesOk(k, t)
    ensures OwnersPresent(t) && UniqueAddresses(t)
  {
    forall a | a in t.jetton ensures t.jetton[a].subwalletId in t.ton { assert JettonRowOk(k, t, a); }
    forall i, j | i in t.ton && j in t.ton && t.ton[i].address == t.ton[j].address ensures i == j {
      assert TonRowOk(k, i, t.ton[i]) && TonRowOk(k, j, t.ton[j]);
    }
    forall i, a | i in t.ton && a in t.jetton ensures t.ton[i].address != a {
      assert TonRowOk(k, i, t.ton[i]) && JettonRowOk(k, t, a);
    }
  }

  /** A new id is greater than every stored one, and no uint32 overflows on the way to it. */
  lemma NewIdIsFresh(k: Keys, t: Tables, master: Option<Address>)
    requires TablesOk(k, t) && t.ton != map[]
    ensures NextStart(LastId(t)) == LastId(t) + 1 <= MAX_UINT32
    ensures DEFAULT_SUBWALLET <= LastId(t) && forall i | i in t.ton :: i <= LastId(t)
  {
    assert TonRowOk(k, LastId(t), t.ton[LastId(t)]);
  }

  // ---------------------------------------------------------------- a new row, in the tables and in the cache

  lemma TonRowTables(k: Keys, t: Tables, id: nat, w: TonWallet)
    requires Injective(k) && TablesOk(k, t) && id !in t.ton && TonRowOk(k, id, w)
    requires id == DEFAULT_SUBWALLET || t.ton != map[]
    ensures TablesOk(k, t.(ton := t.ton[id := w])) && !HasTon(t, w.address)
  {
    var t' := t.(ton := t.ton[id := w]);
    forall i | i in t'.ton ensures TonRowOk(k, i, t'.ton[i]) && (i in t.ton ==> t.ton[i].address != w.address) {
      if i in t.ton { assert TonRowOk(k, i, t.ton[i]); }
    }
    forall a | a in t'.jetton ensures JettonRowOk(k, t', a) { assert JettonRowOk(k, t, a); }
  }

  lemma JettonRowTables(k: Keys, t: Tables, a: Address, w: JettonWallet)
    requires TablesOk(k, t) && a !in t.jetton && JettonRowOk(k, t.(jetton := t.jetton[a := w]), a)
    requires w.kind.JettonDeposit? ==> forall b | b in t.jetton :: t.jetton[b].subwalletId != w.subwalletId
    ensures TablesOk(k, t.(jetton := t.jetton[a := w]))
  {
    var t' := t.(jetton := t.jetton[a := w]);
    forall b | b in t'.jetton ensures JettonRowOk(k, t', b) { if b != a { assert JettonRowOk(k, t, b); } }
  }

  lemma TonRowBook(book: Book, t: Tables, id: nat, w: TonWallet)
    requires OwnersPresent(t) && Describes(book, t)
    requires id !in t.ton && w.address !in t.jetton && !HasTon(t, w.address)
    ensures var t' := t.(ton := t.ton[id := w]); OwnersPresent(t') && Describes(book[w.address := TonInfo(w)], t')
  {
    var t', book' := t.(ton := t.ton[id := w]), book[w.address := TonInfo(w)];
    forall a | a in t'.jetton ensures a in book' && book'[a] == JettonInfo(t', a) {
      assert JettonInfo(t', a) == JettonInfo(t, a);
    }
    forall i | i in t'.ton ensures t'.ton[i].address in book' && book'[t'.ton[i].address] == TonInfo(t'.ton[i]) {
      if i != id { assert HasTon(t, t.ton[i].address); }
    }
    forall a | a in book' ensures a in t'.jetton || HasTon(t', a) {
      if a == w.address {
        assert t'.ton[id].address == a;
      } else if HasTon(t, a) {
        var i :| i in t.ton && t.ton[i].address == a;
        assert t'.ton[i].address == a;
      }
    }
  }

  /** The jetton row and its entry in the cache. */
  function PutJetton(s: Service, a: Address, w: JettonWallet): Service
    requires w.subwalletId in s.tables.ton
  {
    Service(s.tables.(jetton := s.tables.jetton[a := w]),
            s.book[a := AddressInfo(w.kind, Some(s.tables.ton[w.subwalletId].address), w.userId)])
  }

  lemma JettonRowBook(s: Service, a: Address, w: JettonWallet)
    requires OwnersPresent(s.tables) && Describes(s.book, s.tables)
    requires a !in s.tables.jetton && !HasTon(s.tables, a) && w.subwalletId in s.tables.ton
    ensures var s' := PutJetton(s, a, w); OwnersPresent(s'.tables) && Describes(s'.book, s'.tables)
  {
    var t, s' := s.tables, PutJetton(s, a, w);
    var t' := s'.tables;
    forall b | b in t'.jetton ensures b in s'.book && s'.book[b] == JettonInfo(t', b) {
      if b != a { assert JettonInfo(t', b) == JettonInfo(t, b); }
    }
    forall i | i in t'.ton ensures t'.ton[i].address in s'.book && s'.book[t'.ton[i].address] == TonInfo(t'.ton[i]) {
      assert HasTon(t, t.ton[i].address);
    }
    forall b | b in s'.book ensures b in t'.jetton || HasTon(t', b) {
      if b != a && HasTon(t, b) {
        var i :| i in t.ton && t.ton[i].address == b;
        assert t'.ton[i].address == b;
      }
    }
  }

  lemma SaveTonKeeps(k: Keys, s: Service, id: nat, w: TonWallet)
    requires Injective(k) && Inv(k, s) && id !in s.tables.ton && TonRowOk(k, id, w)
    requires id == DEFAULT_SUBWALLET || s.tables.ton != map[]
    ensures Inv(k, SaveTonWallet(s, id, w).value)
  {
    var t' := s.tables.(ton := s.tables.ton[id := w]);
    TonRowTables(k, s.tables, id, w);
    TablesAreUnique(k, t');
    assert t'.ton[id].address !in t'.jetton;
    TonRowBook(s.book, s.tables, id, w);
  }

  lemma PutJettonKeeps(k: Keys, s: Service, a: Address, w: JettonWallet)
    requires Injective(k) && Inv(k, s) && a !in s.tables.jetton
    requires w.subwalletId in s.tables.ton && JettonRowOk(k, PutJetton(s, a, w).tables, a)
    requires w.kind.JettonDeposit? ==> forall b | b in s.tables.jetton ::
        s.tables.jetton[b].subwalletId != w.subwalletId
    ensures Inv(k, PutJetton(s, a, w))
  {
    var t' := PutJetton(s, a, w).tables;
    JettonRowTables(k, s.tables, a, w);
    TablesAreUnique(k, t');
    assert forall i | i in s.tables.ton :: t'.ton[i].address !in t'.jetton;
    JettonRowBook(s, a, w);
  }

  lemma NewJettonKeeps(k: Keys, s: Service, userId: string, master: Address, currency: string, id: nat)
    requires Injective(k) && Inv(k, s) && currency in k.masters && k.masters[currency] == master
    requires s.tables.ton != map[]
    requires DEFAULT_SUBWALLET < id < MAX_UINT32 && InShard(k, Some(master), id) && id !in s.tables.ton
    ensures var w := JettonWallet(id, userId, currency, JettonDeposit);
      var r := SaveJettonWallet(s, k.Proxy(id), JettonDepositOf(k, master, id), w, true);
      r.Ok? && Inv(k, r.value) && r.value.tables.ton.Keys == s.tables.ton.Keys + {id}
  {
    var owner, a := TonWallet(userId, JettonOwner, k.Proxy(id)), JettonDepositOf(k, master, id);
    var w := JettonWallet(id, userId, currency, JettonDeposit);
    var s1 := SaveTonWallet(s, id, owner).value;
    assert Inv(k, s1) by { SaveTonKeeps(k, s, id, owner); }
    NoSuchDeposit(k, s.tables, master, id);
    PutJettonKeeps(k, s1, a, w);
  }

  lemma NoSuchDeposit(k: Keys, t: Tables, master: Address, id: nat)
    requires Injective(k) && TablesOk(k, t) && DEFAULT_SUBWALLET < id && id !in t.ton
    ensures JettonDepositOf(k, master, id) !in t.jetton
    ensures forall b | b in t.jetton :: t.jetton[b].subwalletId != id
  {
    forall b | b in t.jetton ensures b != JettonDepositOf(k, master, id) && t.jetton[b].subwalletId != id {
      assert JettonRowOk(k, t, b);
    }
  }

  lemma InitJettonKeeps(k: Keys, s: Service, currency: string)
    requires Injective(k) && Inv(k, s) && currency in k.masters && s.tables.ton != map[]
    requires Create(k, s, InitJettonHot(currency)).Ok?
    ensures Inv(k, Create(k, s, InitJettonHot(currency)).value)
  {
    var a := k.JettonWalletFor(k.Hot(), k.masters[currency]);
    var w := JettonWallet(DEFAULT_SUBWALLET, "", currency, JettonHot);
    assert TonRowOk(k, DEFAULT_SUBWALLET, s.tables.ton[DEFAULT_SUBWALLET]);
    PutJettonKeeps(k, s, a, w);
    assert Create(k, s, InitJettonHot(currency)).value == PutJetton(s, a, w);
  }

  // ---------------------------------------------------------------- every sequence of commands

  /** Commands as the service issues them: the hot TON wallet is saved before anything else. A failed command
      changes nothing. */
  ghost predicate Next(k: Keys, s: Service, c: Command, s': Service)
  {
    if c.Restart? then OwnersPresent(s.tables) && s'.tables == s.tables && Describes(s'.book, s.tables)
    else
      && (!c.InitTonHot? ==> s.tables.ton != map[])
      && s' == if Create(k, s, c).Ok? then Create(k, s, c).value else s
  }

  lemma NextKeeps(k: Keys, s: Service, c: Command, s': Service)
    requires Injective(k) && Inv(k, s) && Next(k, s, c, s')
    ensures Inv(k, s')
    ensures c.Restart? ==> s' == s
  {
    match c
    case InitTonHot =>
      if Create(k, s, c).Ok? { SaveTonKeeps(k, s, DEFAULT_SUBWALLET, HotWallet(k)); }
    case InitJettonHot(currency) =>
      if Create(k, s, c).Ok? { InitJettonKeeps(k, s, currency); }
    case NewTonDeposit(userId) =>
      NewIdIsFresh(k, s.tables, None);
      var r := FirstId(k, None, NextStart(LastId(s.tables)));
      if r.Some? { SaveTonKeeps(k, s, r.value, TonWallet(userId, TonDeposit, k.TonWalletAt(r.value))); }
    case NewJettonDeposit(userId, currency) =>
      if currency in k.masters {
        NewIdIsFresh(k, s.tables, Some(k.masters[currency]));
        var r := FirstId(k, Some(k.masters[currency]), NextStart(LastId(s.tables)));
        if r.Some? { NewJettonKeeps(k, s, userId, k.masters[currency], currency, r.value); }
      }
    case Restart => DescriptionIsUnique(s.book, s'.book, s.tables);
  }

  ghost predicate Run(k: Keys, states: seq<Service>, commands: seq<Command>)
  {
    && |states| == |commands| + 1 && states[0] == EMPTY
    && forall i | 0 <= i < |commands| :: Next(k, states[i], commands[i], states[i + 1])
  }

  lemma {:induction false} RunKeeps(k: Keys, states: seq<Service>, commands: seq<Command>, n: nat)
    requires Injective(k) && Run(k, states, commands) && n < |states|
    ensures Inv(k, states[n])
    decreases n
  {
    if n > 0 {
      RunKeeps(k, states, commands, n - 1);
      NextKeeps(k, states[n - 1], commands[n - 1], states[n]);
    }
  }

  /** After any commands, the cache equals what a reload of the tables gives, owners included. */
  lemma BookIsReload(k: Keys, states: seq<Service>, commands: seq<Command>, n: nat)
    requires Injective(k) && Run(k, states, commands) && n < |states|
    ensures OwnersPresent(states[n].tables) && UniqueAddresses(states[n].tables)
    ensures forall b :: Describes(b, states[n].tables) <==> b == states[n].book
  {
    var s := states[n];
    RunKeeps(k, states, commands, n);
    TablesAreUnique(k, s.tables);
    forall b | Describes(b, s.tables) ensures b == s.book { DescriptionIsUnique(b, s.book, s.tables); }
  }

  /** The id could be given to a new deposit: in the shard, above all stored ids, and a uint32 below the greatest. */
  ghost predicate IsFree(k: Keys, t: Tables, master: Option<Address>, j: nat)
  {
    && j < MAX_UINT32 && (forall i | i in t.ton :: i < j)
    && (match master
        case None => k.address(SubwalletOf(j)).first == k.shard
        case Some(m) => k.address(JettonWalletOf(k.address(ProxyOf(j)), m)).first == k.shard)
  }

  lemma FirstIsLeastFree(k: Keys, t: Tables, master: Option<Address>)
    requires TablesOk(k, t) && t.ton != map[]
    ensures var r := FirstId(k, master, NextStart(LastId(t)));
      && (r.Some? <==> exists j :: IsFree(k, t, master, j))
      && (r.Some? ==> IsFree(k, t, master, r.value) && DEFAULT_SUBWALLET < r.value
                      && forall j | IsFree(k, t, master, j) :: r.value <= j)
  {
    NewIdIsFresh(k, t, master);
    var start := NextStart(LastId(t));
    var r := FirstId(k, master, start);
    assert IsFirst(k, master, start, r);
    forall j: nat | IsFree(k, t, master, j) ensures start <= j < MAX_UINT32 && InShard(k, master, j) {}
    if r.Some? { assert IsFree(k, t, master, r.value); }
  }

  function Request(userId: string, currency: string): Command
  {
    if currency == TON then NewTonDeposit(userId) else NewJettonDeposit(userId, currency)
  }

  function MasterOf(k: Keys, currency: string): Option<Address>
    requires currency == TON || currency in k.masters
  {
    if currency == TON then None else Some(k.masters[currency])
  }

  /** The new TON wallet of the user, with what the book says of it; all others stay as they are. */
  predicate TonDeposited(s: Service, userId: string, id: nat, a: Address, s': Service)
  {
    && s'.tables.ton == s.tables.ton[id := TonWallet(userId, TonDeposit, a)] && s'.tables.jetton == s.tables.jetton
    && s'.book == s.book[a := AddressInfo(TonDeposit, None, userId)]
  }

  /** The new owner contract of the user and its jetton wallet. */
  predicate JettonDeposited(
    s: Service, userId: string, currency: string, id: nat, owner: Address, a: Address, s': Service)
  {
    && s'.tables.ton == s.tables.ton[id := TonWallet(userId, JettonOwner, owner)]
    && s'.tables.jetton == s.tables.jetton[a := JettonWallet(id, userId, currency, JettonDeposit)]
    && s'.book == s.book[owner := AddressInfo(JettonOwner, None, userId)]
                        [a := AddressInfo(JettonDeposit, Some(owner), userId)]
  }

  ghost predicate Deposited(k: Keys, s: Service, userId: string, currency: string, id: nat, s': Service)
    requires currency == TON || currency in k.masters
  {
    var owner := k.address(ProxyOf(id));
    && id !in s.tables.ton
    && if currency == TON then TonDeposited(s, userId, id, k.address(SubwalletOf(id)), s')
       else JettonDeposited(s, userId, currency, id, owner,
                            k.address(JettonWalletOf(owner, k.masters[currency])), s')
  }

  /** No address in the book comes with this id. */
  lemma NotOfNewId(k: Keys, s: Service, id: nat, a: Address)
    requires Injective(k) && Inv(k, s) && id !in s.tables.ton && DEFAULT_SUBWALLET < id && a in s.book
    ensures k.origin(a) != SubwalletOf(id) && k.origin(a) != ProxyOf(id)
    ensures k.origin(a).JettonWalletOf? ==> k.origin(a).owner != k.address(ProxyOf(id))
  {
    assert k.origin(k.address(ProxyOf(id))) == ProxyOf(id);
    if a in s.tables.jetton {
      assert JettonRowOk(k, s.tables, a);
    } else {
      var i :| i in s.tables.ton && s.tables.ton[i].address == a;
      assert TonRowOk(k, i, s.tables.ton[i]);
    }
  }

  /** The addresses that come with a new id were never seen before. */
  lemma NewAddressesAreNew(k: Keys, s: Service, id: nat, master: Address)
    requires Injective(k) && Inv(k, s) && id !in s.tables.ton && DEFAULT_SUBWALLET < id
    ensures k.address(SubwalletOf(id)) !in s.book && k.address(ProxyOf(id)) !in s.book
    ensures k.address(JettonWalletOf(k.address(ProxyOf(id)), master)) !in s.book
  {
    var owner := k.address(ProxyOf(id));
    assert k.origin(k.address(JettonWalletOf(owner, master))) == JettonWalletOf(owner, master);
    forall a | a in s.book ensures a != k.address(SubwalletOf(id)) && a != owner
      && a != k.address(JettonWalletOf(owner, master))
    {
      NotOfNewId(k, s, id, a);
    }
  }

  /** An address request on any reachable state succeeds if and only if the shard still has a free id; it then
      takes the least one, for new wallets of this user in this currency. */
  lemma DepositGetsLeastId(k: Keys, states: seq<Service>, commands: seq<Command>, n: nat, userId: string,
                           currency: string)
    requires Injective(k) && Run(k, states, commands) && n < |states| && states[n].tables.ton != map[]
    requires currency == TON || currency in k.masters
    ensures var s, r, master := states[n], Create(k, states[n], Request(userId, currency)), MasterOf(k, currency);
      && (r.Ok? <==> exists j :: IsFree(k, s.tables, master, j))
      && (r.Ok? ==>
            exists j :: IsLeastFree(k, s.tables, master, j) && Deposited(k, s, userId, currency, j, r.value))
  {
    RunKeeps(k, states, commands, n);
    RequestTakesLeast(k, states[n], userId, currency);
  }

  ghost predicate IsLeastFree(k: Keys, t: Tables, master: Option<Address>, j: nat)
  {
    IsFree(k, t, master, j) && forall i | IsFree(k, t, master, i) :: j <= i
  }

  lemma RequestTakesLeast(k: Keys, s: Service, userId: string, currency: string)
    requires Injective(k) && Inv(k, s) && s.tables.ton != map[] && (currency == TON || currency in k.masters)
    ensures var r, master := Create(k, s, Request(userId, currency)), MasterOf(k, currency);
      && (r.Ok? <==> exists j :: IsFree(k, s.tables, master, j))
      && (r.Ok? ==>
            exists j :: IsLeastFree(k, s.tables, master, j) && Deposited(k, s, userId, currency, j, r.value))
  {
    var master := MasterOf(k, currency);
    FirstIsLeastFree(k, s.tables, master);
    RequestTakesFirst(k, s, userId, currency);
    var r := FirstId(k, master, NextStart(LastId(s.tables)));
    if r.Some? { assert IsLeastFree(k, s.tables, master, r.value); }
  }

  lemma RequestTakesFirst(k: Keys, s: Service, userId: string, currency: string)
    requires Injective(k) && Inv(k, s) && s.tables.ton != map[] && (currency == TON || currency in k.masters)
    ensures var r := Create(k, s, Request(userId, currency));
      var id := FirstId(k, MasterOf(k, currency), NextStart(LastId(s.tables)));
      && (r.Ok? <==> id.Some?)
      && (r.Ok? ==> Deposited(k, s, userId, currency, id.value, r.value))
  {
    var master := MasterOf(k, currency);
    var id := FirstId(k, master, NextStart(LastId(s.tables)));
    if id.Some? {
      FirstIsLeastFree(k, s.tables, master);
      if currency == TON {
        var w := TonWallet(userId, TonDeposit, k.TonWalletAt(id.value));
        assert Create(k, s, Request(userId, currency)) == SaveTonWallet(s, id.value, w);
      } else {
        NewJettonTakes(k, s, userId, k.masters[currency], currency, id.value);
      }
    }
  }

  lemma NewJettonTakes(k: Keys, s: Service, userId: string, master: Address, currency: string, id: nat)
    requires Injective(k) && TablesOk(k, s.tables) && currency in k.masters && k.masters[currency] == master
    requires currency != TON && IsFree(k, s.tables, Some(master), id) && DEFAULT_SUBWALLET < id
    ensures var w := JettonWallet(id, userId, currency, JettonDeposit);
      var r := SaveJettonWallet(s, k.Proxy(id), JettonDepositOf(k, master, id), w, true);
      r.Ok? && Deposited(k, s, userId, currency, id, r.value)
  {
    NoSuchDeposit(k, s.tables, master, id);
    SaveJettonDeposits(s, userId, currency, id, k.Proxy(id), JettonDepositOf(k, master, id));
  }

  lemma SaveJettonDeposits(s: Service, userId: string, currency: string, id: nat, owner: Address, a: Address)
    requires id !in s.tables.ton && a !in s.tables.jetton
    ensures var r := SaveJettonWallet(s, owner, a, JettonWallet(id, userId, currency, JettonDeposit), true);
      r.Ok? && JettonDeposited(s, userId, currency, id, owner, a, r.value)
  {
  }

  /** Why an address request is refused on a reachable state. */
  lemma RefusedBecause(k: Keys, states: seq<Service>, commands: seq<Command>, n: nat, userId: string, currency: string)
    requires Injective(k) && Run(k, states, commands) && n < |states| && states[n].tables.ton != map[]
    ensures var s, r := states[n], Create(k, states[n], Request(userId, currency));
      && (r == Err(UnknownJetton) <==> currency != TON && currency !in k.masters)
      && (r == Err(NotFound) <==>
            && (currency == TON || currency in k.masters)
            && forall j :: !IsFree(k, s.tables, MasterOf(k, currency), j))
      && (r.Err? ==> r == Err(UnknownJetton) || r == Err(NotFound))
  {
    if currency == TON || currency in k.masters {
      DepositGetsLeastId(k, states, commands, n, userId, currency);
      RunKeeps(k, states, commands, n);
      FirstIsLeastFree(k, states[n].tables, MasterOf(k, currency));
    }
  }
}
