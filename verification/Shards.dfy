/** Shard prefixes and the blocks they select (blockchain/shard_tracker.go). A shard is a string of up to 8
    address bits; on the wire it is those bits, then a one, then zeros, as a 64-bit word. */
module Shards {
  import opened Prelude

  function Pow2(n: nat): (p: nat)
    ensures p >= 1
  {
    if n == 0 then 1 else 2 * Pow2(n - 1)
  }

  /** Exclusive or of the bits of two words. */
  function Xor(a: nat, b: nat): nat
    decreases a + b
  {
    if a == 0 && b == 0 then 0 else 2 * Xor(a / 2, b / 2) + (a + b) % 2
  }

  function TrailingZeros(x: nat): nat
    requires x > 0
  {
    if x % 2 == 1 then 0 else 1 + TrailingZeros(x / 2)
  }

  function BitLength(x: nat): nat
  {
    if x == 0 then 0 else 1 + BitLength(x / 2)
  }

  function LeadingZeros64(x: nat): int { 64 - BitLength(x) }

  datatype PrefixError = InvalidPrefix | TooManyShards

  /** The number of address bits of a shard; the last one-bit only marks the end. */
  function PrefixLen(p: nat): int
    requires p > 0
  {
    64 - 1 - TrailingZeros(p)
  }

  /** isInShard: do the accounts whose first byte is `shard` belong to the shard with this prefix word? */
  function IsInShard(p: nat, shard: byte): Result<bool, PrefixError>
  {
    if p == 0 then Err(InvalidPrefix)
    else if PrefixLen(p) > 8 then Err(TooManyShards)
    else Ok(LeadingZeros64(Xor(shard as nat * Pow2(64 - 8), p)) >= PrefixLen(p))
  }

  // ---------------------------------------------------------------- bit arithmetic

  lemma {:induction false} Pow2Add(m: nat, n: nat)
    ensures Pow2(m + n) == Pow2(m) * Pow2(n)
  {
    if m > 0 {
      Pow2Add(m - 1, n);
      assert Pow2(m + n) == 2 * (Pow2(m - 1) * Pow2(n)) == Pow2(m) * Pow2(n);
    }
  }

  /** Whole quotient; stated by its bounds, which is what the proofs below use. */
  function Quot(a: nat, d: nat): (q: nat)
    requires d > 0
    ensures q * d <= a < q * d + d
  {
    a / d
  }

  lemma QuotUnique(a: nat, d: nat, q: nat, r: nat)
    requires d > 0 && a == q * d + r && r < d
    ensures Quot(a, d) == q
  {
    var p := Quot(a, d);
    assert (p - q) * d < d && (q - p) * d < d;
    NoMultipleBetween(p - q, d);
    NoMultipleBetween(q - p, d);
  }

  lemma NoMultipleBetween(k: int, d: nat)
    requires d > 0 && k * d < d
    ensures k <= 0
  {
    assert k * d == d + (k - 1) * d;
    assert k >= 1 ==> (k - 1) * d >= 0;
  }

  lemma HalfQuot(a: nat, m: nat)
    ensures Quot(a / 2, Pow2(m)) == Quot(a, Pow2(m + 1))
  {
    var d := Pow2(m);
    var q := Quot(a, 2 * d);
    var r := a - q * (2 * d);
    assert q * (2 * d) == 2 * (q * d);
    QuotUnique(a / 2, d, q, r / 2);
  }

  lemma {:induction false} BitLengthMeans(x: nat, m: nat)
    ensures BitLength(x) <= m <==> x < Pow2(m)
    decreases m
  {
    if x > 0 && m > 0 {
      BitLengthMeans(x / 2, m - 1);
    }
  }

  /** The exclusive or has no bit at or above position m exactly when the words agree there. */
  lemma {:induction false} XorBelow(a: nat, b: nat, m: nat)
    ensures Xor(a, b) < Pow2(m) <==> Quot(a, Pow2(m)) == Quot(b, Pow2(m))
    decreases m, a + b
  {
    if m == 0 {
      XorZero(a, b);
      QuotUnique(a, 1, a, 0);
      QuotUnique(b, 1, b, 0);
    } else if a > 0 || b > 0 {
      XorBelow(a / 2, b / 2, m - 1);
      HalfQuot(a, m - 1);
      HalfQuot(b, m - 1);
    }
  }

  lemma {:induction false} XorZero(a: nat, b: nat)
    ensures Xor(a, b) == 0 <==> a == b
    decreases a + b
  {
    if a > 0 || b > 0 { XorZero(a / 2, b / 2); }
  }

  /** The word of a shard: `len` bits with value `bits`, a one, zeros. */
  function Word(len: nat, bits: nat): nat
    requires len <= 63
  {
    (2 * bits + 1) * Pow2(63 - len)
  }

  lemma {:induction false} TrailingZerosOf(odd: nat, n: nat)
    requires odd % 2 == 1
    ensures odd * Pow2(n) > 0 && TrailingZeros(odd * Pow2(n)) == n
  {
    if n > 0 {
      TrailingZerosOf(odd, n - 1);
      assert odd * Pow2(n) == 2 * (odd * Pow2(n - 1));
    }
  }

  lemma WordLen(len: nat, bits: nat)
    requires len <= 63
    ensures Word(len, bits) > 0 && PrefixLen(Word(len, bits)) == len
  {
    TrailingZerosOf(2 * bits + 1, 63 - len);
  }

  lemma WordBits(len: nat, bits: nat)
    requires len <= 63
    ensures Quot(Word(len, bits), Pow2(64 - len)) == bits
  {
    var h := Pow2(63 - len);
    assert Pow2(64 - len) == 2 * h;
    assert Word(len, bits) == bits * (2 * h) + h by { assert (2 * bits + 1) * h == bits * (2 * h) + h; }
    QuotUnique(Word(len, bits), 2 * h, bits, h);
  }

  /** The first `len` bits of the byte. */
  function FirstBits(shard: byte, len: nat): nat
    requires len <= 8
  {
    Quot(shard as nat, Pow2(8 - len))
  }

  lemma QuotScale(s: nat, d: nat, h: nat)
    requires d > 0 && h > 0
    ensures d * h > 0 && Quot(s * h, d * h) == Quot(s, d)
  {
    var q := Quot(s, d);
    var r := s - q * d;
    assert d * h > 0;
    assert s * h == q * (d * h) + r * h by { assert s == q * d + r; assert (q * d) * h == q * (d * h); }
    assert r * h < d * h by { assert (d - r) * h > 0; assert d * h == r * h + (d - r) * h; }
    assert r * h >= 0;
    QuotUnique(s * h, d * h, q, r * h);
  }

  lemma ByteBits(shard: byte, len: nat)
    requires len <= 8
    ensures Quot(shard as nat * Pow2(56), Pow2(64 - len)) == FirstBits(shard, len)
  {
    Pow2Add(8 - len, 56);
    QuotScale(shard as nat, Pow2(8 - len), Pow2(56));
  }

  /** The bit expression is the prefix test it is meant to be. */
  lemma IsInShardMeans(len: nat, bits: nat, shard: byte)
    requires len <= 8
    ensures IsInShard(Word(len, bits), shard) == Ok(FirstBits(shard, len) == bits)
  {
    var p := Word(len, bits);
    var x := Xor(shard as nat * Pow2(56), p);
    WordLen(len, bits);
    BitLengthMeans(x, 64 - len);
    XorBelow(shard as nat * Pow2(56), p, 64 - len);
    WordBits(len, bits);
    ByteBits(shard, len);
  }

  /** Deeper shards are refused. */
  lemma DeepIsRefused(len: nat, bits: nat, shard: byte)
    requires 8 < len <= 63
    ensures IsInShard(Word(len, bits), shard) == Err(TooManyShards)
  {
    WordLen(len, bits);
  }

  // ---------------------------------------------------------------- splits and merges

  lemma NextBit(shard: byte, len: nat)
    requires len < 8
    ensures FirstBits(shard, len + 1) / 2 == FirstBits(shard, len)
  {
    HalveDivisor(shard as nat, Pow2(7 - len));
  }

  lemma HalveDivisor(s: nat, d: nat)
    requires d > 0
    ensures Quot(s, d) / 2 == Quot(s, 2 * d)
  {
    var p := Quot(s, d);
    var q := p / 2;
    var r := s - p * d;
    if p == 2 * q {
      assert p * d == q * (2 * d);
      QuotUnique(s, 2 * d, q, r);
    } else {
      assert p == 2 * q + 1 && p * d == q * (2 * d) + d by { assert (2 * q + 1) * d == q * (2 * d) + d; }
      QuotUnique(s, 2 * d, q, r + d);
    }
  }

  /** When a shard splits, its accounts go to exactly one of the two children; when two shards merge, the
      accounts of either go to the parent, and only those. */
  lemma SplitAndMerge(len: nat, bits: nat, shard: byte)
    requires len < 8
    ensures var parent, left, right := IsInShard(Word(len, bits), shard),
                                       IsInShard(Word(len + 1, 2 * bits), shard),
                                       IsInShard(Word(len + 1, 2 * bits + 1), shard);
      && parent.Ok? && left.Ok? && right.Ok?
      && (parent.value <==> left.value || right.value)
      && !(left.value && right.value)
      && (parent.value && FirstBits(shard, len + 1) % 2 == 0 ==> left.value)
  {
    IsInShardMeans(len, bits, shard);
    IsInShardMeans(len + 1, 2 * bits, shard);
    IsInShardMeans(len + 1, 2 * bits + 1, shard);
    NextBit(shard, len);
  }

  /** How the shards of a workchain divide it. */
  datatype ShardTree = Leaf | Split(left: ShardTree, right: ShardTree)

  function Depth(t: ShardTree): nat
  {
    match t
    case Leaf => 0
    case Split(l, r) => 1 + if Depth(l) < Depth(r) then Depth(r) else Depth(l)
  }

  /** The prefix words of the shards below a node, left to right. */
  function Words(t: ShardTree, len: nat, bits: nat): seq<nat>
    requires len + Depth(t) <= 8
  {
    match t
    case Leaf => [Word(len, bits)]
    case Split(l, r) => Words(l, len + 1, 2 * bits) + Words(r, len + 1, 2 * bits + 1)
  }

  ghost predicate Selects(p: nat, shard: byte) { IsInShard(p, shard) == Ok(true) }

  /** Exactly one of the words selects the byte if `some`, none of them otherwise. */
  ghost predicate SelectsOne(ws: seq<nat>, shard: byte, some: bool)
  {
    && (forall i | 0 <= i < |ws| :: IsInShard(ws[i], shard).Ok?)
    && (forall i, j | 0 <= i < |ws| && 0 <= j < |ws| && Selects(ws[i], shard) && Selects(ws[j], shard) :: i == j)
    && (some <==> exists i :: 0 <= i < |ws| && Selects(ws[i], shard))
  }

  lemma SelectsOneOfTwo(ls: seq<nat>, rs: seq<nat>, shard: byte, left: bool, right: bool)
    requires SelectsOne(ls, shard, left) && SelectsOne(rs, shard, right) && !(left && right)
    ensures SelectsOne(ls + rs, shard, left || right)
  {
    var ws := ls + rs;
    forall i | 0 <= i < |ws| && Selects(ws[i], shard) ensures if i < |ls| then left else right {
      if i < |ls| { assert Selects(ls[i], shard); } else { assert Selects(rs[i - |ls|], shard); }
    }
    if left {
      var i :| 0 <= i < |ls| && Selects(ls[i], shard);
      assert Selects(ws[i], shard);
    }
    if right {
      var i :| 0 <= i < |rs| && Selects(rs[i], shard);
      assert Selects(ws[|ls| + i], shard);
    }
  }

  lemma {:induction false} SubtreeSelects(t: ShardTree, len: nat, bits: nat, shard: byte)
    requires len + Depth(t) <= 8
    ensures SelectsOne(Words(t, len, bits), shard, FirstBits(shard, len) == bits)
    decreases t
  {
    match t
    case Leaf =>
      IsInShardMeans(len, bits, shard);
      assert Selects(Words(t, len, bits)[0], shard) <==> FirstBits(shard, len) == bits;
    case Split(l, r) =>
      SubtreeSelects(l, len + 1, 2 * bits, shard);
      SubtreeSelects(r, len + 1, 2 * bits + 1, shard);
      NextBit(shard, len);
      SelectsOneOfTwo(Words(l, len + 1, 2 * bits), Words(r, len + 1, 2 * bits + 1), shard,
                      FirstBits(shard, len + 1) == 2 * bits, FirstBits(shard, len + 1) == 2 * bits + 1);
  }

  /** In every shard tree of depth at most 8, every byte belongs to exactly one shard. */
  lemma ExactlyOneShard(t: ShardTree, shard: byte)
    requires Depth(t) <= 8
    ensures SelectsOne(Words(t, 0, 0), shard, true)
  {
    Pow2Add(4, 4);
    assert Pow2(4) == 16;
    QuotUnique(shard as nat, Pow2(8), 0, shard as nat);
    SubtreeSelects(t, 0, 0, shard);
  }

  // ---------------------------------------------------------------- filterByShard

  datatype BlockId = BlockId(shard: nat, seqno: nat, hash: Hash)

  /** The first block in the list whose shard holds the byte. An invalid prefix on the way, or no such block,
      stops the service: None. */
  function FilterByShard(headers: seq<BlockId>, shard: byte): Option<BlockId>
  {
    if headers == [] then None
    else
      match IsInShard(headers[0].shard, shard)
      case Err(_) => None
      case Ok(true) => Some(headers[0])
      case Ok(false) => FilterByShard(headers[1..], shard)
  }

  lemma {:induction false} FilterFindsFirst(headers: seq<BlockId>, shard: byte, i: nat)
    requires i < |headers| && Selects(headers[i].shard, shard)
    requires forall j | 0 <= j < |headers| :: IsInShard(headers[j].shard, shard).Ok?
    requires forall j | 0 <= j < |headers| && Selects(headers[j].shard, shard) :: j == i
    ensures FilterByShard(headers, shard) == Some(headers[i])
  {
    if i > 0 {
      assert !Selects(headers[0].shard, shard);
      FilterFindsFirst(headers[1..], shard, i - 1);
    }
  }

  /** The shard blocks of a masterchain block: one block per leaf, in any order. Block `i` is of leaf
      `leaf[i]`, and the block of leaf `k` is at `at[k]`. */
  ghost predicate ListsShards(headers: seq<BlockId>, ws: seq<nat>, leaf: seq<nat>, at: seq<nat>)
  {
    && |headers| == |leaf| == |at| == |ws|
    && (forall i | 0 <= i < |headers| :: leaf[i] < |ws| && headers[i].shard == ws[leaf[i]] && at[leaf[i]] == i)
    && (forall k | 0 <= k < |ws| :: at[k] < |headers| && leaf[at[k]] == k)
  }

  /** filterByShard always finds a block, and it is the only one of the right shard, so the order in which
      the node lists the shards does not matter. */
  lemma FilterFindsTheShard(headers: seq<BlockId>, t: ShardTree, leaf: seq<nat>, at: seq<nat>, shard: byte)
    requires Depth(t) <= 8 && ListsShards(headers, Words(t, 0, 0), leaf, at)
    ensures var r := FilterByShard(headers, shard);
      r.Some? && r.value in headers && Selects(r.value.shard, shard)
      && forall h | h in headers && Selects(h.shard, shard) :: h == r.value
  {
    var ws := Words(t, 0, 0);
    ExactlyOneShard(t, shard);
    var k :| 0 <= k < |ws| && Selects(ws[k], shard);
    FilterFindsFirst(headers, shard, at[k]);
  }
}
