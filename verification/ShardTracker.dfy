/** The stream of blocks of one shard: walk back from a new shard block to the last known one, then replay
    forward (blockchain/shard_tracker.go). */
module ShardTracker {
  import opened Prelude
  import opened Shards

  /** A shard block with its one parent in the tracked shard. */
  datatype Header = Header(id: BlockId, parent: BlockId)

  /** What the node knows: the parents of every block. Two parents after a merge, else one. */
  datatype Node = Node(parents: BlockId -> seq<BlockId>)

  /** A masterchain block: its number and the shard blocks it refers to. */
  datatype Master = Master(seqno: nat, shards: seq<BlockId>)

  datatype Outcome = Emit(header: Header) | Exit | TimedOut | Fatal

  function ParentOf(node: Node, shard: byte, b: BlockId): Option<BlockId>
  {
    FilterByShard(node.parents(b), shard)
  }

  /** Block numbers fall from a block to its parent. */
  ghost predicate Falling(node: Node, shard: byte)
  {
    forall b | ParentOf(node, shard, b).Some? :: ParentOf(node, shard, b).value.seqno < b.seqno
  }

  predicate SameBlock(a: BlockId, b: BlockId) { a.shard == b.shard && a.seqno == b.seqno }

  // ---------------------------------------------------------------- the backward walk

  datatype Walk = Found(batch: seq<Header>) | Stale | NoShard

  /** getShardBlocks: the blocks from `i` back to the last known block, newest first. */
  function WalkBack(node: Node, shard: byte, last: BlockId, i: BlockId): Walk
    requires Falling(node, shard)
    decreases i.seqno
  {
    if SameBlock(last, i) then Found([])
    else if last.seqno > i.seqno then Stale
    else
      match ParentOf(node, shard, i)
      case None => NoShard
      case Some(p) =>
        match WalkBack(node, shard, last, p)
        case Found(older) => Found([Header(i, p)] + older)
        case other => other
  }

  // ---------------------------------------------------------------- the tracker as a state machine

  datatype State = State(lastKnown: Option<BlockId>, lastMaster: Option<nat>, buffer: seq<Header>, stopped: bool)

  function Reverse(s: seq<Header>): seq<Header>
  {
    if s == [] then [] else Reverse(s[1..]) + [s[0]]
  }

  /** loadShardBlocksBatch: None when the service stops for lack of a suitable shard. */
  function Load(node: Node, shard: byte, st: State, m: Master): Option<State>
    requires Falling(node, shard)
  {
    match FilterByShard(m.shards, shard)
    case None => None
    case Some(i) =>
      var last := if st.lastKnown.Some? then st.lastKnown.value else i;
      var st1 := st.(lastKnown := Some(last), lastMaster := Some(m.seqno));
      match WalkBack(node, shard, last, i)
      case NoShard => None
      case Stale => Some(st1)
      case Found(batch) =>
        if batch == [] then Some(st1)
        else Some(st1.(lastKnown := Some(batch[0].id), buffer := st.buffer + Reverse(batch)))
  }

  /** NextBlock, given the node's coming answers to "the latest masterchain block"; TimedOut when they run
      out before a new shard block appears. Returns the answers that were not used. */
  function Next(node: Node, shard: byte, st: State, answers: seq<Master>): (State, Outcome, seq<Master>)
    requires Falling(node, shard)
    decreases |answers|
  {
    if st.stopped then (st, Exit, answers)
    else if st.buffer != [] then (st.(buffer := st.buffer[1..]), Emit(st.buffer[0]), answers)
    else if answers == [] then (st, TimedOut, [])
    else if st.lastMaster == Some(answers[0].seqno) then Next(node, shard, st, answers[1..])
    else
      match Load(node, shard, st, answers[0])
      case None => (st, Fatal, answers[1..])
      case Some(st') => Next(node, shard, st', answers[1..])
  }

  class Tracker {
    const node: Node
    const shard: byte
    var lastKnown: Option<BlockId>
    var lastMaster: Option<nat>
    var buffer: seq<Header>
    var stopped: bool

    constructor (node: Node, shard: byte, start: Option<BlockId>)
      ensures this.node == node && this.shard == shard && View() == State(start, None, [], false)
    {
      this.node, this.shard, lastKnown, lastMaster, buffer, stopped := node, shard, start, None, [], false;
    }

    function View(): State
      reads this
    {
      State(lastKnown, lastMaster, buffer, stopped)
    }

    /** Stop, which the next call and the one under way notice. */
    method Stop()
      modifies this`stopped
      ensures View() == old(View()).(stopped := true)
    {
      stopped := true;
    }

    method GetNext() returns (h: Option<Header>)
      modifies this`buffer
      ensures old(buffer) == [] ==> h == None && buffer == []
      ensures old(buffer) != [] ==> h == Some(old(buffer)[0]) && buffer == old(buffer)[1..]
    {
      if |buffer| != 0 {
        h := Some(buffer[0]);
        buffer := buffer[1..];
      } else {
        h := None;
      }
    }

    /** getShardBlocks. The walk ends because block numbers fall. */
    method GetShardBlocks(from: BlockId) returns (batch: seq<Header>, fatal: bool)
      requires Falling(node, shard)
      modifies this`lastKnown
      ensures lastKnown == Some(if old(lastKnown).Some? then old(lastKnown).value else from)
      ensures var w := WalkBack(node, shard, lastKnown.value, from);
        && (fatal <==> w.NoShard?)
        && (!fatal ==> batch == if w.Found? then w.batch else [])
    {
      batch, fatal := [], false;
      if lastKnown.None? { lastKnown := Some(from); }
      var last := lastKnown.value;
      ghost var w := WalkBack(node, shard, last, from);
      var i := from;
      while !SameBlock(last, i)
        invariant lastKnown == Some(last) && w == Prepend(batch, WalkBack(node, shard, last, i))
        decreases i.seqno
      {
        if last.seqno > i.seqno { return [], false; }
        var p := ParentOf(node, shard, i);
        if p.None? { return [], true; }
        batch := batch + [Header(i, p.value)];
        i := p.value;
      }
      assert batch + [] == batch;
    }

    /** loadShardBlocksBatch */
    method LoadShardBlocksBatch(m: Master) returns (fatal: bool)
      requires Falling(node, shard) && lastMaster == Some(m.seqno)
      modifies this`lastKnown, this`buffer
      ensures fatal <==> Load(node, shard, old(View()), m).None?
      ensures !fatal ==> View() == Load(node, shard, old(View()), m).value
    {
      var i := FilterByShard(m.shards, shard);
      if i.None? { return true; }
      var batch: seq<Header>;
      batch, fatal := GetShardBlocks(i.value);
      if fatal { return; }
      if |batch| != 0 {
        lastKnown := Some(batch[0].id);
        ghost var before := buffer;
        var n := |batch|;
        while n > 0
          invariant 0 <= n <= |batch| && lastKnown == Some(batch[0].id)
          invariant buffer == before + Reverse(batch[n..])
        {
          n := n - 1;
          assert batch[n..][1..] == batch[n + 1..];
          buffer := buffer + [batch[n]];
        }
        assert batch[0..] == batch;
      }
    }

    /** NextBlock: returns how many answers it used. */
    method NextBlock(answers: seq<Master>) returns (out: Outcome, used: nat)
      requires Falling(node, shard)
      modifies this`lastKnown, this`lastMaster, this`buffer
      ensures used <= |answers|
      ensures var r := Next(node, shard, old(View()), answers);
        out == r.1 && r.2 == answers[used..] && (out.Fatal? || View() == r.0)
    {
      used := 0;
      ghost var r := Next(node, shard, View(), answers);
      while true
        invariant used <= |answers| && r == Next(node, shard, View(), answers[used..])
        decreases |answers| - used
      {
        if stopped { return Exit, used; }
        var h := GetNext();
        if h.Some? { return Emit(h.value), used; }
        if used == |answers| { return TimedOut, used; }
        var m := answers[used];
        assert answers[used..][1..] == answers[used + 1..];
        used := used + 1;
        if lastMaster == Some(m.seqno) { continue; }
        ghost var before := View();
        lastMaster := Some(m.seqno);
        var fatal := LoadShardBlocksBatch(m);
        if fatal { return Fatal, used; }
      }
    }
  }

  function Prepend(batch: seq<Header>, w: Walk): Walk
  {
    if w.Found? then Found(batch + w.batch) else w
  }

  // ---------------------------------------------------------------- the stream is the chain

  /** `c` is the filtered chain: each block's parent in the shard is the one before it. */
  ghost predicate IsChain(node: Node, shard: byte, c: seq<BlockId>)
  {
    forall i | 0 < i < |c| :: ParentOf(node, shard, c[i]) == Some(c[i - 1])
  }

  function Link(c: seq<BlockId>, i: nat): Header
    requires 0 < i < |c|
  {
    Header(c[i], c[i - 1])
  }

  function Links(c: seq<BlockId>, from: nat, to: nat): seq<Header>
    requires 0 < from <= to <= |c|
  {
    seq(to - from, j requires 0 <= j < to - from => Link(c, from + j))
  }

  /** Every answer refers to some block of the chain: the newest, an old one, any. */
  ghost predicate Honest(shard: byte, c: seq<BlockId>, answers: seq<Master>)
  {
    forall m | m in answers :: exists i :: 0 <= i < |c| && FilterByShard(m.shards, shard) == Some(c[i])
  }

  lemma {:induction false} Increasing(node: Node, shard: byte, c: seq<BlockId>, i: nat, j: nat)
    requires Falling(node, shard) && IsChain(node, shard, c) && i < j < |c|
    ensures c[i].seqno < c[j].seqno
    decreases j
  {
    assert ParentOf(node, shard, c[j]) == Some(c[j - 1]);
    if i + 1 < j { Increasing(node, shard, c, i, j - 1); }
  }

  /** From any later block of the chain, the walk finds exactly the blocks in between; from an earlier one,
      nothing. */
  lemma {:induction false} WalkFindsChain(node: Node, shard: byte, c: seq<BlockId>, k: nat, i: nat)
    requires Falling(node, shard) && IsChain(node, shard, c) && k < |c| && i < |c|
    ensures var w := WalkBack(node, shard, c[k], c[i]);
      if i < k then w == Stale
      else (w.Found? && Reverse(w.batch) == Links(c, k + 1, i + 1)
            && (w.batch == [] <==> i == k) && (i > k ==> w.batch[0].id == c[i]))
    decreases i
  {
    if i < k {
      Increasing(node, shard, c, i, k);
    } else if i > k {
      Increasing(node, shard, c, k, i);
      WalkFindsChain(node, shard, c, k, i - 1);
      var older := WalkBack(node, shard, c[k], c[i - 1]).batch;
      var batch := [Header(c[i], c[i - 1])] + older;
      assert batch[1..] == older;
      assert Links(c, k + 1, i + 1) == Links(c, k + 1, i) + [Link(c, i)];
    }
  }

  /** The tracker has emitted the chain up to position `e` and buffers what follows up to the block it knows. */
  ghost predicate Tracks(c: seq<BlockId>, st: State, e: nat)
  {
    && st.lastKnown.Some?
    && exists k :: TracksTo(c, st, e, k)
  }

  ghost predicate TracksTo(c: seq<BlockId>, st: State, e: nat, k: nat)
  {
    e <= k < |c| && st.lastKnown == Some(c[k]) && st.buffer == Links(c, e + 1, k + 1)
  }

  /** Before its first answer, a tracker without a start block knows nothing. */
  ghost predicate Unanchored(st: State) { st.lastKnown.None? && st.buffer == [] }

  lemma LoadTracks(node: Node, shard: byte, c: seq<BlockId>, st: State, e: nat, m: Master, i: nat)
    requires Falling(node, shard) && IsChain(node, shard, c)
    requires i < |c| && FilterByShard(m.shards, shard) == Some(c[i]) && st.buffer == []
    requires Tracks(c, st, e) || (Unanchored(st) && e == i)
    ensures Load(node, shard, st, m).Some?
    ensures Tracks(c, Load(node, shard, st, m).value, e)
  {
    var k: nat;
    if st.lastKnown.Some? { k :| TracksTo(c, st, e, k); } else { k := i; }
    assert e == k by { if st.lastKnown.Some? { assert |Links(c, e + 1, k + 1)| == 0; } }
    WalkFindsChain(node, shard, c, k, i);
    var st' := Load(node, shard, st, m).value;
    assert TracksTo(c, st', e, if i > k then i else k);
  }

  /** One call: whatever the node answers, NextBlock either emits the next block of the chain with its parent, or
      exits because it was stopped, or runs out of time, which is an error; it never lacks a suitable shard. */
  lemma {:induction false} NextTracks(node: Node, shard: byte, c: seq<BlockId>, st: State, e: nat, answers: seq<Master>)
    requires Falling(node, shard) && IsChain(node, shard, c) && Honest(shard, c, answers)
    requires Tracks(c, st, e)
    ensures var (st', out, rest) := Next(node, shard, st, answers);
      && (out.Emit? ==> e + 1 < |c| && out.header == Link(c, e + 1) && Tracks(c, st', e + 1))
      && (!out.Emit? ==> Tracks(c, st', e))
      && (out.Exit? <==> st.stopped) && !out.Fatal?
      && st'.stopped == st.stopped && Honest(shard, c, rest)
    decreases |answers|
  {
    if st.stopped {
    } else if st.buffer != [] {
      var k :| TracksTo(c, st, e, k);
      assert TracksTo(c, st.(buffer := st.buffer[1..]), e + 1, k);
    } else if answers == [] {
    } else {
      assert answers[0] in answers;
      assert Honest(shard, c, answers[1..]);
      if st.lastMaster == Some(answers[0].seqno) {
        NextTracks(node, shard, c, st, e, answers[1..]);
      } else {
        var i :| 0 <= i < |c| && FilterByShard(answers[0].shards, shard) == Some(c[i]);
        LoadTracks(node, shard, c, st, e, answers[0], i);
        NextTracks(node, shard, c, Load(node, shard, st, answers[0]).value, e, answers[1..]);
      }
    }
  }

  /** A tracker without a start block anchors itself at the block of the first answer and goes on from there. */
  lemma FirstAnswerAnchors(node: Node, shard: byte, c: seq<BlockId>, st: State, answers: seq<Master>, i: nat)
    requires Falling(node, shard) && IsChain(node, shard, c)
    requires answers != [] && i < |c| && FilterByShard(answers[0].shards, shard) == Some(c[i])
    requires Unanchored(st) && st.lastMaster.None? && !st.stopped
    ensures Load(node, shard, st, answers[0]).Some? && Tracks(c, Load(node, shard, st, answers[0]).value, i)
    ensures Next(node, shard, st, answers) == Next(node, shard, Load(node, shard, st, answers[0]).value, answers[1..])
  {
    LoadTracks(node, shard, c, st, i, answers[0], i);
  }

  /** The blocks emitted by a sequence of calls, each with the answers the node gives during it. */
  function Stream(node: Node, shard: byte, st: State, calls: seq<seq<Master>>): (State, seq<Header>)
    requires Falling(node, shard)
    decreases |calls|
  {
    if calls == [] then (st, [])
    else
      var (st0, hs) := Stream(node, shard, st, calls[..|calls| - 1]);
      var (st1, out, _) := Next(node, shard, st0, calls[|calls| - 1]);
      (st1, Log(hs, out))
  }

  function Log(hs: seq<Header>, out: Outcome): seq<Header>
  {
    if out.Emit? then hs + [out.header] else hs
  }

  /** The stream so far is the chain from the anchor at position `e`, oldest first. */
  ghost predicate StreamedFrom(c: seq<BlockId>, r: (State, seq<Header>), e: nat)
  {
    e + |r.1| < |c| && r.1 == Links(c, e + 1, e + 1 + |r.1|) && Tracks(c, r.0, e + |r.1|)
  }

  /** For every sequence of calls and node answers, the emitted blocks are exactly the chain after the anchor,
      oldest first, each with the block emitted before it as parent. */
  lemma {:induction false} StreamIsChain(node: Node, shard: byte, c: seq<BlockId>, st: State, e: nat,
      calls: seq<seq<Master>>)
    requires Falling(node, shard) && IsChain(node, shard, c) && Tracks(c, st, e)
    requires forall a | a in calls :: Honest(shard, c, a)
    ensures StreamedFrom(c, Stream(node, shard, st, calls), e)
    decreases |calls|
  {
    if calls == [] {
      var k :| TracksTo(c, st, e, k);
    } else {
      var n := |calls| - 1;
      StreamIsChain(node, shard, c, st, e, calls[..n]);
      assert calls[n] in calls;
      var r := Stream(node, shard, st, calls[..n]);
      StreamStep(node, shard, c, r.0, r.1, e, calls[n]);
    }
  }

  lemma StreamStep(node: Node, shard: byte, c: seq<BlockId>, st: State, hs: seq<Header>, e: nat, answers: seq<Master>)
    requires Falling(node, shard) && IsChain(node, shard, c) && StreamedFrom(c, (st, hs), e)
    requires Honest(shard, c, answers)
    ensures var r := Next(node, shard, st, answers); StreamedFrom(c, (r.0, Log(hs, r.1)), e)
  {
    NextTracks(node, shard, c, st, e + |hs|, answers);
  }

  /** No block is held back: a call emits a block as soon as one is buffered or a new answer refers to a block
      beyond the last known one. */
  lemma NewBlockIsEmitted(node: Node, shard: byte, c: seq<BlockId>, st: State, e: nat, m: Master, i: nat)
    requires Falling(node, shard) && IsChain(node, shard, c) && TracksTo(c, st, e, e) && !st.stopped
    requires st.lastMaster != Some(m.seqno) && e < i < |c| && FilterByShard(m.shards, shard) == Some(c[i])
    ensures Next(node, shard, st, [m]).1 == Emit(Link(c, e + 1))
  {
    WalkFindsChain(node, shard, c, e, i);
    LoadTracks(node, shard, c, st, e, m, i);
  }

  /** How many answers a call uses; the rest is left. */
  function Used(node: Node, shard: byte, st: State, answers: seq<Master>): (n: nat)
    requires Falling(node, shard)
    ensures n <= |answers| && Next(node, shard, st, answers).2 == answers[n..]
    decreases |answers|
  {
    if st.stopped || st.buffer != [] || answers == [] then 0
    else if st.lastMaster == Some(answers[0].seqno) then 1 + Used(node, shard, st, answers[1..])
    else
      match Load(node, shard, st, answers[0])
      case None => 1
      case Some(st') => 1 + Used(node, shard, st', answers[1..])
  }

  /** A call remembers the master block of the last answer it used, and an answer with the block seen last makes no
      difference. */
  lemma {:induction false} MasterIsRemembered(node: Node, shard: byte, st: State, answers: seq<Master>)
    requires Falling(node, shard)
    ensures var n, r := Used(node, shard, st, answers), Next(node, shard, st, answers);
      !r.1.Fatal? ==> r.0.lastMaster == if n == 0 then st.lastMaster else Some(answers[n - 1].seqno)
    ensures forall m: Master | st.lastMaster == Some(m.seqno) && !st.stopped && st.buffer == [] ::
              Next(node, shard, st, [m] + answers) == Next(node, shard, st, answers)
    decreases |answers|
  {
    forall m: Master ensures ([m] + answers)[1..] == answers {}
    if !st.stopped && st.buffer == [] && answers != [] {
      if st.lastMaster == Some(answers[0].seqno) {
        MasterIsRemembered(node, shard, st, answers[1..]);
      } else if Load(node, shard, st, answers[0]).Some? {
        MasterIsRemembered(node, shard, Load(node, shard, st, answers[0]).value, answers[1..]);
      }
    }
  }
}
