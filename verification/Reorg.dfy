/** The reorg protocol of the block manager and the block fetcher.

    The fetcher streams the requested heights, tallest first, then answers each "reorg at height h" message with
    block h until it is told None. The manager checks the lowest block it expects against the wallet's top block,
    drops that wallet block when their hashes disagree, and asks for the server's block at its height. */
module Reorg {
  import opened Wrappers
  import opened CompactBlocks

  /** What the manager's receive loop reads and writes. `txHeights` are the heights of the wallet's transactions. */
  datatype Manager = Manager(
    blocks: seq<CompactBlock>, unprocessed: seq<CompactBlock>, existing: seq<CompactBlock>,
    lastExpecting: nat, earliest: Option<nat>, txHeights: set<nat>)

  datatype Panic = WrongBlockReorged | NoReplyReceiver

  /** Moving full batches to the shared list. */
  function FlushBefore(m: Manager, height: nat, batchSize: nat): Manager
    requires batchSize > 0
  {
    if height % batchSize == 0 && m.unprocessed != [] then m.(blocks := m.blocks + m.unprocessed, unprocessed := [])
    else m
  }

  /** Dropping the wallet's top block and its transactions. */
  function Invalidate(existing: seq<CompactBlock>, txHeights: set<nat>, height: nat)
    : Result<(seq<CompactBlock>, set<nat>), Panic>
  {
    if existing == [] then Ok((existing, txHeights))
    else if existing[0].height != height then Err(WrongBlockReorged)
    else Ok((existing[1..], set h | h in txHeights && h < height))
  }

  /** The height to ask for, if the wallet's top block is not the parent of `block`. */
  function ReorgHeight(existing: seq<CompactBlock>, block: CompactBlock): Option<nat> {
    if existing != [] && existing[0].hash != block.prevHash then Some(existing[0].height) else None
  }

  /** One pass of the receive loop; the second component is the message sent, if one is. */
  function OnBlock(m: Manager, block: CompactBlock, batchSize: nat): Result<(Manager, Option<Option<nat>>), Panic>
    requires batchSize > 0
  {
    var m := FlushBefore(m, block.height, batchSize);
    var pushed := m.(unprocessed := m.unprocessed + [block], earliest := Some(block.height));
    if block.height != m.lastExpecting then
      Ok((pushed, None))
    else
      match ReorgHeight(m.existing, block)
      case None => Ok((pushed, Some(None)))
      case Some(h) =>
        match Invalidate(m.existing, m.txHeights, h)
        case Err(p) => Err(p)
        case Ok((existing, txHeights)) =>
          Ok((pushed.(existing := existing, txHeights := txHeights, lastExpecting := h), Some(Some(h))))
  }

  function FinishLoop(m: Manager): Manager {
    m.(blocks := m.blocks + m.unprocessed, unprocessed := [])
  }

  /** The wallet's new block list: the batch, then what is left of the old list, cut to the `num` tallest. */
  function Drain(m: Manager, num: nat): seq<CompactBlock> {
    var all := m.blocks + m.existing;
    if num <= |all| then all[..num] else all
  }

  /** The manager's thread: fields updated in place as the source does. */
  class BlockManagement {
    var blocksInCurrentBatch: seq<CompactBlock>
    var unprocessedBlocks: seq<CompactBlock>
    var existingBlocks: seq<CompactBlock>
    var lastBlockExpecting: nat
    var earliestBlockHeight: Option<nat>
    var txHeights: set<nat>
    const batchSize: nat

    function View(): Manager
      reads this
    {
      Manager(
        blocksInCurrentBatch, unprocessedBlocks, existingBlocks, lastBlockExpecting, earliestBlockHeight, txHeights)
    }

    constructor (existing: seq<CompactBlock>, endBlock: nat, heights: set<nat>, batch: nat)
      ensures View() == Manager([], [], existing, endBlock, None, heights) && batchSize == batch
    {
      blocksInCurrentBatch, unprocessedBlocks, existingBlocks := [], [], existing;
      lastBlockExpecting, earliestBlockHeight, txHeights, batchSize := endBlock, None, heights, batch;
    }

    method InvalidateBlock(reorgHeight: nat) returns (outcome: Result<(), Panic>)
      modifies this`existingBlocks, this`txHeights
      ensures match Invalidate(old(existingBlocks), old(txHeights), reorgHeight)
              case Ok((existing, heights)) => outcome.Ok? && existingBlocks == existing && txHeights == heights
              case Err(p) => outcome == Err(p)
      ensures outcome.Err? <==> old(existingBlocks) != [] && old(existingBlocks)[0].height != reorgHeight
      ensures old(existingBlocks) == [] ==> existingBlocks == [] && txHeights == old(txHeights)
      ensures outcome.Ok? && old(existingBlocks) != [] ==>
                && existingBlocks == old(existingBlocks)[1..]
                && txHeights == set h | h in old(txHeights) && h < reorgHeight
    {
      if existingBlocks != [] {
        var topWalletBlock := existingBlocks[0];
        existingBlocks := existingBlocks[1..];
        if topWalletBlock.height != reorgHeight {
          return Err(WrongBlockReorged);
        }
        txHeights := set h | h in txHeights && h < reorgHeight;
      }
      outcome := Ok(());
    }

    method ReceiveBlock(block: CompactBlock) returns (sent: Result<Option<Option<nat>>, Panic>)
      requires batchSize > 0
      modifies this
      ensures match OnBlock(old(View()), block, batchSize)
              case Ok((m, reply)) => View() == m && sent == Ok(reply)
              case Err(p) => sent == Err(p)
      ensures sent.Ok?
      ensures if block.height % batchSize == 0
              then blocksInCurrentBatch == old(blocksInCurrentBatch + unprocessedBlocks) && unprocessedBlocks == [block]
              else blocksInCurrentBatch == old(blocksInCurrentBatch)
                   && unprocessedBlocks == old(unprocessedBlocks) + [block]
      ensures earliestBlockHeight == Some(block.height)
      ensures block.height != old(lastBlockExpecting) ==>
                && sent == Ok(None) && lastBlockExpecting == old(lastBlockExpecting)
                && existingBlocks == old(existingBlocks) && txHeights == old(txHeights)
      ensures block.height == old(lastBlockExpecting) ==>
                if old(existingBlocks) == [] || old(existingBlocks)[0].hash == block.prevHash
                then sent == Ok(Some(None)) && existingBlocks == old(existingBlocks) && txHeights == old(txHeights)
                     && lastBlockExpecting == old(lastBlockExpecting)
                else
                  var h := old(existingBlocks)[0].height;
                  && sent == Ok(Some(Some(h))) && existingBlocks == old(existingBlocks)[1..]
                  && lastBlockExpecting == h && txHeights == set t | t in old(txHeights) && t < h
    {
      if block.height % batchSize == 0 && unprocessedBlocks != [] {
        blocksInCurrentBatch := blocksInCurrentBatch + unprocessedBlocks;
        unprocessedBlocks := [];
      }
      var reply: Option<Option<nat>> := None;
      if block.height == lastBlockExpecting {
        var reorgBlock := None;
        if existingBlocks != [] && existingBlocks[0].hash != block.prevHash {
          reorgBlock := Some(existingBlocks[0].height);
        }
        if reorgBlock.Some? {
          var outcome := InvalidateBlock(reorgBlock.value);
          assert outcome.Ok?;
          lastBlockExpecting := reorgBlock.value;
        }
        reply := Some(reorgBlock);
      }
      earliestBlockHeight := Some(block.height);
      unprocessedBlocks := unprocessedBlocks + [block];
      sent := Ok(reply);
    }

    /** The channel closed. */
    method Finish() returns (earliest: Option<nat>)
      modifies this
      ensures View() == FinishLoop(old(View())) && earliest == earliestBlockHeight
    {
      if unprocessedBlocks != [] {
        blocksInCurrentBatch := blocksInCurrentBatch + unprocessedBlocks;
        unprocessedBlocks := [];
      }
      earliest := earliestBlockHeight;
    }

    method DrainExistingBlocksWithTruncation(num: nat) returns (blocks: seq<CompactBlock>)
      modifies this
      ensures blocks == blocksInCurrentBatch == Drain(old(View()), num) && existingBlocks == []
    {
      blocksInCurrentBatch := blocksInCurrentBatch + existingBlocks;
      existingBlocks := [];
      if num <= |blocksInCurrentBatch| {
        blocksInCurrentBatch := blocksInCurrentBatch[..num];
      }
      blocks := blocksInCurrentBatch;
    }
  }

  // ---- The two threads together

  /** `todo` lists the heights the fetcher has still to send before it looks for a message. */
  datatype Fetcher = Serving(todo: seq<nat>) | Stopped

  /** `channel` carries blocks to the manager, `replies` its messages back; `sent` records every message. */
  datatype State = State(
    fetcher: Fetcher, channel: seq<CompactBlock>, manager: Manager, replies: seq<Option<nat>>,
    sent: seq<Option<nat>>, finished: bool)

  datatype Outcome = Running(state: State) | Panicked(panic: Panic)

  datatype Action = SendBlock | TakeReply | ReceiveBlock | CloseLoop

  /** None when the action is not enabled. */
  function Next(s: State, a: Action, chain: nat -> CompactBlock, batchSize: nat): Option<Outcome>
    requires batchSize > 0
  {
    match a
    case SendBlock =>
      if s.fetcher.Serving? && s.fetcher.todo != [] then
        Some(Running(s.(fetcher := Serving(s.fetcher.todo[1..]), channel := s.channel + [chain(s.fetcher.todo[0])])))
      else None
    case TakeReply =>
      if s.fetcher == Serving([]) && s.replies != [] then
        Some(Running(s.(fetcher := if s.replies[0].Some? then Serving([s.replies[0].value]) else Stopped,
                        replies := s.replies[1..])))
      else None
    case ReceiveBlock =>
      if s.channel != [] && !s.finished then
        match OnBlock(s.manager, s.channel[0], batchSize)
        case Err(p) => Some(Panicked(p))
        case Ok((m, reply)) =>
          var t := s.(manager := m, channel := s.channel[1..]);
          if reply.None? then Some(Running(t))
          else if s.fetcher.Stopped? then Some(Panicked(NoReplyReceiver))
          else Some(Running(t.(replies := s.replies + [reply.value], sent := s.sent + [reply.value])))
      else None
    case CloseLoop =>
      if s.fetcher.Stopped? && s.channel == [] && !s.finished then
        Some(Running(s.(manager := FinishLoop(s.manager), finished := true)))
      else None
  }

  function Start(existing: seq<CompactBlock>, startBlock: nat, endBlock: nat, txHeights: set<nat>): State
    requires endBlock <= startBlock
  {
    var manager := Manager([], [], existing, endBlock, None, txHeights);
    State(Serving(Heights(startBlock, endBlock)), [], manager, [], [], false)
  }

  function Run(s: State, schedule: seq<Action>, chain: nat -> CompactBlock, batchSize: nat): Option<Outcome>
    requires batchSize > 0
  {
    if schedule == [] then Some(Running(s))
    else
      match Run(s, schedule[..|schedule| - 1], chain, batchSize)
      case Some(Running(t)) => Next(t, schedule[|schedule| - 1], chain, batchSize)
      case _ => None
  }

  // ---- What the parties start from

  /** The wallet's blocks: contiguous, tallest first at endBlock - 1, each naming the hash of the next. */
  predicate WalletBlocks(existing: seq<CompactBlock>, endBlock: nat) {
    && |existing| <= endBlock
    && (forall i :: 0 <= i < |existing| ==> existing[i].height == endBlock - 1 - i)
    && (forall i :: 0 <= i < |existing| - 1 ==> existing[i].prevHash == existing[i + 1].hash)
  }

  predicate HashIdentifies(a: CompactBlock, b: CompactBlock) {
    a.hash == b.hash ==> a == b
  }

  /** Equal hashes mean equal blocks. */
  ghost predicate HashesIdentify(existing: seq<CompactBlock>, chain: nat -> CompactBlock) {
    forall i, h: nat :: 0 <= i < |existing| ==> HashIdentifies(existing[i], chain(h))
  }

  ghost predicate Setup(existing: seq<CompactBlock>, chain: nat -> CompactBlock, startBlock: nat, endBlock: nat) {
    && endBlock <= startBlock
    && Chain(chain, startBlock)
    && WalletBlocks(existing, endBlock)
    && HashesIdentify(existing, chain)
  }

  /** How many of the wallet's blocks, from the top, disagree with the server. */
  ghost function Forked(existing: seq<CompactBlock>, chain: nat -> CompactBlock): (k: nat)
    ensures k <= |existing|
  {
    if existing == [] || existing[0] == chain(existing[0].height) then 0 else 1 + Forked(existing[1..], chain)
  }

  /** The lowest height held when the exchange is over. */
  function Bottom(existing: seq<CompactBlock>, endBlock: nat): nat
    requires |existing| <= endBlock
  {
    endBlock - |existing|
  }

  // ---- The invariant

  function Held(m: Manager): seq<CompactBlock> {
    m.blocks + m.unprocessed
  }

  /** What the manager holds is the chain from `startBlock` down. */
  ghost predicate HoldsFrom(m: Manager, chain: nat -> CompactBlock, startBlock: nat) {
    && |Held(m)| <= startBlock + 1
    && Held(m) == Descending(chain, startBlock, startBlock + 1 - |Held(m)|)
    && (Held(m) != [] ==> m.earliest == Some(startBlock + 1 - |Held(m)|))
  }

  /** The manager after `k` reorg messages; `endBlock - k` is the lowest height asked for so far. */
  ghost predicate ManagerAt(
      m: Manager, k: nat, existing: seq<CompactBlock>, chain: nat -> CompactBlock, startBlock: nat, endBlock: nat,
      txHeights: set<nat>)
    requires k <= |existing| <= endBlock <= startBlock
  {
    && m.existing == existing[k..]
    && m.lastExpecting == endBlock - k
    && m.txHeights == (if k == 0 then txHeights else set h | h in txHeights && h < endBlock - k)
    && |Held(m)| <= startBlock + 1 - (endBlock - k)
    && HoldsFrom(m, chain, startBlock)
  }

  function Messages(endBlock: nat, k: nat): (r: seq<Option<nat>>)
    requires k <= endBlock
    ensures |r| == k
    ensures forall i :: 0 <= i < k ==> r[i] == Some(endBlock - 1 - i)
  {
    seq(k, i requires 0 <= i < k => Some(endBlock - 1 - i))
  }

  /** Not joined, with `n` blocks held: block `e` is being asked for, sent, or waiting in the channel. */
  ghost predicate Asking(s: State, n: nat, e: nat, chain: nat -> CompactBlock, startBlock: nat, endBlock: nat) {
    && e <= endBlock
    && s.sent == Messages(endBlock, endBlock - e)
    && !s.finished
    && s.fetcher.Serving?
    && n + |s.channel| <= startBlock + 1 - e
    && (forall i :: 0 <= i < |s.channel| ==> s.channel[i] == chain(startBlock - n - i))
    && (if s.replies == [] then
          n < startBlock + 1 - e && s.fetcher.todo == Heights(startBlock - n - |s.channel|, e)
        else
          && e < endBlock && s.replies == [Some(e)] && s.fetcher.todo == [] && s.channel == []
          && n == startBlock - e)
  }

  /** Joined, with `n` blocks held: the last message was None. */
  ghost predicate Joined(s: State, n: nat, e: nat, startBlock: nat, endBlock: nat) {
    && e <= endBlock
    && s.sent == Messages(endBlock, endBlock - e) + [None]
    && s.channel == []
    && n == startBlock + 1 - e
    && s.replies == (if s.fetcher.Stopped? then [] else [None])
    && (s.fetcher.Serving? ==> s.fetcher.todo == [] && !s.finished)
    && (s.finished ==> s.manager.unprocessed == [])
  }

  /** `forked` is the number of wallet blocks that must go. */
  ghost predicate Invariant(
      s: State, k: nat, forked: nat, existing: seq<CompactBlock>, chain: nat -> CompactBlock, startBlock: nat,
      endBlock: nat, txHeights: set<nat>)
    requires forked <= |existing| <= endBlock <= startBlock
  {
    && k <= forked
    && ManagerAt(s.manager, k, existing, chain, startBlock, endBlock, txHeights)
    && if |s.sent| == k
       then Asking(s, |Held(s.manager)|, endBlock - k, chain, startBlock, endBlock)
       else Joined(s, |Held(s.manager)|, endBlock - k, startBlock, endBlock) && k == forked
  }

  /** The first `Forked` wallet blocks disagree with the server; the next one, if any, agrees. */
  lemma {:induction false} ForkedSplits(existing: seq<CompactBlock>, chain: nat -> CompactBlock, k: nat)
    requires k <= |existing|
    ensures k < Forked(existing, chain) ==> existing[k] != chain(existing[k].height)
    ensures k == Forked(existing, chain) < |existing| ==> existing[k] == chain(existing[k].height)
  {
    if k > 0 && existing[0] != chain(existing[0].height) {
      ForkedSplits(existing[1..], chain, k - 1);
      assert existing[1..][k - 1..] == existing[k..];
    }
  }

  /** Below the join the wallet's blocks are the server's: agreement passes down the hash links. */
  lemma {:induction false} AgreeBelowJoin(
      existing: seq<CompactBlock>, chain: nat -> CompactBlock, startBlock: nat, endBlock: nat, i: nat)
    requires Setup(existing, chain, startBlock, endBlock)
    requires Forked(existing, chain) <= i < |existing|
    ensures existing[i] == chain(endBlock - 1 - i)
  {
    ForkedSplits(existing, chain, Forked(existing, chain));
    if i > Forked(existing, chain) {
      AgreeBelowJoin(existing, chain, startBlock, endBlock, i - 1);
      var h := endBlock - 1 - i;
      assert chain(h + 1).prevHash == chain(h).hash;
      assert existing[i - 1].prevHash == existing[i].hash;
      assert HashIdentifies(existing[i], chain(h));
    }
  }

  /** `Forked` counts every wallet block that differs from the server's. */
  lemma {:induction false} ForkedAreTheDiffering(
      existing: seq<CompactBlock>, chain: nat -> CompactBlock, startBlock: nat, endBlock: nat)
    requires Setup(existing, chain, startBlock, endBlock)
    ensures forall i :: 0 <= i < |existing| ==>
              (i < Forked(existing, chain) <==> existing[i] != chain(endBlock - 1 - i))
  {
    forall i | 0 <= i < |existing|
      ensures i < Forked(existing, chain) <==> existing[i] != chain(endBlock - 1 - i)
    {
      if i < Forked(existing, chain) {
        ForkedSplits(existing, chain, i);
      } else {
        AgreeBelowJoin(existing, chain, startBlock, endBlock, i);
      }
    }
  }

  /** The manager's hash comparison decides whether all forked blocks are gone. */
  lemma ReorgHeightDecides(
      existing: seq<CompactBlock>, chain: nat -> CompactBlock, startBlock: nat, endBlock: nat, k: nat)
    requires Setup(existing, chain, startBlock, endBlock) && k <= Forked(existing, chain)
    ensures ReorgHeight(existing[k..], chain(endBlock - k)) ==
            if k == Forked(existing, chain) then None else Some(endBlock - 1 - k)
  {
    if k < |existing| {
      ForkedSplits(existing, chain, k);
      var h := endBlock - 1 - k;
      assert chain(h + 1).prevHash == chain(h).hash;
      assert HashIdentifies(existing[k], chain(h));
    }
  }

  lemma SendKeepsAsking(
      s: State, n: nat, e: nat, chain: nat -> CompactBlock, startBlock: nat, endBlock: nat, batchSize: nat)
    requires batchSize > 0 && Asking(s, n, e, chain, startBlock, endBlock)
    requires Next(s, SendBlock, chain, batchSize).Some?
    ensures var t := Next(s, SendBlock, chain, batchSize).value;
            t.Running? && Asking(t.state, n, e, chain, startBlock, endBlock)
  {
    var t := Next(s, SendBlock, chain, batchSize).value.state;
    assert t.fetcher.todo == Heights(startBlock - n - |t.channel|, e);
  }

  lemma ReplyKeepsAsking(
      s: State, n: nat, e: nat, chain: nat -> CompactBlock, startBlock: nat, endBlock: nat, batchSize: nat)
    requires batchSize > 0 && Asking(s, n, e, chain, startBlock, endBlock)
    requires Next(s, TakeReply, chain, batchSize).Some?
    ensures var t := Next(s, TakeReply, chain, batchSize).value;
            t.Running? && Asking(t.state, n, e, chain, startBlock, endBlock)
  {
    var t := Next(s, TakeReply, chain, batchSize).value.state;
    assert t.fetcher.todo == Heights(startBlock - n - |t.channel|, e);
  }

  /** Receiving appends the next server block to what the manager holds. */
  lemma HeldGrows(m: Manager, block: CompactBlock, batchSize: nat)
    requires batchSize > 0 && OnBlock(m, block, batchSize).Ok?
    ensures var m' := OnBlock(m, block, batchSize).value.0;
            Held(m') == Held(m) + [block] && m'.earliest == Some(block.height)
  {
  }

  lemma HoldsOneMore(m: Manager, m': Manager, chain: nat -> CompactBlock, startBlock: nat)
    requires HoldsFrom(m, chain, startBlock) && |Held(m)| <= startBlock
    requires var block := chain(startBlock - |Held(m)|);
             && block.height == startBlock - |Held(m)|
             && Held(m') == Held(m) + [block] && m'.earliest == Some(block.height)
    ensures HoldsFrom(m', chain, startBlock)
  {
    hide Held;
    var block := chain(startBlock - |Held(m)|);
    assert Held(m) + [block] == Descending(chain, startBlock, startBlock - |Held(m)|);
  }

  /** The three things a block can be to the manager: not the one expected, the join, or a fork. */
  lemma OnOtherBlock(m: Manager, block: CompactBlock, batchSize: nat)
    requires batchSize > 0 && block.height != m.lastExpecting
    ensures var result := OnBlock(m, block, batchSize);
            && result.Ok? && result.value.1 == None && SameWallet(m, result.value.0)
  {
  }

  lemma OnJoiningBlock(m: Manager, block: CompactBlock, batchSize: nat)
    requires batchSize > 0 && block.height == m.lastExpecting && ReorgHeight(m.existing, block) == None
    ensures var result := OnBlock(m, block, batchSize);
            && result.Ok? && result.value.1 == Some(None) && SameWallet(m, result.value.0)
  {
    hide ReorgHeight;
  }

  lemma OnForkingBlock(m: Manager, block: CompactBlock, batchSize: nat, h: nat)
    requires batchSize > 0 && block.height == m.lastExpecting && ReorgHeight(m.existing, block) == Some(h)
    ensures var result := OnBlock(m, block, batchSize);
            && result.Ok? && result.value.1 == Some(Some(h))
            && m.existing != [] && result.value.0.existing == m.existing[1..] && result.value.0.lastExpecting == h
            && result.value.0.txHeights == set t | t in m.txHeights && t < h
  {
  }

  /** What the manager knows of the wallet's own blocks is unchanged. */
  predicate SameWallet(m: Manager, m': Manager) {
    m'.existing == m.existing && m'.lastExpecting == m.lastExpecting && m'.txHeights == m.txHeights
  }

  /** The manager's side of receiving: the next block, and at the expected height one more reorg or the join. */
  lemma ReceiveManager(
      m: Manager, k: nat, forked: nat, existing: seq<CompactBlock>, chain: nat -> CompactBlock, startBlock: nat,
      endBlock: nat, txHeights: set<nat>, batchSize: nat)
    requires batchSize > 0 && k <= forked <= |existing| <= endBlock <= startBlock
    requires ManagerAt(m, k, existing, chain, startBlock, endBlock, txHeights)
    requires |Held(m)| < startBlock + 1 - (endBlock - k)
    requires chain(startBlock - |Held(m)|).height == startBlock - |Held(m)|
    requires k < forked ==> existing[k].height == endBlock - 1 - k
    requires ReorgHeight(existing[k..], chain(endBlock - k)) == if k == forked then None else Some(endBlock - 1 - k)
    ensures var n := |Held(m)|;
            var result := OnBlock(m, chain(startBlock - n), batchSize);
            var last := startBlock - n == endBlock - k;
            var fork := last && k < forked;
            && result.Ok?
            && ManagerAt(result.value.0, if fork then k + 1 else k, existing, chain, startBlock, endBlock, txHeights)
            && |Held(result.value.0)| == n + 1
            && result.value.1 ==
               if fork then Some(Some(endBlock - k - 1)) else if last then Some(None) else None
  {
    hide OnBlock, ReorgHeight, Held, HoldsFrom;
    var block := chain(startBlock - |Held(m)|);
    if block.height != m.lastExpecting {
      OnOtherBlock(m, block, batchSize);
    } else if k == forked {
      OnJoiningBlock(m, block, batchSize);
    } else {
      OnForkingBlock(m, block, batchSize, endBlock - 1 - k);
      assert existing[k..][1..] == existing[k + 1..];
    }
    HeldGrows(m, block, batchSize);
    HoldsOneMore(m, OnBlock(m, block, batchSize).value.0, chain, startBlock);
  }

  /** The channels once a block was taken off and the manager has become `m`. */
  function Taken(s: State, m: Manager, reply: Option<Option<nat>>): State
    requires s.channel != []
  {
    var t := s.(manager := m, channel := s.channel[1..]);
    if reply.None? then t else t.(replies := s.replies + [reply.value], sent := s.sent + [reply.value])
  }

  lemma NextReceives(s: State, chain: nat -> CompactBlock, batchSize: nat)
    requires batchSize > 0 && s.channel != [] && !s.finished && s.fetcher.Serving?
    requires OnBlock(s.manager, s.channel[0], batchSize).Ok?
    ensures var (m, reply) := OnBlock(s.manager, s.channel[0], batchSize).value;
            Next(s, ReceiveBlock, chain, batchSize) == Some(Running(Taken(s, m, reply)))
  {
    hide OnBlock;
  }

  /** The channels' side of receiving block `startBlock - n`: it is not the one asked for, */
  lemma TakenStillAsking(
      s: State, m: Manager, n: nat, e: nat, chain: nat -> CompactBlock, startBlock: nat, endBlock: nat)
    requires Asking(s, n, e, chain, startBlock, endBlock) && s.channel != [] && startBlock - n != e
    ensures Asking(Taken(s, m, None), n + 1, e, chain, startBlock, endBlock)
  {
    assert s.replies == [];
    hide Messages, Heights;
  }

  /** or it joins the chains, */
  lemma TakenJoins(
      s: State, m: Manager, n: nat, e: nat, chain: nat -> CompactBlock, startBlock: nat, endBlock: nat)
    requires Asking(s, n, e, chain, startBlock, endBlock) && s.channel != [] && startBlock - n == e
    ensures Joined(Taken(s, m, Some(None)), n + 1, e, startBlock, endBlock)
  {
    assert s.replies == [];
    hide Messages;
  }

  /** or the block below has to be asked for. */
  lemma TakenForks(
      s: State, m: Manager, n: nat, e: nat, chain: nat -> CompactBlock, startBlock: nat, endBlock: nat)
    requires Asking(s, n, e, chain, startBlock, endBlock) && s.channel != [] && startBlock - n == e > 0
    ensures Asking(Taken(s, m, Some(Some(e - 1))), n + 1, e - 1, chain, startBlock, endBlock)
  {
    assert s.replies == [];
    assert Messages(endBlock, endBlock - e) + [Some(e - 1)] == Messages(endBlock, endBlock - (e - 1));
    hide Messages;
  }

  lemma ReceiveStep(
      s: State, k: nat, forked: nat, existing: seq<CompactBlock>, chain: nat -> CompactBlock, startBlock: nat,
      endBlock: nat, txHeights: set<nat>, batchSize: nat) returns (k': nat)
    requires batchSize > 0 && k <= forked <= |existing| <= endBlock <= startBlock
    requires Invariant(s, k, forked, existing, chain, startBlock, endBlock, txHeights)
    requires Next(s, ReceiveBlock, chain, batchSize).Some?
    requires var n := |Held(s.manager)|; n <= startBlock ==> chain(startBlock - n).height == startBlock - n
    requires k < forked ==> existing[k].height == endBlock - 1 - k
    requires ReorgHeight(existing[k..], chain(endBlock - k)) == if k == forked then None else Some(endBlock - 1 - k)
    ensures var t := Next(s, ReceiveBlock, chain, batchSize).value;
            t.Running? && Invariant(t.state, k', forked, existing, chain, startBlock, endBlock, txHeights)
  {
    hide OnBlock, ReorgHeight, ManagerAt, Asking, Joined, Next, Held;
    var n, e := |Held(s.manager)|, endBlock - k;
    CanReceive(s, k, forked, existing, chain, startBlock, endBlock, txHeights, batchSize);
    ReceiveManager(s.manager, k, forked, existing, chain, startBlock, endBlock, txHeights, batchSize);
    NextReceives(s, chain, batchSize);
    var m := OnBlock(s.manager, s.channel[0], batchSize).value.0;
    k' := k;
    if startBlock - n != e {
      TakenStillAsking(s, m, n, e, chain, startBlock, endBlock);
    } else if k == forked {
      TakenJoins(s, m, n, e, chain, startBlock, endBlock);
    } else {
      k' := k + 1;
      TakenForks(s, m, n, e, chain, startBlock, endBlock);
    }
  }

  /** A block can only be received while the chains have not joined, and it is the next one of the server's. */
  lemma CanReceive(
      s: State, k: nat, forked: nat, existing: seq<CompactBlock>, chain: nat -> CompactBlock, startBlock: nat,
      endBlock: nat, txHeights: set<nat>, batchSize: nat)
    requires batchSize > 0 && forked <= |existing| <= endBlock <= startBlock
    requires Invariant(s, k, forked, existing, chain, startBlock, endBlock, txHeights)
    requires Next(s, ReceiveBlock, chain, batchSize).Some?
    ensures var n := |Held(s.manager)|;
            && |s.sent| == k && Asking(s, n, endBlock - k, chain, startBlock, endBlock)
            && s.channel != [] && !s.finished && s.fetcher.Serving?
            && n < startBlock + 1 - (endBlock - k) && s.channel[0] == chain(startBlock - n)
  {
    hide OnBlock, Held, ManagerAt, Messages, Heights;
  }

  lemma OtherStep(
      s: State, a: Action, k: nat, forked: nat, existing: seq<CompactBlock>, chain: nat -> CompactBlock,
      startBlock: nat, endBlock: nat, txHeights: set<nat>, batchSize: nat)
    requires batchSize > 0 && forked <= |existing| <= endBlock <= startBlock
    requires Invariant(s, k, forked, existing, chain, startBlock, endBlock, txHeights)
    requires a != ReceiveBlock && Next(s, a, chain, batchSize).Some?
    ensures var t := Next(s, a, chain, batchSize).value;
            t.Running? && Invariant(t.state, k, forked, existing, chain, startBlock, endBlock, txHeights)
  {
    hide Heights, HoldsFrom, Messages;
    match a
    case SendBlock => SendKeepsAsking(s, |Held(s.manager)|, endBlock - k, chain, startBlock, endBlock, batchSize);
    case TakeReply =>
      if |s.sent| == k {
        ReplyKeepsAsking(s, |Held(s.manager)|, endBlock - k, chain, startBlock, endBlock, batchSize);
      }
    case CloseLoop => FinishHolds(s.manager, chain, startBlock);
  }

  /** Closing the loop only moves what is held. */
  lemma FinishHolds(m: Manager, chain: nat -> CompactBlock, startBlock: nat)
    ensures Held(FinishLoop(m)) == Held(m)
    ensures HoldsFrom(FinishLoop(m), chain, startBlock) <==> HoldsFrom(m, chain, startBlock)
  {
    assert Held(FinishLoop(m)) == Held(m);
  }

  lemma StepKeepsInvariant(
      s: State, a: Action, k: nat, existing: seq<CompactBlock>, chain: nat -> CompactBlock, startBlock: nat,
      endBlock: nat, txHeights: set<nat>, batchSize: nat) returns (k': nat)
    requires batchSize > 0 && Setup(existing, chain, startBlock, endBlock)
    requires Invariant(s, k, Forked(existing, chain), existing, chain, startBlock, endBlock, txHeights)
    requires Next(s, a, chain, batchSize).Some?
    ensures var t := Next(s, a, chain, batchSize).value;
            && t.Running?
            && Invariant(t.state, k', Forked(existing, chain), existing, chain, startBlock, endBlock, txHeights)
  {
    var forked := Forked(existing, chain);
    if a == ReceiveBlock {
      ReorgHeightDecides(existing, chain, startBlock, endBlock, k);
      k' := ReceiveStep(s, k, forked, existing, chain, startBlock, endBlock, txHeights, batchSize);
    } else {
      k' := k;
      OtherStep(s, a, k, forked, existing, chain, startBlock, endBlock, txHeights, batchSize);
    }
  }

  lemma {:induction false} RunKeepsInvariant(
      existing: seq<CompactBlock>, schedule: seq<Action>, chain: nat -> CompactBlock, startBlock: nat,
      endBlock: nat, txHeights: set<nat>, batchSize: nat) returns (k: nat)
    requires batchSize > 0 && Setup(existing, chain, startBlock, endBlock)
    requires Run(Start(existing, startBlock, endBlock, txHeights), schedule, chain, batchSize).Some?
    ensures var t := Run(Start(existing, startBlock, endBlock, txHeights), schedule, chain, batchSize).value;
            && t.Running?
            && Invariant(t.state, k, Forked(existing, chain), existing, chain, startBlock, endBlock, txHeights)
  {
    assert endBlock <= startBlock;
    hide Invariant, Next, Start, Setup, Forked;
    var s := Start(existing, startBlock, endBlock, txHeights);
    if schedule == [] {
      k := 0;
      StartInvariant(existing, chain, startBlock, endBlock, txHeights);
    } else {
      var before := schedule[..|schedule| - 1];
      k := RunKeepsInvariant(existing, before, chain, startBlock, endBlock, txHeights, batchSize);
      var t := Run(s, before, chain, batchSize).value.state;
      k := StepKeepsInvariant(
        t, schedule[|schedule| - 1], k, existing, chain, startBlock, endBlock, txHeights, batchSize);
    }
  }

  lemma StartInvariant(
      existing: seq<CompactBlock>, chain: nat -> CompactBlock, startBlock: nat, endBlock: nat, txHeights: set<nat>)
    requires Setup(existing, chain, startBlock, endBlock)
    ensures Invariant(
              Start(existing, startBlock, endBlock, txHeights), 0, Forked(existing, chain), existing, chain,
              startBlock, endBlock, txHeights)
  {
    hide Heights, Forked, Messages;
    assert existing[0..] == existing;
    assert Messages(endBlock, 0) == [];
    assert Held(Start(existing, startBlock, endBlock, txHeights).manager) == [] == Descending(
      chain, startBlock, startBlock + 1);
  }

  /** What the wallet keeps, below what was fetched, completes the server's chain. */
  lemma DrainedList(
      m: Manager, existing: seq<CompactBlock>, chain: nat -> CompactBlock, startBlock: nat, endBlock: nat,
      txHeights: set<nat>)
    requires Setup(existing, chain, startBlock, endBlock)
    requires ManagerAt(m, Forked(existing, chain), existing, chain, startBlock, endBlock, txHeights)
    requires m.unprocessed == [] && |Held(m)| == startBlock + 1 - (endBlock - Forked(existing, chain))
    ensures m.blocks + m.existing == Descending(chain, startBlock, Bottom(existing, endBlock))
  {
    hide Heights, Forked;
    var k := Forked(existing, chain);
    assert Held(m) == m.blocks;
    forall i | 0 <= i < |existing| - k ensures m.existing[i] == chain(endBlock - 1 - k - i) {
      AgreeBelowJoin(existing, chain, startBlock, endBlock, k + i);
    }
  }

  // ---- Main results

  /** Whatever the schedule, nothing panics, and when the manager's loop has ended: one reorg message was sent for
      each wallet block that differs from the server's, at heights falling by one, and then None; exactly the
      transactions below the reorged heights are left; and the drained list is the server's chain from `startBlock`
      down to the wallet's lowest height, cut to the `num` tallest. */
  lemma ExchangeJoinsTheChains(
      existing: seq<CompactBlock>, schedule: seq<Action>, chain: nat -> CompactBlock, startBlock: nat,
      endBlock: nat, txHeights: set<nat>, batchSize: nat, num: nat)
    requires batchSize > 0 && Setup(existing, chain, startBlock, endBlock)
    requires Run(Start(existing, startBlock, endBlock, txHeights), schedule, chain, batchSize).Some?
    ensures var t := Run(Start(existing, startBlock, endBlock, txHeights), schedule, chain, batchSize).value;
            && t.Running?
            && (t.state.finished ==>
                  var k := Forked(existing, chain);
                  && t.state.sent == Messages(endBlock, k) + [None]
                  && t.state.manager.earliest == Some(endBlock - k)
                  && t.state.manager.txHeights
                       == (if k == 0 then txHeights else set h | h in txHeights && h < endBlock - k)
                  && var all := Descending(chain, startBlock, Bottom(existing, endBlock));
                     Drain(t.state.manager, num) == if num <= |all| then all[..num] else all)
  {
    assert |existing| <= endBlock <= startBlock;
    hide Invariant, Run, Start, Setup, Forked, Drain, Descending, Messages, Bottom, WalletBlocks;
    var k := RunKeepsInvariant(existing, schedule, chain, startBlock, endBlock, txHeights, batchSize);
    var t := Run(Start(existing, startBlock, endBlock, txHeights), schedule, chain, batchSize).value.state;
    if t.finished {
      FinishedExchange(t, k, existing, chain, startBlock, endBlock, txHeights, num);
    }
  }

  lemma FinishedExchange(
      s: State, k: nat, existing: seq<CompactBlock>, chain: nat -> CompactBlock, startBlock: nat, endBlock: nat,
      txHeights: set<nat>, num: nat)
    requires Setup(existing, chain, startBlock, endBlock) && s.finished
    requires Invariant(s, k, Forked(existing, chain), existing, chain, startBlock, endBlock, txHeights)
    ensures var k := Forked(existing, chain);
            && s.sent == Messages(endBlock, k) + [None]
            && s.manager.earliest == Some(endBlock - k)
            && s.manager.txHeights == (if k == 0 then txHeights else set h | h in txHeights && h < endBlock - k)
    ensures var all := Descending(chain, startBlock, Bottom(existing, endBlock));
            Drain(s.manager, num) == if num <= |all| then all[..num] else all
  {
    hide Forked, Descending, Messages, Heights;
    DrainedList(s.manager, existing, chain, startBlock, endBlock, txHeights);
  }

  /** An upper bound on the actions left. */
  function Work(s: State): nat {
    (if s.fetcher.Serving? then 2 * |s.fetcher.todo| + 1 else 0)
    + |s.channel| + 5 * |s.manager.existing| + 3 * |s.replies|
    + (if s.sent != [] && s.sent[|s.sent| - 1].None? then 0 else 4)
    + (if s.finished then 0 else 1)
  }

  /** The exchange ends: every action uses up Work, and until the manager's loop has ended some action is enabled. */
  lemma ExchangeEnds(
      s: State, k: nat, existing: seq<CompactBlock>, chain: nat -> CompactBlock, startBlock: nat, endBlock: nat,
      txHeights: set<nat>, batchSize: nat)
    requires batchSize > 0 && Setup(existing, chain, startBlock, endBlock)
    requires Invariant(s, k, Forked(existing, chain), existing, chain, startBlock, endBlock, txHeights)
    ensures forall a :: Next(s, a, chain, batchSize).Some? && Next(s, a, chain, batchSize).value.Running? ==>
              Work(Next(s, a, chain, batchSize).value.state) < Work(s)
    ensures !s.finished ==> exists a :: Next(s, a, chain, batchSize).Some?
  {
    forall a | Next(s, a, chain, batchSize).Some? && Next(s, a, chain, batchSize).value.Running?
      ensures Work(Next(s, a, chain, batchSize).value.state) < Work(s)
    {
      ActionWork(s, a, |Held(s.manager)|, endBlock - k, chain, startBlock, endBlock, batchSize);
    }
    if !s.finished {
      var a := if s.channel != [] then ReceiveBlock
               else if s.fetcher.Stopped? then CloseLoop
               else if s.fetcher.todo != [] then SendBlock else TakeReply;
      assert Next(s, a, chain, batchSize).Some?;
    }
  }

  lemma ActionWork(
      s: State, a: Action, n: nat, e: nat, chain: nat -> CompactBlock, startBlock: nat, endBlock: nat, batchSize: nat)
    requires batchSize > 0
    requires Asking(s, n, e, chain, startBlock, endBlock) || Joined(s, n, e, startBlock, endBlock)
    requires Next(s, a, chain, batchSize).Some? && Next(s, a, chain, batchSize).value.Running?
    ensures Work(Next(s, a, chain, batchSize).value.state) < Work(s)
  {
  }
}
