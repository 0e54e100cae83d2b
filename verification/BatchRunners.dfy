/** Batched, asynchronous trial decryption.

    Outputs of many transactions are gathered into one batch; a full batch is handed to a thread pool. Each output
    carries a sender of its transaction's result channel, dropped once the output has been reported, and collecting
    a transaction's results reads its channel until every sender is gone. */
module BatchRunners {
  import opened Wrappers
  import opened CompactBlocks
  import opened TrialDecryption

  /** The key results are looked up by. */
  datatype ResultKey = ResultKey(blockHash: nat, txid: nat)

  /** An output in a batch together with its replier: its index and the channel it reports to. */
  datatype BatchItem = BatchItem(output: Output, index: nat, channel: nat)

  /** What a channel carries: the output index and the decrypted value. */
  datatype OutputIndex = OutputIndex(index: nat, value: DecryptedOutput)

  // ---- The runner's state as a value

  /** The fields of a BatchRunner, with the outputs `added` under each key that has not been collected yet and the key
      that owns each live channel. */
  datatype Ledger = Ledger(
    keys: PoolKeys, acc: seq<BatchItem>, running: seq<seq<BatchItem>>, pending: map<ResultKey, nat>,
    channels: seq<seq<OutputIndex>>, added: map<ResultKey, seq<Output>>, owner: map<nat, ResultKey>)

  /** An output still to be reported belongs to a live channel. */
  predicate Owned(l: Ledger, item: BatchItem) {
    && item.channel in l.owner
    && l.owner[item.channel] in l.added
    && item.index < |l.added[l.owner[item.channel]]|
    && item.output == l.added[l.owner[item.channel]][item.index]
  }

  predicate Outstanding(l: Ledger, item: BatchItem) {
    item in l.acc || exists i :: 0 <= i < |l.running| && item in l.running[i]
  }

  predicate Linked(l: Ledger, key: ResultKey) {
    && key in l.pending
    && key in l.added
    && l.pending[key] < |l.channels|
    && l.pending[key] in l.owner
    && l.owner[l.pending[key]] == key
  }

  /** Everything sent on `key`'s channel is right, and every decryptable output is sent or still to come. */
  predicate Accounted(l: Ledger, key: ResultKey)
    requires Linked(l, key)
  {
    var channel, outputs := l.pending[key], l.added[key];
    && (forall m :: m in l.channels[channel] ==>
          m.index < |outputs| && Decrypt(l.keys, outputs[m.index]) == Some(m.value))
    && (forall i :: 0 <= i < |outputs| && Decrypt(l.keys, outputs[i]).Some? ==>
          || OutputIndex(i, Decrypt(l.keys, outputs[i]).value) in l.channels[channel]
          || Outstanding(l, BatchItem(outputs[i], i, channel)))
  }

  ghost predicate ValidLedger(l: Ledger) {
    && l.added.Keys == l.pending.Keys
    && (forall key :: key in l.pending ==> Linked(l, key) && Accounted(l, key))
    && (forall c :: c in l.owner ==> l.owner[c] in l.pending && l.pending[l.owner[c]] == c)
    && (forall item :: Outstanding(l, item) ==> Owned(l, item))
  }

  /** What holds even after a key was used twice. */
  ghost predicate Bounded(l: Ledger) {
    && (forall item :: Outstanding(l, item) ==> item.channel < |l.channels|)
    && (forall key :: key in l.pending ==> l.pending[key] < |l.channels|)
  }

  function AddToBatch(l: Ledger, key: ResultKey, outputs: seq<Output>): Ledger {
    var channel := |l.channels|;
    l.(acc := l.acc + seq(|outputs|, i requires 0 <= i < |outputs| => BatchItem(outputs[i], i, channel)),
       pending := l.pending[key := channel], channels := l.channels + [[]],
       added := l.added[key := outputs], owner := l.owner[channel := key])
  }

  function StartBatch(l: Ledger): Ledger {
    if l.acc == [] then l else l.(acc := [], running := l.running + [l.acc])
  }

  /** The channel still has its receiver. */
  predicate Live(pending: map<ResultKey, nat>, channel: nat) {
    exists key :: key in pending && pending[key] == channel
  }

  /** Task `i` decrypts and reports its next output. If the receiver is gone, the task gives up the rest of its
      batch. */
  function ReportNext(l: Ledger, i: nat): Ledger
    requires i < |l.running| && l.running[i] != [] && l.running[i][0].channel < |l.channels|
  {
    var item := l.running[i][0];
    var rest := l.(running := l.running[i := l.running[i][1..]]);
    match Decrypt(l.keys, item.output)
    case None => rest
    case Some(value) =>
      if Live(l.pending, item.channel) then
        rest.(channels := l.channels[item.channel := l.channels[item.channel] + [OutputIndex(item.index, value)]])
      else l.(running := l.running[i := []])
  }

  function Forget(l: Ledger, key: ResultKey): Ledger
    requires key in l.pending
  {
    l.(pending := l.pending - {key}, added := l.added - {key}, owner := l.owner - {l.pending[key]})
  }

  /** A key whose channel and outputs are untouched stays accounted if none of its outputs gets lost. */
  lemma AccountedKept(l: Ledger, l': Ledger, key: ResultKey)
    requires Linked(l, key) && Linked(l', key) && Accounted(l, key)
    requires l'.keys == l.keys && l'.added[key] == l.added[key] && l'.pending[key] == l.pending[key]
    requires l'.channels[l.pending[key]] == l.channels[l.pending[key]]
    requires forall item: BatchItem :: item.channel == l.pending[key] && Outstanding(l, item) ==> Outstanding(l', item)
    ensures Accounted(l', key)
  {
  }

  lemma AddKeepsValid(l: Ledger, key: ResultKey, outputs: seq<Output>)
    requires ValidLedger(l) && key !in l.added
    ensures ValidLedger(AddToBatch(l, key, outputs))
  {
    var l' := AddToBatch(l, key, outputs);
    var channel := |l.channels|;
    var items := l'.acc[|l.acc|..];
    forall item | Outstanding(l, item) ensures Outstanding(l', item) && Owned(l', item) {
      assert Owned(l, item);
    }
    forall item | Outstanding(l', item) ensures Owned(l', item) {
      if !Outstanding(l, item) {
        assert item in items;
      }
    }
    forall k | k in l'.pending ensures Linked(l', k) && Accounted(l', k) {
      if k == key {
        forall i | 0 <= i < |outputs| ensures Outstanding(l', BatchItem(outputs[i], i, channel)) {
          assert l'.acc[|l.acc| + i] == BatchItem(outputs[i], i, channel);
        }
      } else {
        AccountedKept(l, l', k);
      }
    }
  }

  lemma StartKeepsValid(l: Ledger)
    requires ValidLedger(l)
    ensures ValidLedger(StartBatch(l))
  {
    var l' := StartBatch(l);
    if l.acc != [] {
      forall item ensures Outstanding(l', item) <==> Outstanding(l, item) {
        if item in l.acc {
          assert l'.running[|l.running|] == l.acc;
        } else if Outstanding(l, item) {
          var i :| 0 <= i < |l.running| && item in l.running[i];
          assert l'.running[i] == l.running[i];
        }
      }
      forall k | k in l'.pending ensures Linked(l', k) && Accounted(l', k) {
        assert Linked(l, k);
        AccountedKept(l, l', k);
      }
      forall item | Outstanding(l', item) ensures Owned(l', item) {
        assert Owned(l, item);
      }
    }
  }

  /** Reporting an output takes exactly it off the outstanding ones. */
  lemma ReportOutstanding(l: Ledger, i: nat, item: BatchItem)
    requires i < |l.running| && l.running[i] != [] && l.running[i][0].channel < |l.channels|
    requires Live(l.pending, l.running[i][0].channel)
    ensures Outstanding(ReportNext(l, i), item) ==> Outstanding(l, item)
    ensures Outstanding(l, item) ==> item == l.running[i][0] || Outstanding(ReportNext(l, i), item)
  {
    var l' := ReportNext(l, i);
    if item !in l.acc && Outstanding(l, item) {
      var j :| 0 <= j < |l.running| && item in l.running[j];
      assert item == l.running[i][0] || item in l'.running[j];
    }
    if item !in l.acc && Outstanding(l', item) {
      var j :| 0 <= j < |l'.running| && item in l'.running[j];
      assert item in l.running[j];
    }
  }

  lemma ReportKeepsValid(l: Ledger, i: nat)
    requires ValidLedger(l) && i < |l.running| && l.running[i] != []
    ensures l.running[i][0].channel < |l.channels| && ValidLedger(ReportNext(l, i))
  {
    var item := l.running[i][0];
    assert item in l.running[i] && Outstanding(l, item) && Owned(l, item);
    var key := l.owner[item.channel];
    assert Linked(l, key);
    assert Live(l.pending, item.channel);
    var l' := ReportNext(l, i);
    forall other | Outstanding(l', other) ensures Owned(l', other) {
      ReportOutstanding(l, i, other);
      assert Owned(l, other);
    }
    forall k | k in l'.pending ensures Linked(l', k) && Accounted(l', k) {
      assert Linked(l, k);
      if k == key {
        ReportAccounts(l, i, key);
      } else {
        assert l.pending[k] != item.channel;
        forall other: BatchItem | other.channel == l.pending[k] && Outstanding(l, other)
          ensures Outstanding(l', other)
        {
          ReportOutstanding(l, i, other);
        }
        AccountedKept(l, l', k);
      }
    }
  }

  lemma ReportKeepsBounded(l: Ledger, i: nat)
    requires Bounded(l) && i < |l.running| && l.running[i] != []
    ensures l.running[i][0].channel < |l.channels| && Bounded(ReportNext(l, i))
    ensures ReportNext(l, i).acc == l.acc
    ensures |ReportNext(l, i).running[i]| < |l.running[i]|
    ensures ReportNext(l, i).running == l.running[i := ReportNext(l, i).running[i]]
  {
    assert l.running[i][0] in l.running[i] && Outstanding(l, l.running[i][0]);
    var l' := ReportNext(l, i);
    forall item | Outstanding(l', item) ensures Outstanding(l, item) {
      if item !in l.acc {
        var j :| 0 <= j < |l'.running| && item in l'.running[j];
        assert item in l.running[j];
      }
    }
  }

  lemma AddKeepsBounded(l: Ledger, key: ResultKey, outputs: seq<Output>)
    requires Bounded(l)
    ensures Bounded(AddToBatch(l, key, outputs))
  {
    var l' := AddToBatch(l, key, outputs);
    forall item | Outstanding(l', item) ensures item.channel < |l'.channels| {
      if item in l'.acc && item !in l.acc {
        assert item in l'.acc[|l.acc|..];
      } else {
        assert Outstanding(l, item);
      }
    }
  }

  lemma StartKeepsBounded(l: Ledger)
    requires Bounded(l)
    ensures Bounded(StartBatch(l))
  {
    var l' := StartBatch(l);
    forall item | Outstanding(l', item) ensures Outstanding(l, item) {
      if item !in l'.acc {
        var i :| 0 <= i < |l'.running| && item in l'.running[i];
        assert i < |l.running| ==> item in l.running[i];
      }
    }
  }

  lemma ReportAccounts(l: Ledger, i: nat, key: ResultKey)
    requires Linked(l, key) && Accounted(l, key)
    requires i < |l.running| && l.running[i] != [] && l.running[i][0].channel == l.pending[key]
    requires Owned(l, l.running[i][0])
    ensures Accounted(ReportNext(l, i), key)
  {
    assert Live(l.pending, l.running[i][0].channel);
    var l' := ReportNext(l, i);
    var channel, outputs := l.pending[key], l.added[key];
    forall j | 0 <= j < |outputs| && Decrypt(l.keys, outputs[j]).Some?
      ensures OutputIndex(j, Decrypt(l.keys, outputs[j]).value) in l'.channels[channel]
           || Outstanding(l', BatchItem(outputs[j], j, channel))
    {
      ReportOutstanding(l, i, BatchItem(outputs[j], j, channel));
    }
  }

  /** Nothing is left to send on the key's channel. */
  predicate Complete(l: Ledger, key: ResultKey)
    requires key in l.pending
  {
    && (forall item :: item in l.acc ==> item.channel != l.pending[key])
    && (forall i :: 0 <= i < |l.running| ==> !UsesChannel(l.running[i], l.pending[key]))
  }

  predicate UsesChannel(items: seq<BatchItem>, channel: nat) {
    exists j :: 0 <= j < |items| && items[j].channel == channel
  }

  lemma ForgetKeepsValid(l: Ledger, key: ResultKey)
    requires ValidLedger(l) && key in l.pending && Complete(l, key)
    ensures ValidLedger(Forget(l, key))
  {
    var l' := Forget(l, key);
    assert Linked(l, key);
    forall item | Outstanding(l', item) ensures Owned(l', item) {
      assert Outstanding(l, item) && Owned(l, item);
      assert item.channel != l.pending[key];
    }
    forall k | k in l'.pending ensures Linked(l', k) && Accounted(l', k) {
      assert Linked(l, k);
      forall item | Outstanding(l, item) ensures Outstanding(l', item) {
      }
      AccountedKept(l, l', k);
    }
  }

  /** The channel's contents collected into a map. */
  function Received(txid: nat, messages: seq<OutputIndex>): (r: map<OutputId, DecryptedOutput>)
    ensures forall id :: id in r <==> id.txid == txid && exists m :: m in messages && m.index == id.outputIndex
    ensures forall id :: id in r ==> OutputIndex(id.outputIndex, r[id]) in messages
  {
    if messages == [] then map[]
    else
      var last := messages[|messages| - 1];
      Received(txid, messages[..|messages| - 1])[OutputId(txid, last.index) := last.value]
  }

  lemma ReceivedIsDirect(keys: PoolKeys, txid: nat, outputs: seq<Output>, messages: seq<OutputIndex>)
    requires forall m :: m in messages ==>
               m.index < |outputs| && Decrypt(keys, outputs[m.index]) == Some(m.value)
    requires forall i :: 0 <= i < |outputs| && Decrypt(keys, outputs[i]).Some? ==>
               OutputIndex(i, Decrypt(keys, outputs[i]).value) in messages
    ensures Received(txid, messages) == DirectDecryption(keys, txid, outputs)
  {
    var received, direct := Received(txid, messages), DirectDecryption(keys, txid, outputs);
    forall id | id in direct ensures id in received {
      assert OutputIndex(id.outputIndex, Decrypt(keys, outputs[id.outputIndex]).value) in messages;
    }
    forall id | id in received ensures id in direct && direct[id] == received[id] {
      assert OutputIndex(id.outputIndex, received[id]) in messages;
    }
  }

  /** Once nothing of a transaction is outstanding, its channel holds exactly the direct decryption. */
  lemma CompleteIsDirect(l: Ledger, key: ResultKey)
    requires ValidLedger(l) && key in l.pending && Complete(l, key)
    ensures Linked(l, key)
    ensures Received(key.txid, l.channels[l.pending[key]]) == DirectDecryption(l.keys, key.txid, l.added[key])
  {
    var channel, outputs := l.pending[key], l.added[key];
    assert Linked(l, key) && Accounted(l, key);
    forall i | 0 <= i < |outputs| && Decrypt(l.keys, outputs[i]).Some?
      ensures OutputIndex(i, Decrypt(l.keys, outputs[i]).value) in l.channels[channel]
    {
      assert !Outstanding(l, BatchItem(outputs[i], i, channel));
    }
    ReceivedIsDirect(l.keys, key.txid, outputs, l.channels[channel]);
  }

  // ---- The runner

  function TotalItems(running: seq<seq<BatchItem>>): nat {
    if running == [] then 0 else |running[0]| + TotalItems(running[1..])
  }

  lemma {:induction false} TotalItemsUpdate(running: seq<seq<BatchItem>>, i: nat, items: seq<BatchItem>)
    requires i < |running|
    ensures TotalItems(running[i := items]) + |running[i]| == TotalItems(running) + |items|
  {
    if i > 0 {
      TotalItemsUpdate(running[1..], i - 1, items);
      assert running[i := items][1..] == running[1..][i - 1 := items];
      assert running[1..][i - 1] == running[i];
    } else {
      assert running[i := items][1..] == running[1..];
    }
  }

  /** What collecting comes to: results, or a wait that never ends. */
  datatype CollectOutcome = Results(results: map<OutputId, DecryptedOutput>) | Blocks

  /** Outputs of the transaction are still in the batch being accumulated. */
  predicate WaitsFor(acc: seq<BatchItem>, pending: map<ResultKey, nat>, key: ResultKey) {
    key in pending && exists item :: item in acc && item.channel == pending[key]
  }

  class BatchRunner {
    const batchSizeThreshold: nat
    const keys: PoolKeys
    // The batch being accumulated.
    var acc: seq<BatchItem>
    // Batches on the thread pool; each holds the outputs it has still to report.
    var running: seq<seq<BatchItem>>
    // The receiving end of each transaction's channel.
    var pendingResults: map<ResultKey, nat>
    // What has been sent on each channel.
    var channels: seq<seq<OutputIndex>>

    ghost var added: map<ResultKey, seq<Output>>
    ghost var owner: map<nat, ResultKey>
    /** No key was used again before it was collected. */
    ghost var intact: bool

    ghost function View(): Ledger
      reads this
    {
      Ledger(keys, acc, running, pendingResults, channels, added, owner)
    }

    ghost predicate Valid()
      reads this
    {
      Bounded(View()) && (intact ==> ValidLedger(View()))
    }

    constructor (threshold: nat, poolKeys: PoolKeys)
      ensures Valid() && intact && added == map[] && pendingResults == map[] && acc == [] && running == []
      ensures batchSizeThreshold == threshold && keys == poolKeys
    {
      batchSizeThreshold, keys := threshold, poolKeys;
      acc, running, pendingResults, channels := [], [], map[], [];
      added, owner, intact := map[], map[], true;
    }

    /** Gathers a transaction's outputs under its key, and starts the batch if it is now full. A key used again takes
        the place of the earlier one, whose receiver is lost. */
    method AddOutputs(blockHash: nat, txid: nat, outputs: seq<Output>)
      requires Valid()
      modifies this
      ensures Valid() && added == old(added)[ResultKey(blockHash, txid) := outputs]
      ensures intact == (old(intact) && ResultKey(blockHash, txid) !in old(pendingResults))
      ensures var gathered := AddToBatch(old(View()), ResultKey(blockHash, txid), outputs);
              View() == if |gathered.acc| >= batchSizeThreshold then StartBatch(gathered) else gathered
      ensures |acc| < batchSizeThreshold || acc == []
    {
      Gather(ResultKey(blockHash, txid), outputs);
      if |acc| >= batchSizeThreshold {
        Flush();
      }
    }

    method Gather(key: ResultKey, outputs: seq<Output>)
      requires Valid()
      modifies this
      ensures Valid() && View() == AddToBatch(old(View()), key, outputs)
      ensures intact == (old(intact) && key !in old(pendingResults))
    {
      assert intact ==> added.Keys == pendingResults.Keys;
      hide ValidLedger, Bounded;
      var channel := |channels|;
      AddKeepsBounded(View(), key, outputs);
      intact := intact && key !in pendingResults;
      if intact {
        AddKeepsValid(View(), key, outputs);
      }
      acc := acc + seq(|outputs|, i requires 0 <= i < |outputs| => BatchItem(outputs[i], i, channel));
      channels := channels + [[]];
      pendingResults := pendingResults[key := channel];
      added := added[key := outputs];
      owner := owner[channel := key];
      assert View() == AddToBatch(old(View()), key, outputs);
    }

    /** Hands the accumulated batch to the thread pool. */
    method Flush()
      requires Valid()
      modifies this
      ensures Valid() && View() == StartBatch(old(View())) && intact == old(intact) && acc == []
    {
      StartKeepsBounded(View());
      if intact {
        StartKeepsValid(View());
      }
      if acc != [] {
        var batch := acc;
        acc := [];
        running := running + [batch];
      }
      assert View() == StartBatch(old(View()));
    }

    /** The thread pool makes progress: task `i` decrypts and reports its next output. */
    method RunTask(i: nat)
      requires Valid() && i < |running| && running[i] != []
      modifies this`running, this`channels
      ensures Valid() && View() == ReportNext(old(View()), i)
      ensures |running[i]| < |old(running)[i]| && running == old(running)[i := running[i]]
      ensures var item := old(running)[i][0];
              var found := exists tag :: tag in keys.tags && keys.decrypts(tag, item.output).Some?;
              var live := exists key :: key in pendingResults && pendingResults[key] == item.channel;
              && running[i] == (if found && !live then [] else old(running)[i][1..])
              && item.channel < |old(channels)| && (!found || !live ==> channels == old(channels))
              && (found && live ==>
                    exists k: nat, d ::
                      && FirstToDecrypt(keys.tags, keys.decrypts, item.output, k, d)
                      && channels == old(channels)[item.channel := old(channels)[item.channel]
                                                                     + [OutputIndex(item.index, d)]])
    {
      ReportKeepsBounded(View(), i);
      if intact {
        ReportKeepsValid(View(), i);
      }
      var item := running[i][0];
      var result := Decrypt(keys, item.output);
      AllKeysAreTried(keys, item.output);
      if result.Some? && !Live(pendingResults, item.channel) {
        running := running[i := []];
        return;
      }
      running := running[i := running[i][1..]];
      if result.Some? {
        channels := channels[item.channel := channels[item.channel] + [OutputIndex(item.index, result.value)]];
      }
      assert View() == ReportNext(old(View()), i);
    }

    /** Waits until every sender of the channel is gone; any unfinished task may be the next to make progress. */
    method AwaitSenders(key: ResultKey)
      requires Valid() && key in pendingResults
      requires forall item :: item in acc ==> item.channel != pendingResults[key]
      modifies this`running, this`channels
      ensures Valid() && Complete(View(), key)
    {
      var channel := pendingResults[key];
      while exists i :: 0 <= i < |running| && UsesChannel(running[i], channel)
        invariant Valid()
        decreases TotalItems(running)
      {
        var next :| 0 <= next < |running| && running[next] != [];
        ghost var before := running;
        RunTask(next);
        TotalItemsUpdate(before, next, running[next]);
      }
    }

    /** Whatever the threshold, the grouping and the order in which batches ran, the results are exactly the
        transaction's outputs decrypted one by one, as long as no key was used twice. The call never returns if some of
        the outputs are still in the unflushed batch. */
    method CollectResults(blockHash: nat, txid: nat) returns (r: CollectOutcome)
      requires Valid()
      modifies this
      ensures r.Blocks? <==> WaitsFor(old(acc), old(pendingResults), ResultKey(blockHash, txid))
      ensures r.Blocks? ==> View() == old(View()) && Valid()
      ensures r.Results? ==>
                && Valid() && acc == old(acc) && intact == old(intact)
                && added == old(added) - {ResultKey(blockHash, txid)}
                && (forall id :: id in r.results ==> id.txid == txid)
                && (intact ==>
                      r.results == if ResultKey(blockHash, txid) in old(added)
                                   then DirectDecryption(keys, txid, old(added)[ResultKey(blockHash, txid)])
                                   else map[])
                && (intact && ResultKey(blockHash, txid) in old(added) ==>
                      var outputs := old(added)[ResultKey(blockHash, txid)];
                      && (forall i: nat :: OutputId(txid, i) in r.results <==>
                            && i < |outputs|
                            && exists tag :: tag in keys.tags && keys.decrypts(tag, outputs[i]).Some?)
                      && (forall i: nat :: OutputId(txid, i) in r.results ==>
                            exists k: nat ::
                              FirstToDecrypt(keys.tags, keys.decrypts, outputs[i], k, r.results[OutputId(txid, i)])))
    {
      var key := ResultKey(blockHash, txid);
      hide Accounted, Owned, FirstToDecrypt, DirectDecryption;
      if key !in pendingResults {
        added := added - {key};
        assert intact ==> View() == old(View());
        return Results(map[]);
      }
      if exists item :: item in acc && item.channel == pendingResults[key] {
        return Blocks;
      }
      AwaitSenders(key);
      var results := DropReceiver(key);
      if intact {
        DirectlyDecrypted(keys, txid, old(added)[key]);
      }
      r := Results(results);
    }

    /** Reads a finished channel into a map and removes its receiver. */
    method DropReceiver(key: ResultKey) returns (results: map<OutputId, DecryptedOutput>)
      requires Valid() && key in pendingResults && Complete(View(), key)
      modifies this`pendingResults, this`added, this`owner
      ensures Valid() && added == old(added) - {key} && forall id :: id in results ==> id.txid == key.txid
      ensures intact ==> key in old(added) && results == DirectDecryption(keys, key.txid, old(added)[key])
    {
      ghost var before := View();
      if intact {
        CompleteIsDirect(before, key);
        ForgetKeepsValid(before, key);
      }
      results := Received(key.txid, channels[pendingResults[key]]);
      owner := owner - {pendingResults[key]};
      pendingResults := pendingResults - {key};
      added := added - {key};
      assert View() == Forget(before, key);
      assert forall item :: Outstanding(View(), item) <==> Outstanding(before, item);
    }
  }
}
