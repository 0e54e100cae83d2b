/** Merging the transactions of all transparent addresses into height order. Each address has its own channel of
    responses; the first error on a channel, like its closing, ends it. */
module TaddrMerge {
  import opened Wrappers

  const U64_MAX: nat := 0xFFFF_FFFF_FFFF_FFFF

  type Height = h: nat | h <= U64_MAX

  datatype RawTransaction = RawTransaction(height: Height, data: nat)

  type Response = Result<RawTransaction, string>

  datatype Panic = UnwrapOnNone

  /** What a channel delivers before its first error. */
  function Received(responses: seq<Response>): (r: seq<RawTransaction>)
    ensures |r| <= |responses| && forall i :: 0 <= i < |r| ==> responses[i] == Ok(r[i])
    ensures |r| < |responses| ==> responses[|r|].Err?
  {
    if responses == [] || responses[0].Err? then [] else [responses[0].value] + Received(responses[1..])
  }

  predicate InRange(tx: RawTransaction, startHeight: nat, endHeight: nat) {
    endHeight <= tx.height <= startHeight
  }

  predicate Sorted(txs: seq<RawTransaction>) {
    forall i, j :: 0 <= i < j < |txs| ==> txs[i].height <= txs[j].height
  }

  function Count(txs: seq<RawTransaction>, tx: RawTransaction): (n: nat)
    ensures n == multiset(txs)[tx]
  {
    assert txs != [] ==> txs == [txs[0]] + txs[1..];
    if txs == [] then 0 else Count(txs[1..], tx) + if txs[0] == tx then 1 else 0
  }

  /** How often a transaction occurs in the first `n` lists together. */
  function CountAll(lists: seq<seq<RawTransaction>>, n: nat, tx: RawTransaction): nat
    requires n <= |lists|
  {
    if n == 0 then 0 else CountAll(lists, n - 1, tx) + Count(lists[n - 1], tx)
  }

  function Lengths(lists: seq<seq<RawTransaction>>, n: nat): nat
    requires n <= |lists|
  {
    if n == 0 then 0 else Lengths(lists, n - 1) + |lists[n - 1]|
  }

  function AllReceived(streams: seq<seq<Response>>): (r: seq<seq<RawTransaction>>)
    ensures |r| == |streams|
    ensures forall i {:trigger r[i]} :: 0 <= i < |r| ==> r[i] == Received(streams[i])
  {
    seq(|streams|, i requires 0 <= i < |streams| => Received(streams[i]))
  }

  /** A channel other than the first delivers a transaction of the greatest height there is. */
  predicate MaxHeightPastFirst(lists: seq<seq<RawTransaction>>) {
    exists i, k :: 1 <= i < |lists| && 0 <= k < |lists[i]| && lists[i][k].height == U64_MAX
  }

  // ---- One step of the merge

  /** A fold from (U64_MAX, 0) ends at the first of the lowest tops, or where it began. */
  predicate Lowest(tops: seq<Option<RawTransaction>>, height: Height, idx: nat) {
    && (forall i :: 0 <= i < |tops| && tops[i].Some? ==> height <= tops[i].value.height)
    && if height == U64_MAX then idx == 0
       else idx < |tops| && tops[idx].Some? && tops[idx].value.height == height
            && forall j :: 0 <= j < idx && tops[j].Some? ==> height < tops[j].value.height
  }

  method LowestTop(tops: array<Option<RawTransaction>>) returns (height: Height, idx: nat)
    ensures Lowest(tops[..], height, idx)
    ensures forall i :: 0 <= i < tops.Length && tops[i].Some? ==> height <= tops[i].value.height
    ensures height < U64_MAX ==>
              && idx < tops.Length && tops[idx].Some? && tops[idx].value.height == height
              && forall j :: 0 <= j < idx && tops[j].Some? ==> height < tops[j].value.height
    ensures height == U64_MAX ==> idx == 0
  {
    height, idx := U64_MAX, 0;
    for i := 0 to tops.Length
      invariant Lowest(tops[..i], height, idx)
    {
      assert tops[..i + 1] == tops[..i] + [tops[i]];
      if tops[i].Some? && tops[i].value.height < height {
        height, idx := tops[i].value.height, i;
      }
    }
    assert tops[..tops.Length] == tops[..];
  }

  /** What a channel still owes: the transaction already taken off it, and what follows. */
  function Left(top: Option<RawTransaction>, rest: seq<Response>): seq<RawTransaction> {
    if top.None? then [] else [top.value] + Received(rest)
  }

  /** Takes the next response off a channel; an error or a closed channel gives None. */
  method Receive(responses: array<seq<Response>>, i: nat) returns (top: Option<RawTransaction>)
    requires i < responses.Length
    modifies responses
    ensures forall j :: 0 <= j < responses.Length && j != i ==> responses[j] == old(responses[j])
    ensures Left(top, responses[i]) == Received(old(responses[i]))
  {
    if responses[i] == [] {
      return None;
    }
    var response := responses[i][0];
    responses[i] := responses[i][1..];
    top := if response.Ok? then Some(response.value) else None;
  }

  lemma {:induction false} CountAllTail(lists: seq<seq<RawTransaction>>, idx: nat, n: nat, tx: RawTransaction)
    requires idx < |lists| && lists[idx] != [] && n <= |lists|
    ensures CountAll(lists[idx := lists[idx][1..]], n, tx)
              == CountAll(lists, n, tx) - if idx < n && lists[idx][0] == tx then 1 else 0
  {
    if n > 0 {
      CountAllTail(lists, idx, n - 1, tx);
    }
  }

  lemma {:induction false} LengthsTail(lists: seq<seq<RawTransaction>>, idx: nat, n: nat)
    requires idx < |lists| && lists[idx] != [] && n <= |lists|
    ensures Lengths(lists[idx := lists[idx][1..]], n) == Lengths(lists, n) - if idx < n then 1 else 0
  {
    if n > 0 {
      LengthsTail(lists, idx, n - 1);
    }
  }

  lemma {:induction false} CountAppend(txs: seq<RawTransaction>, last: RawTransaction, tx: RawTransaction)
    ensures Count(txs + [last], tx) == Count(txs, tx) + if last == tx then 1 else 0
  {
    if txs != [] {
      assert (txs + [last])[1..] == txs[1..] + [last];
      CountAppend(txs[1..], last, tx);
    }
  }

  lemma {:induction false} NothingLeft(lists: seq<seq<RawTransaction>>, n: nat, tx: RawTransaction)
    requires n <= |lists| && forall i :: 0 <= i < |lists| ==> lists[i] == []
    ensures CountAll(lists, n, tx) == 0
  {
    if n > 0 {
      NothingLeft(lists, n - 1, tx);
    }
  }

  // ---- The merge as a state: what is sent, and what is left of each channel

  /** Sent so far and still to come make up all that was received, within the range. */
  ghost predicate Balanced(
      all: seq<seq<RawTransaction>>, sent: seq<RawTransaction>, left: seq<seq<RawTransaction>>, startHeight: nat,
      endHeight: nat)
  {
    forall tx :: Count(sent, tx) ==
      if InRange(tx, startHeight, endHeight) then CountAll(all, |all|, tx) - CountAll(left, |left|, tx) else 0
  }

  /** Nothing left lies below what was sent. */
  predicate InOrder(sent: seq<RawTransaction>, left: seq<seq<RawTransaction>>) {
    && Sorted(sent)
    && (forall i :: 0 <= i < |left| ==> Sorted(left[i]))
    && forall s, i :: 0 <= s < |sent| && 0 <= i < |left| && left[i] != [] ==> sent[s].height <= left[i][0].height
  }

  function Sent(sent: seq<RawTransaction>, tx: RawTransaction, startHeight: nat, endHeight: nat): seq<RawTransaction> {
    if InRange(tx, startHeight, endHeight) then sent + [tx] else sent
  }

  lemma TakeKeepsBalance(
      all: seq<seq<RawTransaction>>, sent: seq<RawTransaction>, left: seq<seq<RawTransaction>>, idx: nat,
      startHeight: nat, endHeight: nat)
    requires Balanced(all, sent, left, startHeight, endHeight) && idx < |left| && left[idx] != []
    ensures Balanced(all, Sent(sent, left[idx][0], startHeight, endHeight), left[idx := left[idx][1..]], startHeight,
              endHeight)
  {
    hide Count, CountAll;
    var after, taken := left[idx := left[idx][1..]], Sent(sent, left[idx][0], startHeight, endHeight);
    forall tx
      ensures Count(taken, tx) ==
              if InRange(tx, startHeight, endHeight) then CountAll(all, |all|, tx) - CountAll(after, |after|, tx) else 0
    {
      CountAllTail(left, idx, |left|, tx);
      CountAppend(sent, left[idx][0], tx);
    }
  }

  lemma TakeKeepsOrder(
      sent: seq<RawTransaction>, left: seq<seq<RawTransaction>>, idx: nat, startHeight: nat, endHeight: nat)
    requires InOrder(sent, left) && idx < |left| && left[idx] != []
    requires forall i :: 0 <= i < |left| && left[i] != [] ==> left[idx][0].height <= left[i][0].height
    ensures InOrder(Sent(sent, left[idx][0], startHeight, endHeight), left[idx := left[idx][1..]])
  {
  }

  lemma TakeKeepsMax(left: seq<seq<RawTransaction>>, idx: nat)
    requires idx < |left| && left[idx] != [] && (idx == 0 || left[idx][0].height < U64_MAX)
    ensures MaxHeightPastFirst(left[idx := left[idx][1..]]) <==> MaxHeightPastFirst(left)
  {
    var after := left[idx := left[idx][1..]];
    if MaxHeightPastFirst(left) {
      var i, k :| 1 <= i < |left| && 0 <= k < |left[i]| && left[i][k].height == U64_MAX;
      var m := if i == idx then k - 1 else k;
      assert after[i][m] == left[i][k];
    }
    if MaxHeightPastFirst(after) {
      var i, k :| 1 <= i < |after| && 0 <= k < |after[i]| && after[i][k].height == U64_MAX;
      var m := if i == idx then k + 1 else k;
      assert left[i][m] == after[i][k];
    }
  }

  /** `left` is what the channels and the transactions taken off them still owe. */
  ghost predicate Owed(
      tops: seq<Option<RawTransaction>>, responses: seq<seq<Response>>, left: seq<seq<RawTransaction>>)
  {
    && |tops| == |responses| == |left|
    && forall i :: 0 <= i < |left| ==> left[i] == Left(tops[i], responses[i])
  }

  lemma OwedHeads(tops: seq<Option<RawTransaction>>, responses: seq<seq<Response>>, left: seq<seq<RawTransaction>>)
    requires Owed(tops, responses, left)
    ensures Heads(tops, left)
  {
  }

  lemma OwedStep(
      tops: seq<Option<RawTransaction>>, responses: seq<seq<Response>>, left: seq<seq<RawTransaction>>, idx: nat,
      top: Option<RawTransaction>, rest: seq<Response>)
    requires Owed(tops, responses, left) && idx < |tops| && tops[idx].Some?
    requires Left(top, rest) == Received(responses[idx])
    ensures left[idx] != [] && Owed(tops[idx := top], responses[idx := rest], left[idx := left[idx][1..]])
  {
  }

  /** All that is known of a finished merge. */
  ghost predicate Merged(all: seq<seq<RawTransaction>>, sent: seq<RawTransaction>, startHeight: nat, endHeight: nat) {
    && (forall tx ::
          Count(sent, tx) == if endHeight <= tx.height <= startHeight then CountAll(all, |all|, tx) else 0)
    && (AllSorted(all) ==> Sorted(sent))
  }

  /** Takes the first response off every channel. */
  method FirstTops(responses: array<seq<Response>>) returns (tops: array<Option<RawTransaction>>)
    modifies responses
    ensures fresh(tops) && tops.Length == responses.Length
    ensures Owed(tops[..], responses[..], AllReceived(old(responses[..])))
  {
    hide Owed, Received, Left;
    ghost var streams, n := responses[..], responses.Length;
    ghost var all := AllReceived(streams);
    tops := new Option<RawTransaction>[responses.Length](_ => None);
    OwedNone();
    for i := 0 to responses.Length
      invariant Owed(tops[..i], responses[..i], all[..i])
      invariant forall j :: i <= j < n ==> responses[j] == streams[j]
    {
      ghost var before := responses[..i];
      tops[i] := Receive(responses, i);
      assert responses[..i] == before;
      OwedAppend(tops[..i], responses[..i], all[..i], tops[i], responses[i], all[i]);
      assert all[..i + 1] == all[..i] + [all[i]];
      assert tops[..i + 1] == tops[..i] + [tops[i]] && responses[..i + 1] == responses[..i] + [responses[i]];
    }
    assert tops[..n] == tops[..] && responses[..n] == responses[..] && all[..n] == all;
  }

  /** The unwrap of a missing transaction is reached exactly when a channel past the first delivers the height the fold
      starts from; otherwise what is sent is every transaction received within the range, as often as it was received,
      in height order if each channel was. */
  method Merge(streams: seq<seq<Response>>, startHeight: nat, endHeight: nat)
    returns (r: Result<seq<RawTransaction>, Panic>)
    ensures r.Err? <==> MaxHeightPastFirst(AllReceived(streams))
    ensures r.Ok? ==> Merged(AllReceived(streams), r.value, startHeight, endHeight)
  {
    hide Received, Lengths, MaxHeightPastFirst, Owed, Merging, Lowest, Merged, Left, Sent;
    var responses := new seq<Response>[|streams|](i requires 0 <= i < |streams| => streams[i]);
    assert responses[..] == streams;
    var tops := FirstTops(responses);
    ghost var all := AllReceived(streams);
    ghost var left := all;
    var sent := [];
    StartMerging(tops[..], responses[..], all, startHeight, endHeight);
    var more := AnySome(tops);
    while more
      invariant Merging(all, tops[..], responses[..], sent, left, startHeight, endHeight)
      invariant more <==> exists j :: 0 <= j < tops.Length && tops[j].Some?
      decreases Lengths(left, |left|), more
    {
      var _, idx := LowestTop(tops);
      if tops[idx].None? {
        OnlyMaxLeft(all, tops[..], responses[..], sent, left, idx, startHeight, endHeight);
        return Err(UnwrapOnNone);
      }
      var transaction := tops[idx].value;
      ghost var before, rest := tops[..], responses[..];
      tops[idx] := Receive(responses, idx);
      MergeStep(all, before, rest, sent, left, idx, tops[idx], responses[idx], startHeight, endHeight);
      assert tops[..] == before[idx := tops[idx]] && responses[..] == rest[idx := responses[idx]];
      left := left[idx := left[idx][1..]];
      SentInRange(sent, transaction, startHeight, endHeight);
      if transaction.height <= startHeight && transaction.height >= endHeight {
        sent := sent + [transaction];
      }
      more := AnySome(tops);
    }
    AllTaken(all, tops[..], responses[..], sent, left, startHeight, endHeight);
    return Ok(sent);
  }

  lemma OwedNone()
    ensures Owed([], [], [])
  {
  }

  lemma OwedAppend(
      tops: seq<Option<RawTransaction>>, responses: seq<seq<Response>>, left: seq<seq<RawTransaction>>,
      top: Option<RawTransaction>, rest: seq<Response>, more: seq<RawTransaction>)
    requires Owed(tops, responses, left) && more == Left(top, rest)
    ensures Owed(tops + [top], responses + [rest], left + [more])
  {
  }

  method AnySome(tops: array<Option<RawTransaction>>) returns (any: bool)
    ensures any <==> exists j :: 0 <= j < tops.Length && tops[j].Some?
  {
    for i := 0 to tops.Length
      invariant forall j :: 0 <= j < i ==> tops[j].None?
    {
      if tops[i].Some? {
        return true;
      }
    }
    return false;
  }

  lemma SentInRange(sent: seq<RawTransaction>, tx: RawTransaction, startHeight: nat, endHeight: nat)
    ensures Sent(sent, tx, startHeight, endHeight)
              == if tx.height <= startHeight && tx.height >= endHeight then sent + [tx] else sent
  {
  }

  /** What every pass of the merge keeps. */
  ghost predicate Merging(
      all: seq<seq<RawTransaction>>, tops: seq<Option<RawTransaction>>, responses: seq<seq<Response>>,
      sent: seq<RawTransaction>, left: seq<seq<RawTransaction>>, startHeight: nat, endHeight: nat)
  {
    && Owed(tops, responses, left)
    && Balanced(all, sent, left, startHeight, endHeight)
    && (AllSorted(all) ==> InOrder(sent, left))
    && (MaxHeightPastFirst(left) <==> MaxHeightPastFirst(all))
  }

  predicate AllSorted(lists: seq<seq<RawTransaction>>) {
    forall i :: 0 <= i < |lists| ==> Sorted(lists[i])
  }

  lemma StartMerging(
      tops: seq<Option<RawTransaction>>, responses: seq<seq<Response>>, all: seq<seq<RawTransaction>>,
      startHeight: nat, endHeight: nat)
    requires Owed(tops, responses, all)
    ensures Merging(all, tops, responses, [], all, startHeight, endHeight)
  {
    hide Owed;
  }

  /** The tops are the heads of what is left. */
  predicate Heads(tops: seq<Option<RawTransaction>>, left: seq<seq<RawTransaction>>) {
    && |tops| == |left|
    && forall i :: 0 <= i < |tops| ==>
         (tops[i].None? <==> left[i] == []) && (tops[i].Some? ==> left[i][0] == tops[i].value)
  }

  /** The lowest top is sent, if in range, and replaced by what its channel delivers next. */
  lemma MergeStep(
      all: seq<seq<RawTransaction>>, tops: seq<Option<RawTransaction>>, responses: seq<seq<Response>>,
      sent: seq<RawTransaction>, left: seq<seq<RawTransaction>>, idx: nat, top: Option<RawTransaction>,
      rest: seq<Response>, startHeight: nat, endHeight: nat)
    requires Merging(all, tops, responses, sent, left, startHeight, endHeight) && idx < |tops| && tops[idx].Some?
    requires exists height: Height :: Lowest(tops, height, idx)
    requires idx < |responses| && Left(top, rest) == Received(responses[idx])
    ensures |left| == |tops| && left[idx] != []
    ensures var after := left[idx := left[idx][1..]];
            && Merging(all, tops[idx := top], responses[idx := rest],
                       Sent(sent, tops[idx].value, startHeight, endHeight), after, startHeight, endHeight)
            && Lengths(after, |after|) == Lengths(left, |left|) - 1
  {
    hide Balanced, InOrder, MaxHeightPastFirst, Lengths, AllSorted, Owed, Left, Received, Sent;
    OwedHeads(tops, responses, left);
    OwedStep(tops, responses, left, idx, top, rest);
    LengthsTail(left, idx, |left|);
    TakeKeepsBalance(all, sent, left, idx, startHeight, endHeight);
    TakeKeepsMax(left, idx);
    if AllSorted(all) {
      TakeKeepsOrder(sent, left, idx, startHeight, endHeight);
    }
  }

  lemma OnlyMaxLeft(
      all: seq<seq<RawTransaction>>, tops: seq<Option<RawTransaction>>, responses: seq<seq<Response>>,
      sent: seq<RawTransaction>, left: seq<seq<RawTransaction>>, idx: nat, startHeight: nat, endHeight: nat)
    requires Merging(all, tops, responses, sent, left, startHeight, endHeight) && idx < |tops| && tops[idx].None?
    requires exists height: Height :: Lowest(tops, height, idx)
    requires exists j :: 0 <= j < |tops| && tops[j].Some?
    ensures MaxHeightPastFirst(all)
  {
    hide Balanced, InOrder, Owed;
    OwedHeads(tops, responses, left);
    var j :| 0 <= j < |tops| && tops[j].Some?;
    assert left[j][0].height == U64_MAX;
  }

  lemma AllTaken(
      all: seq<seq<RawTransaction>>, tops: seq<Option<RawTransaction>>, responses: seq<seq<Response>>,
      sent: seq<RawTransaction>, left: seq<seq<RawTransaction>>, startHeight: nat, endHeight: nat)
    requires Merging(all, tops, responses, sent, left, startHeight, endHeight)
    requires forall i :: 0 <= i < |tops| ==> tops[i].None?
    ensures Merged(all, sent, startHeight, endHeight) && !MaxHeightPastFirst(all)
  {
    hide Count, CountAll, Owed;
    OwedHeads(tops, responses, left);
    forall tx ensures CountAll(left, |left|, tx) == 0 {
      NothingLeft(left, |left|, tx);
    }
  }

  // ---- The order check downstream

  datatype Dispatch = Dispatched(txs: seq<RawTransaction>) | WrongOrder(was: Height, prev: Height)

  /** Passes transactions on until one is lower than its predecessor. */
  method DispatchInOrder(received: seq<RawTransaction>) returns (r: Dispatch)
    ensures r.Dispatched? <==> Sorted(received)
    ensures r.Dispatched? ==> r.txs == received
    ensures r.WrongOrder? ==>
              exists i :: 0 < i < |received| && received[i].height == r.was < r.prev == received[i - 1].height
  {
    var prevHeight: Height := 0;
    var txs := [];
    for i := 0 to |received|
      invariant txs == received[..i] && Sorted(received[..i])
      invariant i > 0 ==> prevHeight == received[i - 1].height
      invariant i == 0 ==> prevHeight == 0
    {
      if received[i].height < prevHeight {
        return WrongOrder(received[i].height, prevHeight);
      }
      prevHeight := received[i].height;
      txs := txs + [received[i]];
    }
    assert received[..|received|] == received;
    return Dispatched(txs);
  }

  /** Both halves together: from channels in height order below the greatest height, the order check never fails and
      every transaction received in the range is dispatched. */
  method FetchTaddrTransactions(streams: seq<seq<Response>>, startHeight: nat, endHeight: nat) returns (r: Dispatch)
    requires forall i :: 0 <= i < |streams| ==> Sorted(Received(streams[i]))
    requires !MaxHeightPastFirst(AllReceived(streams))
    ensures r.Dispatched? && Sorted(r.txs)
    ensures forall tx :: Count(r.txs, tx) ==
              if endHeight <= tx.height <= startHeight then CountAll(AllReceived(streams), |streams|, tx) else 0
  {
    hide Count, CountAll, Received, Sorted, MaxHeightPastFirst;
    var merged := Merge(streams, startHeight, endHeight);
    r := DispatchInOrder(merged.value);
  }
}
