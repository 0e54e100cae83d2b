/** Broadcasting created transactions: cached transactions are recorded as Calculated, sent one by one, and marked
    Transmitted as the server accepts them. */
module Broadcast {
  import opened Wrappers
  import opened Sequences
  import opened TransactionStatus

  type TxId = nat

  datatype CachedTx = CachedTx(txid: TxId, raw: nat)

  datatype BroadcastError = HeightUnknown | NoSpendCapability | ServerError(message: string)

  /** `cache` is None without spend capability; `accepted` is what the server has accepted so far, in order. */
  datatype State = State(cache: Option<seq<CachedTx>>, records: map<TxId, Status>, accepted: seq<TxId>)

  /** What the server says to the `i`th cached transaction: the id it reports, if it is readable, or an error. */
  type Server = nat -> Result<Option<TxId>, string>

  // ---- The loop over the cache

  /** How far a pass over the cache got. */
  datatype Pass = Pass(records: map<TxId, Status>, accepted: seq<TxId>, txids: seq<TxId>, error: Option<string>)

  function ReportedId(txid: TxId, reported: Option<TxId>, preferReported: bool): TxId {
    if reported.Some? && preferReported then reported.value else txid
  }

  /** One cached transaction: sent only if it is recorded as Calculated. */
  function PassStep(
      before: Pass, txid: TxId, answer: Result<Option<TxId>, string>, height: nat, preferReported: bool): Pass
  {
    if before.error.Some? || txid !in before.records || !before.records[txid].Calculated? then before
    else
      match answer
      case Ok(reported) =>
        Pass(before.records[txid := Transmitted(height + 1)], before.accepted + [txid],
             before.txids + [ReportedId(txid, reported, preferReported)], None)
      case Err(message) => before.(error := Some(message))
  }

  /** After the first `n` cached transactions; an error ends the pass. */
  function PassOver(
      state: State, cache: seq<CachedTx>, n: nat, server: Server, height: nat, preferReported: bool): Pass
    requires n <= |cache|
  {
    if n == 0 then Pass(state.records, state.accepted, [], None)
    else
      PassStep(PassOver(state, cache, n - 1, server, height, preferReported), cache[n - 1].txid, server(n - 1), height,
               preferReported)
  }

  function Broadcasted(state: State, height: Option<nat>, server: Server, preferReported: bool)
    : (State, Result<seq<TxId>, BroadcastError>)
  {
    if height.None? then (state, Err(HeightUnknown))
    else if state.cache.None? then (state, Err(NoSpendCapability))
    else
      var cache := state.cache.value;
      var pass := PassOver(state, cache, |cache|, server, height.value, preferReported);
      if pass.error.Some? then (State(state.cache, pass.records, pass.accepted), Err(ServerError(pass.error.value)))
      else (State(Some([]), pass.records, pass.accepted), Ok(pass.txids))
  }

  /** Marks every cached transaction Calculated again, confirmed ones excepted. */
  function RecordedFirst(records: map<TxId, Status>, cache: seq<CachedTx>, n: nat, height: nat): map<TxId, Status>
    requires n <= |cache|
  {
    if n == 0 then records
    else
      var before := RecordedFirst(records, cache, n - 1, height);
      var txid := cache[n - 1].txid;
      if txid in before && before[txid].Confirmed? then before else before[txid := Calculated(height + 1)]
  }

  class Wallet {
    var cache: Option<seq<CachedTx>>
    var records: map<TxId, Status>
    var accepted: seq<TxId>

    constructor (state: State)
      ensures Current() == state
    {
      cache, records, accepted := state.cache, state.records, state.accepted;
    }

    function Current(): State
      reads this
    {
      State(cache, records, accepted)
    }

    method StoreTransaction(tx: CachedTx) returns (ok: bool)
      modifies this`cache
      ensures ok == old(cache).Some?
      ensures cache == if ok then Some(old(cache).value + [tx]) else None
    {
      if cache.None? {
        return false;
      }
      cache := Some(cache.value + [tx]);
      ok := true;
    }

    method RecordCreatedTransactions(height: Option<nat>) returns (r: Result<seq<TxId>, BroadcastError>)
      modifies this`records
      ensures r.Ok? <==> height.Some? && cache.Some?
      ensures r.Err? ==> records == old(records)
      ensures r.Ok? ==>
                && records == RecordedFirst(old(records), cache.value, |cache.value|, height.value)
                && |r.value| == |cache.value| && forall i :: 0 <= i < |r.value| ==> r.value[i] == cache.value[i].txid
    {
      if height.None? {
        return Err(HeightUnknown);
      }
      if cache.None? {
        return Err(NoSpendCapability);
      }
      var txids: seq<TxId> := [];
      for i := 0 to |cache.value|
        invariant records == RecordedFirst(old(records), cache.value, i, height.value)
        invariant |txids| == i && forall k :: 0 <= k < i ==> txids[k] == cache.value[k].txid
      {
        var txid := cache.value[i].txid;
        if !(txid in records && records[txid].Confirmed?) {
          records := records[txid := Calculated(height.value + 1)];
        }
        txids := txids + [txid];
      }
      return Ok(txids);
    }

    method BroadcastCreatedTransactions(height: Option<nat>, server: Server, preferReported: bool)
      returns (r: Result<seq<TxId>, BroadcastError>)
      modifies this
      ensures (Current(), r) == Broadcasted(old(Current()), height, server, preferReported)
    {
      if height.None? {
        return Err(HeightUnknown);
      }
      if cache.None? {
        return Err(NoSpendCapability);
      }
      var calculatedTxCache := cache.value;
      var txids: seq<TxId> := [];
      for i := 0 to |calculatedTxCache|
        invariant cache == old(cache)
        invariant PassOver(old(Current()), calculatedTxCache, i, server, height.value, preferReported)
               == Pass(records, accepted, txids, None)
      {
        var txid := calculatedTxCache[i].txid;
        if txid in records && records[txid].Calculated? {
          match server(i)
          case Ok(reported) =>
            accepted := accepted + [txid];
            txids := txids + [ReportedId(txid, reported, preferReported)];
            records := records[txid := Transmitted(height.value + 1)];
          case Err(message) =>
            ErrorStands(
              old(Current()), calculatedTxCache, i + 1, |calculatedTxCache|, server, height.value, preferReported);
            return Err(ServerError(message));
        }
      }
      cache := Some([]);
      return Ok(txids);
    }
  }

  lemma {:induction false} ErrorStands(
      state: State, cache: seq<CachedTx>, n: nat, m: nat, server: Server, height: nat, preferReported: bool)
    requires n <= m <= |cache| && PassOver(state, cache, n, server, height, preferReported).error.Some?
    ensures PassOver(state, cache, m, server, height, preferReported)
              == PassOver(state, cache, n, server, height, preferReported)
  {
    if n < m {
      ErrorStands(state, cache, n, m - 1, server, height, preferReported);
    }
  }

  // ---- One call

  /** Statuses only move from Calculated to Transmitted, and exactly the transactions that moved were newly accepted,
      each once. */
  ghost predicate MovedForward(before: State, after: State, height: nat) {
    && before.accepted <= after.accepted
    && after.records.Keys == before.records.Keys
    && Distinct(after.accepted[|before.accepted|..])
    && forall txid :: txid in before.records ==>
         if txid in after.accepted[|before.accepted|..]
         then before.records[txid].Calculated? && after.records[txid] == Transmitted(height + 1)
         else after.records[txid] == before.records[txid]
  }

  lemma DistinctAppend(txids: seq<TxId>, txid: TxId)
    requires Distinct(txids) && txid !in txids
    ensures Distinct(txids + [txid])
  {
  }

  /** How a pass stands after `n` transactions: everything moved forward, and while there was no error nothing before it
      is waiting. */
  ghost predicate PassStands(state: State, cache: seq<CachedTx>, n: nat, pass: Pass, height: nat)
    requires n <= |cache|
  {
    && MovedForward(state, State(state.cache, pass.records, pass.accepted), height)
    && (forall txid :: txid in pass.accepted[|state.accepted|..] ==> txid in state.records)
    && (pass.error.None? ==> forall i :: 0 <= i < n ==> Settled(pass.records, cache[i].txid))
    && (pass.error.Some? ==> exists i :: 0 <= i < n && !Settled(pass.records, cache[i].txid))
  }

  lemma StepStands(
      state: State, cache: seq<CachedTx>, n: nat, before: Pass, answer: Result<Option<TxId>, string>, height: nat,
      preferReported: bool)
    requires n < |cache| && PassStands(state, cache, n, before, height)
    ensures PassStands(state, cache, n + 1, PassStep(before, cache[n].txid, answer, height, preferReported), height)
  {
    var txid := cache[n].txid;
    if before.error.None? && !Settled(before.records, txid) {
      if answer.Ok? {
        var sentNow := before.accepted[|state.accepted|..];
        assert (before.accepted + [txid])[|state.accepted|..] == sentNow + [txid];
        DistinctAppend(sentNow, txid);
      } else {
        assert !Settled(before.records, cache[n].txid);
      }
    }
  }

  lemma {:induction false} PassMovesForward(
      state: State, cache: seq<CachedTx>, n: nat, server: Server, height: nat, preferReported: bool)
    requires n <= |cache|
    ensures PassStands(state, cache, n, PassOver(state, cache, n, server, height, preferReported), height)
  {
    if n > 0 {
      hide PassStands, PassStep;
      PassMovesForward(state, cache, n - 1, server, height, preferReported);
      StepStands(
        state, cache, n - 1, PassOver(state, cache, n - 1, server, height, preferReported), server(n - 1), height,
        preferReported);
    }
  }

  /** Not waiting to be sent: unknown to the records, or past Calculated. */
  predicate Settled(records: map<TxId, Status>, txid: TxId) {
    txid in records ==> !records[txid].Calculated?
  }

  /** The cache is cleared exactly when the call succeeds, and then nothing that was in it is still waiting; a server
      error keeps the whole cache, with something in it still waiting. */
  lemma BroadcastOutcome(state: State, height: Option<nat>, server: Server, preferReported: bool)
    ensures var (after, r) := Broadcasted(state, height, server, preferReported);
            && MovedForward(state, after, if height.Some? then height.value else 0)
            && (r.Ok? ==>
                  state.cache.Some? && after.cache == Some([])
                  && forall i :: 0 <= i < |state.cache.value| ==> Settled(after.records, state.cache.value[i].txid))
            && (r.Err? ==> after.cache == state.cache)
            && (r.Err? && r.error.ServerError? ==>
                  state.cache.Some?
                  && exists i :: 0 <= i < |state.cache.value| && !Settled(after.records, state.cache.value[i].txid))
  {
    hide PassOver;
    if height.Some? && state.cache.Some? {
      PassMovesForward(state, state.cache.value, |state.cache.value|, server, height.value, preferReported);
    }
  }

  /** What the answer to sending the cached transaction `txid` adds to the ids reported: the server's, if it is readable
      and preferred, else its own. */
  predicate Reports(answer: Result<Option<TxId>, string>, txid: TxId, preferReported: bool, id: TxId) {
    && answer.Ok?
    && (answer.value.Some? && preferReported ==> id == answer.value.value)
    && (answer.value.None? || !preferReported ==> id == txid)
  }

  /** How a pass got to `stop`: those it had accepted, and the ids it reports for them, are the cached transactions at
      `sentAt`, in their order. */
  ghost predicate PassReaches(
      state: State, cache: seq<CachedTx>, server: Server, preferReported: bool, pass: Pass, sentAt: seq<nat>, stop: nat)
  {
    && stop <= |cache| && state.accepted <= pass.accepted
    && |sentAt| == |pass.txids| == |pass.accepted| - |state.accepted|
    && (forall k :: 0 <= k < |sentAt| ==> sentAt[k] < stop)
    && (forall j, k :: 0 <= j < k < |sentAt| ==> sentAt[j] < sentAt[k])
    && (forall k :: 0 <= k < |sentAt| ==>
          && pass.accepted[|state.accepted| + k] == cache[sentAt[k]].txid
          && Reports(server(sentAt[k]), cache[sentAt[k]].txid, preferReported, pass.txids[k]))
  }

  lemma ReachesOneMore(
      state: State, cache: seq<CachedTx>, n: nat, server: Server, height: nat, preferReported: bool, before: Pass,
      sentAt: seq<nat>)
    returns (longer: seq<nat>, stop: nat)
    requires n < |cache| && before.error.None? && PassReaches(state, cache, server, preferReported, before, sentAt, n)
    ensures var pass := PassStep(before, cache[n].txid, server(n), height, preferReported);
            && PassReaches(state, cache, server, preferReported, pass, longer, stop)
            && stop == (if pass.error.None? then n + 1 else n)
            && (pass.error.Some? ==> server(n) == Err(pass.error.value) && pass.records == before.records)
  {
    longer, stop := sentAt, n + 1;
    if !Settled(before.records, cache[n].txid) {
      if server(n).Ok? {
        longer := sentAt + [n];
      } else {
        stop := n;
      }
    }
  }

  lemma {:induction false} PassReported(
      state: State, cache: seq<CachedTx>, n: nat, server: Server, height: nat, preferReported: bool)
    returns (sentAt: seq<nat>, stop: nat)
    requires n <= |cache|
    ensures var pass := PassOver(state, cache, n, server, height, preferReported);
            && PassReaches(state, cache, server, preferReported, pass, sentAt, stop) && stop <= n
            && (pass.error.None? ==> stop == n)
            && (pass.error.Some? ==> stop < n && server(stop) == Err(pass.error.value))
            && forall i :: 0 <= i < stop ==> Settled(pass.records, cache[i].txid)
  {
    hide PassStep, MovedForward;
    if n == 0 {
      sentAt, stop := [], 0;
    } else {
      sentAt, stop := PassReported(state, cache, n - 1, server, height, preferReported);
      PassMovesForward(state, cache, n, server, height, preferReported);
      var before := PassOver(state, cache, n - 1, server, height, preferReported);
      if before.error.None? {
        sentAt, stop := ReachesOneMore(state, cache, n - 1, server, height, preferReported, before, sentAt);
      } else {
        ErrorStands(state, cache, n - 1, n, server, height, preferReported);
      }
    }
  }

  /** A call sends the waiting transactions of the cache in their order and reports one id for each, up to the end of
      the cache or the first the server refuses, whose message is the error; nothing before that is left waiting. */
  lemma BroadcastSendsInOrder(state: State, height: nat, server: Server, preferReported: bool)
    returns (sentAt: seq<nat>, stop: nat)
    requires state.cache.Some?
    ensures var cache, (after, r) := state.cache.value, Broadcasted(state, Some(height), server, preferReported);
            && stop <= |cache| && state.accepted <= after.accepted
            && |sentAt| == |after.accepted| - |state.accepted|
            && (forall k :: 0 <= k < |sentAt| ==>
                  sentAt[k] < stop && after.accepted[|state.accepted| + k] == cache[sentAt[k]].txid)
            && (forall j, k :: 0 <= j < k < |sentAt| ==> sentAt[j] < sentAt[k])
            && (forall i :: 0 <= i < stop ==> Settled(after.records, cache[i].txid))
            && (r.Ok? ==>
                  && stop == |cache| && |r.value| == |sentAt|
                  && forall k :: 0 <= k < |sentAt| ==>
                       && server(sentAt[k]).Ok?
                       && r.value[k] == if server(sentAt[k]).value.Some? && preferReported
                                        then server(sentAt[k]).value.value else cache[sentAt[k]].txid)
            && (r.Err? ==> stop < |cache| && server(stop).Err? && r == Err(ServerError(server(stop).error)))
  {
    sentAt, stop := PassReported(
      state, state.cache.value, |state.cache.value|, server, height, preferReported);
  }

  // ---- Any number of calls

  /** Whatever was accepted was accepted once and is not waiting to be sent, whether or not it is still on record. */
  ghost predicate NeverTwice(state: State) {
    Distinct(state.accepted) && forall txid :: txid in state.accepted ==> Settled(state.records, txid)
  }

  lemma BroadcastKeepsNeverTwice(state: State, height: Option<nat>, server: Server, preferReported: bool)
    requires NeverTwice(state)
    ensures NeverTwice(Broadcasted(state, height, server, preferReported).0)
  {
    hide Broadcasted, PassOver;
    BroadcastOutcome(state, height, server, preferReported);
    AcceptedAreRecorded(state, height, server, preferReported);
    var after := Broadcasted(state, height, server, preferReported).0;
    var sent := after.accepted[|state.accepted|..];
    assert after.accepted == state.accepted + sent;
    forall i, j | 0 <= i < j < |after.accepted| ensures after.accepted[i] != after.accepted[j] {
      if i < |state.accepted| <= j {
        assert after.accepted[j] in sent && after.accepted[i] in state.accepted;
      } else if |state.accepted| <= i {
        assert sent[i - |state.accepted|] != sent[j - |state.accepted|];
      }
    }
  }

  lemma AcceptedAreRecorded(state: State, height: Option<nat>, server: Server, preferReported: bool)
    ensures var after := Broadcasted(state, height, server, preferReported).0;
            |state.accepted| <= |after.accepted|
            && forall txid :: txid in after.accepted[|state.accepted|..] ==> txid in state.records
  {
    hide PassOver;
    if height.Some? && state.cache.Some? {
      PassMovesForward(state, state.cache.value, |state.cache.value|, server, height.value, preferReported);
    }
  }

  lemma {:induction false} RecordedStatus(
      records: map<TxId, Status>, cache: seq<CachedTx>, n: nat, height: nat, txid: TxId)
    requires n <= |cache|
    ensures var after := RecordedFirst(records, cache, n, height);
            var cached := exists i :: 0 <= i < n && cache[i].txid == txid;
            && (txid in after <==> txid in records || cached)
            && (txid in after ==>
                  after[txid] == if cached && !(txid in records && records[txid].Confirmed?) then Calculated(height + 1)
                                 else records[txid])
  {
    if n > 0 {
      RecordedStatus(records, cache, n - 1, height, txid);
    }
  }

  /** Nothing in the cache has been accepted before, unless it is mined by now. */
  predicate FreshCache(state: State) {
    state.cache.Some? ==> forall i :: 0 <= i < |state.cache.value| ==>
      var txid := state.cache.value[i].txid;
      txid in state.accepted ==> txid in state.records && state.records[txid].Confirmed?
  }

  function Recorded(state: State, height: nat): State {
    if state.cache.None? then state
    else state.(records := RecordedFirst(state.records, state.cache.value, |state.cache.value|, height))
  }

  /** Recording is safe exactly on a fresh cache. */
  lemma RecordKeepsNeverTwiceIffFresh(state: State, height: nat)
    requires NeverTwice(state)
    ensures NeverTwice(Recorded(state, height)) <==> FreshCache(state)
  {
    hide RecordedFirst;
    if state.cache.Some? {
      var cache, after := state.cache.value, Recorded(state, height);
      forall txid ensures Restated(state, height, txid) {
        RecordedStatus(state.records, cache, |cache|, height, txid);
      }
      if FreshCache(state) {
        forall txid | txid in state.accepted ensures Settled(after.records, txid) {
          assert Restated(state, height, txid);
        }
      } else {
        var i :| 0 <= i < |cache| && cache[i].txid in state.accepted
          && !(cache[i].txid in state.records && state.records[cache[i].txid].Confirmed?);
        assert Restated(state, height, cache[i].txid);
      }
    }
  }

  ghost predicate Restated(state: State, height: nat, txid: TxId)
    requires state.cache.Some?
  {
    var cache, after := state.cache.value, Recorded(state, height).records;
    var cached := exists i :: 0 <= i < |cache| && cache[i].txid == txid;
    && (txid in after <==> txid in state.records || cached)
    && (txid in after ==>
          after[txid] ==
          if cached && !(txid in state.records && state.records[txid].Confirmed?) then Calculated(height + 1)
          else state.records[txid])
  }

  // ---- When recording and broadcasting again sends something twice

  /** A server that accepts everything, reporting no id. */
  function AcceptAll(): Server {
    i => Ok(None)
  }

  /** From such a server a pass accepts, in order, every cached transaction still waiting when its turn comes. */
  lemma {:induction false} AcceptAllSends(state: State, cache: seq<CachedTx>, n: nat, height: nat, txid: TxId)
    requires n <= |cache|
    ensures var pass := PassOver(state, cache, n, AcceptAll(), height, false);
            && pass.error.None? && state.accepted <= pass.accepted
            && (txid in pass.accepted[|state.accepted|..] <==>
                  !Settled(state.records, txid) && exists i :: 0 <= i < n && cache[i].txid == txid)
  {
    if n > 0 {
      AcceptAllSends(state, cache, n - 1, height, txid);
      AcceptAllStep(state, cache, n, height, txid);
    }
  }

  lemma AcceptAllStep(state: State, cache: seq<CachedTx>, n: nat, height: nat, txid: TxId)
    requires 0 < n <= |cache|
    requires var before := PassOver(state, cache, n - 1, AcceptAll(), height, false);
             && before.error.None? && state.accepted <= before.accepted
             && (txid in before.accepted[|state.accepted|..] <==>
                   !Settled(state.records, txid) && exists i :: 0 <= i < n - 1 && cache[i].txid == txid)
    ensures var pass := PassOver(state, cache, n, AcceptAll(), height, false);
            && pass.error.None? && state.accepted <= pass.accepted
            && (txid in pass.accepted[|state.accepted|..] <==>
                  !Settled(state.records, txid) && exists i :: 0 <= i < n && cache[i].txid == txid)
  {
    var before := PassOver(state, cache, n - 1, AcceptAll(), height, false);
    var pass := PassOver(state, cache, n, AcceptAll(), height, false);
    var next := cache[n - 1].txid;
    PassMovesForward(state, cache, n - 1, AcceptAll(), height, false);
    hide PassOver;
    assert pass == PassStep(before, next, Ok(None), height, false) by {
      PassOverStep(state, cache, n, height);
    }
    if !Settled(before.records, next) {
      assert pass.accepted[|state.accepted|..] == before.accepted[|state.accepted|..] + [next];
    }
  }

  lemma PassOverStep(state: State, cache: seq<CachedTx>, n: nat, height: nat)
    requires 0 < n <= |cache|
    ensures PassOver(state, cache, n, AcceptAll(), height, false)
         == PassStep(
              PassOver(state, cache, n - 1, AcceptAll(), height, false), cache[n - 1].txid, Ok(None), height, false)
  {
  }

  /** Nothing is accepted twice once the cache was recorded and broadcast. */
  predicate AllDistinctAfter(state: State, recordHeight: nat, height: nat, server: Server, preferReported: bool) {
    Distinct(Broadcasted(Recorded(state, recordHeight), Some(height), server, preferReported).0.accepted)
  }

  /** Recording the cache and broadcasting it is safe against every server exactly when nothing in the cache was
      accepted before, mined transactions excepted. */
  lemma ResentIffStale(state: State, recordHeight: nat, height: nat)
    requires NeverTwice(state) && state.cache.Some?
    ensures FreshCache(state) <==>
              forall server, preferReported ::
                AllDistinctAfter(state, recordHeight, height, server, preferReported)
  {
    hide Broadcasted, RecordedFirst, FreshCache, PassOver;
    if FreshCache(state) {
      forall server, preferReported
        ensures AllDistinctAfter(state, recordHeight, height, server, preferReported)
      {
        RecordKeepsNeverTwiceIffFresh(state, recordHeight);
        BroadcastKeepsNeverTwice(Recorded(state, recordHeight), Some(height), server, preferReported);
      }
    } else {
      StaleIsResent(state, recordHeight, height);
    }
  }

  lemma StaleIsResent(state: State, recordHeight: nat, height: nat)
    requires state.cache.Some? && !FreshCache(state)
    ensures !AllDistinctAfter(state, recordHeight, height, AcceptAll(), false)
  {
    var cache, recorded := state.cache.value, Recorded(state, recordHeight);
    var i :| 0 <= i < |cache| && cache[i].txid in state.accepted
      && !(cache[i].txid in state.records && state.records[cache[i].txid].Confirmed?);
    var txid := cache[i].txid;
    RecordedStatus(state.records, cache, |cache|, recordHeight, txid);
    AcceptAllSends(recorded, cache, |cache|, height, txid);
    hide PassOver, RecordedFirst;
    var after := Broadcasted(recorded, Some(height), AcceptAll(), false).0.accepted;
    var k :| 0 <= k < |state.accepted| && state.accepted[k] == txid;
    var j :| 0 <= j < |after[|state.accepted|..]| && after[|state.accepted|..][j] == txid;
    assert after[k] == txid && after[|state.accepted| + j] == txid;
  }

  /** On its way to the chain. */
  predicate Underway(status: Status) {
    status.Transmitted? || status.Mempool?
  }

  /** No cached transaction is on record as on its way to the chain. */
  predicate NoneUnderway(state: State) {
    state.cache.Some? ==> forall i :: 0 <= i < |state.cache.value| ==>
      var txid := state.cache.value[i].txid;
      txid in state.records ==> !Underway(state.records[txid])
  }

  /** No cached transaction was accepted and then struck off the records, by a reorg, a failed batch or its expiry. */
  predicate NoneForgotten(state: State) {
    state.cache.Some? ==> forall i :: 0 <= i < |state.cache.value| ==>
      var txid := state.cache.value[i].txid;
      txid in state.accepted ==> txid in state.records
  }

  /** A status on the way to the chain was earned: the server accepted the transaction. */
  predicate UnderwayWasAccepted(state: State) {
    forall txid :: txid in state.records && Underway(state.records[txid]) ==> txid in state.accepted
  }

  /** Where such statuses are earned, recording and broadcasting can send a transaction twice if and only if some cached
      one is on record as Transmitted or Mempool, or was accepted and is not on record any more. */
  lemma ResentIffUnderwayOrForgotten(state: State, recordHeight: nat, height: nat)
    requires NeverTwice(state) && state.cache.Some? && UnderwayWasAccepted(state)
    ensures NoneUnderway(state) && NoneForgotten(state) <==>
              forall server, preferReported ::
                AllDistinctAfter(state, recordHeight, height, server, preferReported)
  {
    hide Broadcasted, Recorded;
    ResentIffStale(state, recordHeight, height);
    if NoneUnderway(state) && NoneForgotten(state) {
      assert FreshCache(state);
    } else {
      assert !FreshCache(state);
    }
  }

  /** What a caller can look up before creating a transaction: everything left in the cache is on record, and nothing of
      it is on its way to the chain. An empty cache is the usual case. */
  predicate CacheAccountedFor(state: State) {
    state.cache.Some? ==> forall i :: 0 <= i < |state.cache.value| ==>
      var txid := state.cache.value[i].txid;
      txid in state.records && !Underway(state.records[txid])
  }

  /** From such a cache, new transactions can be stored, recorded and broadcast without anything being sent twice. */
  lemma AccountedCacheIsSafe(
      state: State, created: seq<CachedTx>, recordHeight: nat, height: nat, server: Server, preferReported: bool)
    requires NeverTwice(state) && state.cache.Some? && CacheAccountedFor(state)
    requires forall i :: 0 <= i < |created| ==> created[i].txid !in state.accepted
    ensures AllDistinctAfter(
              state.(cache := Some(state.cache.value + created)), recordHeight, height, server, preferReported)
  {
    hide Broadcasted, Recorded, AllDistinctAfter;
    var longer := state.(cache := Some(state.cache.value + created));
    forall i | 0 <= i < |longer.cache.value| && longer.cache.value[i].txid in longer.accepted
      ensures longer.cache.value[i].txid in longer.records && longer.records[longer.cache.value[i].txid].Confirmed?
    {
      assert i < |state.cache.value| && longer.cache.value[i] == state.cache.value[i];
      assert Settled(state.records, state.cache.value[i].txid);
    }
    ResentIffStale(longer, recordHeight, height);
  }

  /** Once records were struck off, no look at the wallet can decide: two runs from one wallet, in which the server
      accepted `a` or refused it, end with the same cache and records, and recording and broadcasting again sends
      something twice in the first and never does in the second. */
  lemma TheWalletCannotTell(a: TxId, b: TxId, height: nat)
    requires a != b
    ensures var calculated := Calculated(height + 1);
            var start := State(Some([CachedTx(a, 0), CachedTx(b, 1)]), map[a := calculated, b := calculated], []);
            var accepting, refusing := Struck(start, a, b, height, 1), Struck(start, a, b, height, 0);
            && NeverTwice(accepting) && NeverTwice(refusing)
            && accepting.cache == refusing.cache && accepting.records == refusing.records
            && !AllDistinctAfter(accepting, height, height, AcceptAll(), false)
            && forall server, preferReported :: AllDistinctAfter(refusing, height, height, server, preferReported)
  {
    var calculated := Calculated(height + 1);
    var cache := [CachedTx(a, 0), CachedTx(b, 1)];
    var records := map[a := calculated, b := calculated];
    var start := State(Some(cache), records, []);
    assert PassOver(start, cache, 1, AcceptsFirst(0), height, false) == Pass(records, [], [], Some("down"));
    assert PassOver(start, cache, 2, AcceptsFirst(0), height, false) == Pass(records, [], [], Some("down"));
    assert PassOver(start, cache, 1, AcceptsFirst(1), height, false)
             == Pass(records[a := Transmitted(height + 1)], [a], [a], None);
    assert PassOver(start, cache, 2, AcceptsFirst(1), height, false)
             == Pass(records[a := Transmitted(height + 1)], [a], [a], Some("down"));
    assert Struck(start, a, b, height, 0) == State(Some(cache), map[], []);
    assert Struck(start, a, b, height, 1) == State(Some(cache), map[], [a]);
    assert cache[0].txid == a;
    StaleIsResent(Struck(start, a, b, height, 1), height, height);
    ResentIffStale(Struck(start, a, b, height, 0), height, height);
  }

  /** A server that goes down after `n` transactions. */
  function AcceptsFirst(n: nat): Server {
    i => if i < n then Ok(None) else Err("down")
  }

  /** A broadcast to such a server, after which `a` and `b` are struck off the records. */
  function Struck(state: State, a: TxId, b: TxId, height: nat, n: nat): State {
    var after := Broadcasted(state, Some(height), AcceptsFirst(n), false).0;
    Next(Next(after, Removes(a)), Removes(b))
  }

  /** What can happen to a wallet: a broadcast, a recording on a fresh cache, a new transaction entering the cache,
      another task putting a transaction on record with some status past Calculated, or striking one off the records. */
  datatype Event =
    | Broadcasts(height: Option<nat>, server: Server, preferReported: bool)
    | Records(recordHeight: nat)
    | Stores(tx: CachedTx)
    | Moves(txid: TxId, status: Status)
    | Removes(txid: TxId)

  predicate Allowed(state: State, event: Event) {
    match event
    case Broadcasts(_, _, _) => true
    case Records(_) => FreshCache(state)
    case Stores(_) => true
    case Moves(_, status) => !status.Calculated?
    case Removes(_) => true
  }

  function Next(state: State, event: Event): State {
    match event
    case Broadcasts(height, server, preferReported) => Broadcasted(state, height, server, preferReported).0
    case Records(height) => Recorded(state, height)
    case Stores(tx) => if state.cache.None? then state else state.(cache := Some(state.cache.value + [tx]))
    case Moves(txid, status) => state.(records := state.records[txid := status])
    case Removes(txid) => state.(records := state.records - {txid})
  }

  ghost predicate Run(state: State, events: seq<Event>, n: nat)
    requires n <= |events|
  {
    n == 0 || (Run(state, events, n - 1) && Allowed(After(state, events, n - 1), events[n - 1]))
  }

  function After(state: State, events: seq<Event>, n: nat): State
    requires n <= |events|
  {
    if n == 0 then state else Next(After(state, events, n - 1), events[n - 1])
  }

  /** However often the server fails and wherever, no transaction is accepted twice, and what was accepted stays
      accepted. */
  lemma {:induction false} NoTransactionIsSentTwice(state: State, events: seq<Event>, n: nat)
    requires NeverTwice(state) && n <= |events| && Run(state, events, n)
    ensures NeverTwice(After(state, events, n)) && state.accepted <= After(state, events, n).accepted
  {
    hide FreshCache, Recorded, Broadcasted;
    if n > 0 {
      NoTransactionIsSentTwice(state, events, n - 1);
      EventKeepsNeverTwice(After(state, events, n - 1), events[n - 1]);
    }
  }

  lemma EventKeepsNeverTwice(state: State, event: Event)
    requires NeverTwice(state) && Allowed(state, event)
    ensures NeverTwice(Next(state, event)) && state.accepted <= Next(state, event).accepted
  {
    hide Broadcasted, FreshCache, RecordedFirst;
    match event
    case Broadcasts(height, server, preferReported) =>
      BroadcastKeepsNeverTwice(state, height, server, preferReported);
      BroadcastOutcome(state, height, server, preferReported);
    case Records(height) =>
      RecordKeepsNeverTwiceIffFresh(state, height);
    case Stores(_) =>
    case Moves(_, _) =>
    case Removes(_) =>
  }

  /** Over any run in which other tasks report only accepted transactions as on their way, every such status is earned,
      whatever is struck off the records. */
  lemma {:induction false} UnderwayStaysEarned(state: State, events: seq<Event>, n: nat)
    requires UnderwayWasAccepted(state) && n <= |events|
    requires forall i :: 0 <= i < n && events[i].Moves? && Underway(events[i].status) ==>
               events[i].txid in After(state, events, i).accepted
    ensures UnderwayWasAccepted(After(state, events, n))
  {
    hide Broadcasted, Recorded;
    if n > 0 {
      UnderwayStaysEarned(state, events, n - 1);
      EventKeepsEarned(After(state, events, n - 1), events[n - 1]);
    }
  }

  lemma EventKeepsEarned(state: State, event: Event)
    requires UnderwayWasAccepted(state)
    requires event.Moves? && Underway(event.status) ==> event.txid in state.accepted
    ensures UnderwayWasAccepted(Next(state, event))
  {
    hide Broadcasted, RecordedFirst;
    match event
    case Broadcasts(height, server, preferReported) =>
      BroadcastOutcome(state, height, server, preferReported);
      var after := Broadcasted(state, height, server, preferReported).0;
      forall txid | txid in after.records && Underway(after.records[txid]) ensures txid in after.accepted {
        if txid in after.accepted[|state.accepted|..] {
        } else {
          assert after.records[txid] == state.records[txid] && txid in state.accepted;
        }
      }
    case Records(height) =>
      if state.cache.Some? {
        forall txid | txid in Recorded(state, height).records && Underway(Recorded(state, height).records[txid])
          ensures txid in state.accepted
        {
          RecordedStatus(state.records, state.cache.value, |state.cache.value|, height, txid);
        }
      }
    case Stores(_) =>
    case Moves(_, _) =>
    case Removes(_) =>
  }

  /** Without another task at work, broadcasts alone never take a status back: what is Transmitted stays Transmitted. */
  lemma {:induction false} TransmittedOnlyGrows(state: State, events: seq<Event>, n: nat, txid: TxId)
    requires n <= |events| && forall i :: 0 <= i < n ==> events[i].Broadcasts?
    requires txid in state.records && state.records[txid].Transmitted?
    ensures var after := After(state, events, n); txid in after.records && after.records[txid] == state.records[txid]
  {
    hide Broadcasted;
    if n > 0 {
      TransmittedOnlyGrows(state, events, n - 1, txid);
      var e := events[n - 1];
      BroadcastOutcome(After(state, events, n - 1), e.height, e.server, e.preferReported);
    }
  }

  /** Why the cache must be fresh: a broadcast that failed half-way leaves accepted transactions in the cache, so
      recording the cache again, as the next send does, has them sent again. */
  lemma RecordingAStaleCacheSendsTwice(a: TxId, b: TxId, height: nat)
    requires a != b
    ensures var calculated := Calculated(height + 1);
            var start := State(Some([CachedTx(a, 0), CachedTx(b, 1)]), map[a := calculated, b := calculated], []);
            var halfway := Broadcasted(start, Some(height), AcceptsFirst(1), false).0;
            var again := Broadcasted(Recorded(halfway, height), Some(height), AcceptAll(), false).0;
            NeverTwice(start) && halfway.accepted == [a] && again.accepted == [a, a, b]
  {
    var calculated := Calculated(height + 1);
    var cache := [CachedTx(a, 0), CachedTx(b, 1)];
    var records := map[a := calculated, b := calculated];
    var start := State(Some(cache), records, []);
    var first, second := AcceptsFirst(1), AcceptAll();
    assert PassOver(start, cache, 1, first, height, false)
             == Pass(records[a := Transmitted(height + 1)], [a], [a], None);
    assert PassOver(start, cache, 2, first, height, false)
             == Pass(records[a := Transmitted(height + 1)], [a], [a], Some("down"));
    var halfway := State(Some(cache), records[a := Transmitted(height + 1)], [a]);
    assert RecordedFirst(halfway.records, cache, 1, height) == records;
    assert RecordedFirst(halfway.records, cache, 2, height) == records;
    var recorded := halfway.(records := records);
    var sent := records[a := Transmitted(height + 1)][b := Transmitted(height + 1)];
    assert PassOver(recorded, cache, 1, second, height, false)
             == Pass(records[a := Transmitted(height + 1)], [a, a], [a], None);
    assert PassOver(recorded, cache, 2, second, height, false) == Pass(sent, [a, a, b], [a, b], None);
  }
}
