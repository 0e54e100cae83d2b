/** Value transfers, and the per-address totals computed from them. */
module Transfers {
  import opened Wrappers
  import opened Sequences

  type Address = string

  datatype OutgoingTxData = OutgoingTxData(
    recipientAddress: Address, recipientUa: Option<Address>, value: nat, memoText: Option<string>)

  datatype NoteSummary = NoteSummary(value: nat, memo: Option<string>)

  datatype TransactionKind = SentSend | SentShield | SentToSelf | Received

  datatype TransactionSummary = TransactionSummary(
    txid: nat, kind: TransactionKind, outgoing: seq<OutgoingTxData>,
    orchardNotes: seq<NoteSummary>, saplingNotes: seq<NoteSummary>, transparentCoins: seq<nat>)

  datatype ValueTransferKind = Send | Shield | Basic | MemoToSelf | Receive

  datatype PoolType = Orchard | Sapling | Transparent

  datatype ValueTransfer = ValueTransfer(
    txid: nat, kind: ValueTransferKind, value: nat, recipientAddress: Option<Address>, poolReceived: Option<PoolType>,
    memos: seq<string>)

  // ---- What is sent to an address

  /** A unified address, when known, stands for the receiver that was paid. */
  function AddressOf(data: OutgoingTxData): Address {
    if data.recipientUa.Some? then data.recipientUa.value else data.recipientAddress
  }

  predicate SendsTo(outgoing: seq<OutgoingTxData>, n: nat, a: Address)
    requires n <= |outgoing|
  {
    exists i :: 0 <= i < n && AddressOf(outgoing[i]) == a
  }

  function ValueTo(outgoing: seq<OutgoingTxData>, n: nat, a: Address): nat
    requires n <= |outgoing|
  {
    if n == 0 then 0
    else ValueTo(outgoing, n - 1, a) + if AddressOf(outgoing[n - 1]) == a then outgoing[n - 1].value else 0
  }

  function MemosTo(outgoing: seq<OutgoingTxData>, n: nat, a: Address): seq<string>
    requires n <= |outgoing|
  {
    if n == 0 then []
    else
      var data := outgoing[n - 1];
      MemosTo(outgoing, n - 1, a) + if AddressOf(data) == a && data.memoText.Some? then [data.memoText.value] else []
  }

  function SendTransfer(tx: TransactionSummary, a: Address): ValueTransfer {
    var n := |tx.outgoing|;
    ValueTransfer(tx.txid, Send, ValueTo(tx.outgoing, n, a), Some(a), None, MemosTo(tx.outgoing, n, a))
  }

  /** The transactions whose outgoing data are shown as sends. */
  predicate ShownAsSent(tx: TransactionSummary) {
    tx.kind.SentSend? || tx.kind.SentToSelf?
  }

  predicate PaysTo(tx: TransactionSummary, a: Address) {
    ShownAsSent(tx) && SendsTo(tx.outgoing, |tx.outgoing|, a)
  }

  /** The send transfers to an address among the first `n` transactions: one for each that pays it. */
  function TransfersTo(txs: seq<TransactionSummary>, n: nat, a: Address): seq<ValueTransfer>
    requires n <= |txs|
  {
    if n == 0 then []
    else TransfersTo(txs, n - 1, a) + if PaysTo(txs[n - 1], a) then [SendTransfer(txs[n - 1], a)] else []
  }

  /** The send transfers to an address in a list. */
  function SentTo(transfers: seq<ValueTransfer>, a: Address): seq<ValueTransfer> {
    if transfers == [] then []
    else
      var last := transfers[|transfers| - 1];
      SentTo(transfers[..|transfers| - 1], a)
      + if last.kind.Send? && last.recipientAddress == Some(a) then [last] else []
  }

  /** The values of the transfers of one kind together. */
  function SumOfKind(transfers: seq<ValueTransfer>, kind: ValueTransferKind): nat {
    if transfers == [] then 0
    else
      var last := transfers[|transfers| - 1];
      SumOfKind(transfers[..|transfers| - 1], kind) + if last.kind == kind then last.value else 0
  }

  /** The transfers in a list that are not sends. */
  function Others(transfers: seq<ValueTransfer>): seq<ValueTransfer> {
    if transfers == [] then []
    else
      var last := transfers[|transfers| - 1];
      Others(transfers[..|transfers| - 1]) + if last.kind.Send? then [] else [last]
  }

  lemma OthersAppend(transfers: seq<ValueTransfer>, t: ValueTransfer)
    ensures Others(transfers + [t]) == Others(transfers) + if t.kind.Send? then [] else [t]
  {
    assert (transfers + [t])[..|transfers|] == transfers;
  }

  lemma SumOfKindAppend(transfers: seq<ValueTransfer>, t: ValueTransfer, kind: ValueTransferKind)
    ensures SumOfKind(transfers + [t], kind) == SumOfKind(transfers, kind) + if t.kind == kind then t.value else 0
  {
    assert (transfers + [t])[..|transfers|] == transfers;
  }

  lemma SentToAppend(transfers: seq<ValueTransfer>, t: ValueTransfer, a: Address)
    ensures SentTo(transfers + [t], a)
              == SentTo(transfers, a) + if t.kind.Send? && t.recipientAddress == Some(a) then [t] else []
  {
    assert (transfers + [t])[..|transfers|] == transfers;
  }

  /** Appending a transfer that is not a send changes no address's sends. */
  method PushOther(transfers: seq<ValueTransfer>, t: ValueTransfer) returns (r: seq<ValueTransfer>)
    requires !t.kind.Send?
    ensures r == transfers + [t] && forall a :: SentTo(r, a) == SentTo(transfers, a)
    ensures forall k :: SumOfKind(r, k) == SumOfKind(transfers, k) + if t.kind == k then t.value else 0
    ensures Others(r) == Others(transfers) + [t]
  {
    r := transfers + [t];
    OthersAppend(transfers, t);
    forall k ensures SumOfKind(r, k) == SumOfKind(transfers, k) + if t.kind == k then t.value else 0 {
      SumOfKindAppend(transfers, t, k);
    }
    forall a ensures SentTo(r, a) == SentTo(transfers, a) {
      SentToAppend(transfers, t, a);
    }
  }

  /** Whatever order the set of addresses is gone through in, each gets one transfer. */
  method CreateSendValueTransfers(transfers: seq<ValueTransfer>, tx: TransactionSummary) returns (r: seq<ValueTransfer>)
    requires WithRecipients(transfers)
    ensures WithRecipients(r)
    ensures forall a :: SentTo(r, a)
                == SentTo(transfers, a) + if SendsTo(tx.outgoing, |tx.outgoing|, a) then [SendTransfer(tx, a)] else []
    ensures forall k: ValueTransferKind :: !k.Send? ==> SumOfKind(r, k) == SumOfKind(transfers, k)
    ensures Others(r) == Others(transfers)
  {
    hide SentTo, SendTransfer, SumOfKind, Others;
    var addresses: set<Address> := {};
    for i := 0 to |tx.outgoing|
      invariant forall a :: a in addresses <==> SendsTo(tx.outgoing, i, a)
    {
      addresses := addresses + {AddressOf(tx.outgoing[i])};
    }
    r := transfers;
    var pending := addresses;
    while pending != {}
      invariant pending <= addresses && WithRecipients(r)
      invariant forall a :: SentTo(r, a)
                  == SentTo(transfers, a) + if a in addresses && a !in pending then [SendTransfer(tx, a)] else []
      invariant forall k: ValueTransferKind :: !k.Send? ==> SumOfKind(r, k) == SumOfKind(transfers, k)
      invariant Others(r) == Others(transfers)
      decreases |pending|
    {
      var address :| address in pending;
      var transfer := CollectSends(tx, address);
      forall a ensures SentTo(r + [transfer], a) == SentTo(r, a) + if a == address then [transfer] else [] {
        SentToAppend(r, transfer, a);
      }
      forall k: ValueTransferKind | !k.Send? ensures SumOfKind(r + [transfer], k) == SumOfKind(r, k) {
        SumOfKindAppend(r, transfer, k);
      }
      OthersAppend(r, transfer);
      r := r + [transfer];
      pending := pending - {address};
    }
  }

  method CollectSends(tx: TransactionSummary, address: Address) returns (t: ValueTransfer)
    ensures t == SendTransfer(tx, address) && t.kind.Send? && t.recipientAddress == Some(address)
  {
    var value, memos := 0, [];
    for i := 0 to |tx.outgoing|
      invariant value == ValueTo(tx.outgoing, i, address) && memos == MemosTo(tx.outgoing, i, address)
    {
      var data := tx.outgoing[i];
      if AddressOf(data) == address {
        value := value + data.value;
        if data.memoText.Some? {
          memos := memos + [data.memoText.value];
        }
      }
    }
    t := ValueTransfer(tx.txid, Send, value, Some(address), None, memos);
  }

  /** Every send has the recipient that the totals below insist on. */
  predicate WithRecipients(transfers: seq<ValueTransfer>) {
    forall i :: 0 <= i < |transfers| && transfers[i].kind.Send? ==> transfers[i].recipientAddress.Some?
  }

  // ---- Value transfers

  function NotesValue(notes: seq<NoteSummary>): nat {
    if notes == [] then 0 else notes[0].value + NotesValue(notes[1..])
  }

  function CoinsValue(coins: seq<nat>): nat {
    if coins == [] then 0 else coins[0] + CoinsValue(coins[1..])
  }

  function NotesMemos(notes: seq<NoteSummary>): seq<string> {
    if notes == [] then []
    else (if notes[0].memo.Some? then [notes[0].memo.value] else []) + NotesMemos(notes[1..])
  }

  /** One transfer for each shielded pool with notes, Orchard first. */
  function NoteTransfers(tx: TransactionSummary, kind: ValueTransferKind): seq<ValueTransfer> {
    (if tx.orchardNotes == [] then []
     else [ValueTransfer(
             tx.txid, kind, NotesValue(tx.orchardNotes), None, Some(Orchard), NotesMemos(tx.orchardNotes))])
    + if tx.saplingNotes == [] then []
      else [ValueTransfer(
              tx.txid, kind, NotesValue(tx.saplingNotes), None, Some(Sapling), NotesMemos(tx.saplingNotes))]
  }

  /** Pushes one transfer for each shielded pool with notes. */
  method PushNotes(transfers: seq<ValueTransfer>, tx: TransactionSummary, kind: ValueTransferKind)
    returns (r: seq<ValueTransfer>)
    requires !kind.Send? && WithRecipients(transfers)
    ensures WithRecipients(r) && forall a :: SentTo(r, a) == SentTo(transfers, a)
    ensures forall k :: SumOfKind(r, k)
                == SumOfKind(transfers, k)
                   + if k == kind then NotesValue(tx.orchardNotes) + NotesValue(tx.saplingNotes) else 0
    ensures Others(r) == Others(transfers) + NoteTransfers(tx, kind)
  {
    hide SentTo, SumOfKind, Others;
    r := transfers;
    if tx.orchardNotes != [] {
      r := PushOther(r, ValueTransfer(
        tx.txid, kind, NotesValue(tx.orchardNotes), None, Some(Orchard), NotesMemos(tx.orchardNotes)));
    }
    if tx.saplingNotes != [] {
      r := PushOther(r, ValueTransfer(
        tx.txid, kind, NotesValue(tx.saplingNotes), None, Some(Sapling), NotesMemos(tx.saplingNotes)));
    }
  }

  /** What a transaction shows besides sends: its memos to the wallet itself if it has any, a transfer to self of no
      value if it has none, the notes it shields, or all it receives. */
  function OtherTransfers(tx: TransactionSummary): seq<ValueTransfer> {
    var memos := NotesMemos(tx.orchardNotes) + NotesMemos(tx.saplingNotes);
    var memoToSelf := ValueTransfer(tx.txid, MemoToSelf, 0, None, None, memos);
    match tx.kind
    case SentSend => if memos != [] then [memoToSelf] else []
    case SentShield => NoteTransfers(tx, Shield)
    case SentToSelf => [if memos != [] then memoToSelf else ValueTransfer(tx.txid, Basic, 0, None, None, [])]
    case Received =>
      NoteTransfers(tx, Receive)
      + if tx.transparentCoins == [] then []
        else [ValueTransfer(tx.txid, Receive, CoinsValue(tx.transparentCoins), None, Some(Transparent), [])]
  }

  function AllOthers(txs: seq<TransactionSummary>, n: nat): seq<ValueTransfer>
    requires n <= |txs|
  {
    if n == 0 then [] else AllOthers(txs, n - 1) + OtherTransfers(txs[n - 1])
  }

  /** What a transaction shows under a kind other than a send: all it shields, or all it receives. */
  function OwnValue(tx: TransactionSummary, kind: ValueTransferKind): nat {
    match (tx.kind, kind)
    case (SentShield, Shield) => NotesValue(tx.orchardNotes) + NotesValue(tx.saplingNotes)
    case (Received, Receive) =>
      NotesValue(tx.orchardNotes) + NotesValue(tx.saplingNotes) + CoinsValue(tx.transparentCoins)
    case _ => 0
  }

  function TotalOwn(txs: seq<TransactionSummary>, n: nat, kind: ValueTransferKind): nat
    requires n <= |txs|
  {
    if n == 0 then 0 else TotalOwn(txs, n - 1, kind) + OwnValue(txs[n - 1], kind)
  }

  /** The transfers of one transaction. */
  method PushTransaction(transfers: seq<ValueTransfer>, tx: TransactionSummary) returns (r: seq<ValueTransfer>)
    requires WithRecipients(transfers)
    ensures WithRecipients(r)
    ensures forall a :: SentTo(r, a) == SentTo(transfers, a) + if PaysTo(tx, a) then [SendTransfer(tx, a)] else []
    ensures forall k: ValueTransferKind :: !k.Send? ==> SumOfKind(r, k) == SumOfKind(transfers, k) + OwnValue(tx, k)
    ensures Others(r) == Others(transfers) + OtherTransfers(tx)
  {
    hide SentTo, SendTransfer, SendsTo, SumOfKind, Others;
    var memos := NotesMemos(tx.orchardNotes) + NotesMemos(tx.saplingNotes);
    var memoToSelf := ValueTransfer(tx.txid, MemoToSelf, 0, None, None, memos);
    r := transfers;
    match tx.kind
    case SentSend =>
      r := CreateSendValueTransfers(r, tx);
      if memos != [] {
        r := PushOther(r, memoToSelf);
      }
    case SentShield =>
      r := PushNotes(r, tx, Shield);
    case SentToSelf =>
      if memos != [] {
        r := PushOther(r, memoToSelf);
      } else {
        r := PushOther(r, ValueTransfer(tx.txid, Basic, 0, None, None, []));
      }
      r := CreateSendValueTransfers(r, tx);
    case Received =>
      r := PushNotes(r, tx, Receive);
      if tx.transparentCoins != [] {
        r := PushOther(r, ValueTransfer(
          tx.txid, Receive, CoinsValue(tx.transparentCoins), None, Some(Transparent), []));
      }
  }

  /** Each address's sends are the transactions paying it, in order; shielded and received value is shown in full. */
  method ValueTransfers(txs: seq<TransactionSummary>) returns (transfers: seq<ValueTransfer>)
    ensures WithRecipients(transfers)
    ensures forall a :: SentTo(transfers, a) == TransfersTo(txs, |txs|, a)
    ensures forall k: ValueTransferKind :: !k.Send? ==> SumOfKind(transfers, k) == TotalOwn(txs, |txs|, k)
    ensures Others(transfers) == AllOthers(txs, |txs|)
  {
    hide PaysTo, SendTransfer, OwnValue, OtherTransfers;
    transfers := [];
    for i := 0 to |txs|
      invariant WithRecipients(transfers)
      invariant forall k: ValueTransferKind :: !k.Send? ==> SumOfKind(transfers, k) == TotalOwn(txs, i, k)
      invariant Others(transfers) == AllOthers(txs, i)
      invariant forall a :: SentTo(transfers, a) == TransfersTo(txs, i, a)
    {
      transfers := PushTransaction(transfers, txs[i]);
    }
  }

  // ---- What is shown of a transaction

  lemma {:induction false} NotesAddUp(a: seq<NoteSummary>, b: seq<NoteSummary>)
    ensures NotesValue(a + b) == NotesValue(a) + NotesValue(b)
  {
    if a == [] {
      assert a + b == b;
    } else {
      NotesAddUp(a[1..], b);
      assert (a + b)[1..] == a[1..] + b;
    }
  }

  lemma {:induction false} MemosAddUp(a: seq<NoteSummary>, b: seq<NoteSummary>)
    ensures NotesMemos(a + b) == NotesMemos(a) + NotesMemos(b)
  {
    hide NotesMemos;
    if a == [] {
      NoMemos();
      assert a + b == b && [] + NotesMemos(b) == NotesMemos(b);
    } else {
      MemosAddUp(a[1..], b);
      assert (a + b)[1..] == a[1..] + b;
      FirstMemo(a);
      FirstMemo(a + b);
      Regroup(if a[0].memo.Some? then [a[0].memo.value] else [], NotesMemos(a[1..]), NotesMemos(b));
    }
  }

  lemma NoMemos()
    ensures NotesMemos([]) == []
  {
  }

  lemma FirstMemo(notes: seq<NoteSummary>)
    requires notes != []
    ensures NotesMemos(notes)
              == (if notes[0].memo.Some? then [notes[0].memo.value] else []) + NotesMemos(notes[1..])
  {
  }

  lemma {:induction false} CoinsAddUp(a: seq<nat>, b: seq<nat>)
    ensures CoinsValue(a + b) == CoinsValue(a) + CoinsValue(b)
  {
    if a == [] {
      assert a + b == b;
    } else {
      CoinsAddUp(a[1..], b);
      assert (a + b)[1..] == a[1..] + b;
    }
  }

  /** Wherever it stands among its pool's notes, a note adds its whole value to what is shown, and its memo, if it has
      one, in its place. */
  lemma NoteCounts(a: seq<NoteSummary>, n: NoteSummary, b: seq<NoteSummary>)
    ensures NotesValue([]) == 0 && NotesMemos([]) == []
    ensures NotesValue(a + [n] + b) == NotesValue(a + b) + n.value
    ensures NotesMemos(a + [n] + b)
              == NotesMemos(a) + (if n.memo.Some? then [n.memo.value] else []) + NotesMemos(b)
  {
    NotesAddUp(a + [n], b);
    NotesAddUp(a, [n]);
    NotesAddUp(a, b);
    MemosAddUp(a + [n], b);
    MemosAddUp(a, [n]);
    assert [n][1..] == [];
  }

  lemma CoinCounts(a: seq<nat>, coin: nat, b: seq<nat>)
    ensures CoinsValue([]) == 0 && CoinsValue(a + [coin] + b) == CoinsValue(a + b) + coin
  {
    CoinsAddUp(a + [coin], b);
    CoinsAddUp(a, [coin]);
    CoinsAddUp(a, b);
    assert [coin][1..] == [];
  }

  lemma {:induction false} SomeMemo(notes: seq<NoteSummary>)
    ensures NotesMemos(notes) != [] <==> exists i :: 0 <= i < |notes| && notes[i].memo.Some?
  {
    if notes != [] {
      SomeMemo(notes[1..]);
      if NotesMemos(notes[1..]) != [] {
        var i :| 0 <= i < |notes[1..]| && notes[1..][i].memo.Some?;
        assert notes[i + 1].memo.Some?;
      }
    }
  }

  /** Every note and coin of a transaction that shields or receives is shown in full: one more of value `v`, anywhere in
      its pool's list, raises what is shown by exactly `v`, and with none nothing is shown. */
  lemma OneMoreIsShown(tx: TransactionSummary, a: seq<NoteSummary>, n: NoteSummary, b: seq<NoteSummary>)
    ensures var kind := if tx.kind.SentShield? then Shield else Receive;
            tx.kind.SentShield? || tx.kind.Received? ==>
              && OwnValue(tx.(orchardNotes := a + [n] + b), kind)
                   == OwnValue(tx.(orchardNotes := a + b), kind) + n.value
              && OwnValue(tx.(saplingNotes := a + [n] + b), kind)
                   == OwnValue(tx.(saplingNotes := a + b), kind) + n.value
              && OwnValue(tx.(orchardNotes := [], saplingNotes := [], transparentCoins := []), kind) == 0
  {
    hide NotesValue, NotesMemos;
    NoteCounts(a, n, b);
  }

  lemma OneMoreCoinIsShown(tx: TransactionSummary, a: seq<nat>, coin: nat, b: seq<nat>)
    requires tx.kind.Received?
    ensures OwnValue(tx.(transparentCoins := a + [coin] + b), Receive)
              == OwnValue(tx.(transparentCoins := a + b), Receive) + coin
  {
    hide CoinsValue;
    CoinCounts(a, coin, b);
  }

  /** A transaction that shields or receives shows one transfer for each pool it has something in, with all its value
      and memos in that pool, and no other but sends. */
  lemma OneTransferPerPool(tx: TransactionSummary, pool: PoolType)
    requires tx.kind.SentShield? || tx.kind.Received?
    ensures var shown := OtherTransfers(tx);
            var held := match pool
              case Orchard => tx.orchardNotes != []
              case Sapling => tx.saplingNotes != []
              case Transparent => tx.kind.Received? && tx.transparentCoins != [];
            && (held <==> exists i :: 0 <= i < |shown| && shown[i].poolReceived == Some(pool))
            && (forall i, j :: 0 <= i < j < |shown| ==> shown[i].poolReceived != shown[j].poolReceived)
            && (forall t :: t in shown ==>
                  && t.txid == tx.txid && t.kind == (if tx.kind.SentShield? then Shield else Receive)
                  && t.recipientAddress == None && t.poolReceived.Some?
                  && (t.poolReceived == Some(Orchard) ==>
                        t.value == NotesValue(tx.orchardNotes) && t.memos == NotesMemos(tx.orchardNotes))
                  && (t.poolReceived == Some(Sapling) ==>
                        t.value == NotesValue(tx.saplingNotes) && t.memos == NotesMemos(tx.saplingNotes))
                  && (t.poolReceived == Some(Transparent) ==>
                        t.value == CoinsValue(tx.transparentCoins) && t.memos == []))
  {
    hide NotesValue, NotesMemos, CoinsValue;
    var shown := OtherTransfers(tx);
    var orchard := if tx.orchardNotes == [] then 0 else 1;
    var sapling := if tx.saplingNotes == [] then 0 else 1;
    if tx.orchardNotes != [] {
      assert shown[0].poolReceived == Some(Orchard);
    }
    if tx.saplingNotes != [] {
      assert shown[orchard].poolReceived == Some(Sapling);
    }
    if tx.kind.Received? && tx.transparentCoins != [] {
      assert shown[orchard + sapling].poolReceived == Some(Transparent);
    }
  }

  /** Besides its sends a sending transaction shows all memos on its own notes, Orchard first, in one transfer of no
      value; without any, a send to self still shows a transfer and a send none. */
  lemma MemosToSelfAreShown(tx: TransactionSummary)
    requires tx.kind.SentSend? || tx.kind.SentToSelf?
    ensures var shown := OtherTransfers(tx);
            && ((exists i :: 0 <= i < |tx.orchardNotes + tx.saplingNotes|
                   && (tx.orchardNotes + tx.saplingNotes)[i].memo.Some?) <==>
                |shown| == 1 && shown[0].kind == MemoToSelf)
            && |shown| <= 1 && (tx.kind.SentToSelf? ==> |shown| == 1)
            && forall t :: t in shown ==>
                 && t.txid == tx.txid && t.value == 0 && t.recipientAddress == None && t.poolReceived == None
                 && (t.kind == MemoToSelf || t.kind == Basic)
                 && t.memos == NotesMemos(tx.orchardNotes + tx.saplingNotes)
  {
    MemosAddUp(tx.orchardNotes, tx.saplingNotes);
    SomeMemo(tx.orchardNotes + tx.saplingNotes);
  }

  lemma {:induction false} PaymentsAddUp(a: seq<OutgoingTxData>, b: seq<OutgoingTxData>, n: nat, address: Address)
    requires n <= |a| + |b|
    ensures ValueTo(a + b, n, address) ==
            if n <= |a| then ValueTo(a, n, address) else ValueTo(a, |a|, address) + ValueTo(b, n - |a|, address)
    ensures MemosTo(a + b, n, address) ==
            if n <= |a| then MemosTo(a, n, address) else MemosTo(a, |a|, address) + MemosTo(b, n - |a|, address)
  {
    if n > 0 {
      PaymentsAddUp(a, b, n - 1, address);
    }
  }

  /** Wherever it stands among a transaction's outgoing data, a payment adds its value and its memo to the send shown
      for the address it paid, the unified address if there is one, and to no other. */
  lemma PaymentCounts(
      tx: TransactionSummary, a: seq<OutgoingTxData>, data: OutgoingTxData, b: seq<OutgoingTxData>, address: Address)
    ensures var paid := data.recipientUa == Some(address)
                        || (data.recipientUa.None? && data.recipientAddress == address);
            var with, without := SendTransfer(tx.(outgoing := a + [data] + b), address),
                                 SendTransfer(tx.(outgoing := a + b), address);
            var before, after := MemosTo(a, |a|, address), MemosTo(b, |b|, address);
            && with.txid == tx.txid && with.kind == Send && with.recipientAddress == Some(address)
            && with.poolReceived == None
            && with.value == without.value + (if paid then data.value else 0)
            && without.memos == before + after
            && with.memos == before + (if paid && data.memoText.Some? then [data.memoText.value] else []) + after
            && ValueTo([], 0, address) == 0 && MemosTo([], 0, address) == []
            && (PaysTo(tx.(outgoing := a + [data] + b), address) <==>
                  (tx.kind.SentSend? || tx.kind.SentToSelf?)
                  && (paid || SendsTo(a, |a|, address) || SendsTo(b, |b|, address)))
  {
    PaidSomewhere(a, data, b, address);
    hide SendsTo, ValueTo, MemosTo, AddressOf;
    PaymentsAddUp(a + [data], b, |a| + 1 + |b|, address);
    PaymentsAddUp(a, [data], |a| + 1, address);
    PaymentsAddUp(a, b, |a| + |b|, address);
    OnePayment(data, address);
  }

  lemma PaidSomewhere(a: seq<OutgoingTxData>, data: OutgoingTxData, b: seq<OutgoingTxData>, address: Address)
    ensures SendsTo(a + [data] + b, |a| + 1 + |b|, address) <==>
            SendsTo(a, |a|, address) || AddressOf(data) == address || SendsTo(b, |b|, address)
  {
    var all := a + [data] + b;
    assert all[|a|] == data && forall i :: 0 <= i < |a| ==> all[i] == a[i];
    assert forall i :: 0 <= i < |b| ==> all[|a| + 1 + i] == b[i];
    if SendsTo(a, |a|, address) {
      var i :| 0 <= i < |a| && AddressOf(a[i]) == address;
      assert AddressOf(all[i]) == address;
    } else if SendsTo(b, |b|, address) {
      var i :| 0 <= i < |b| && AddressOf(b[i]) == address;
      assert AddressOf(all[|a| + 1 + i]) == address;
    }
  }

  lemma OnePayment(data: OutgoingTxData, address: Address)
    ensures var paid := data.recipientUa == Some(address)
                        || (data.recipientUa.None? && data.recipientAddress == address);
            && (paid <==> AddressOf(data) == address)
            && ValueTo([data], 1, address) == (if paid then data.value else 0)
            && MemosTo([data], 1, address) == (if paid && data.memoText.Some? then [data.memoText.value] else [])
            && ValueTo([], 0, address) == 0 && MemosTo([], 0, address) == []
  {
    assert ValueTo([data], 0, address) == 0 && MemosTo([data], 0, address) == [];
  }

  // ---- Totals by address

  function Values(transfers: seq<ValueTransfer>): (r: seq<nat>)
    ensures |r| == |transfers| && forall i {:trigger r[i]} :: 0 <= i < |r| ==> r[i] == transfers[i].value
  {
    seq(|transfers|, i requires 0 <= i < |transfers| => transfers[i].value)
  }

  function Sum(values: seq<nat>): nat {
    if values == [] then 0 else Sum(values[..|values| - 1]) + values[|values| - 1]
  }

  lemma SumAppend(values: seq<nat>, v: nat)
    ensures Sum(values + [v]) == Sum(values) + v
  {
    assert (values + [v])[..|values|] == values;
  }

  /** The amounts sent to each address, in the order of the transfers. */
  ghost predicate AmountsByAddress(amounts: map<Address, seq<nat>>, transfers: seq<ValueTransfer>) {
    forall a ::
      && (a in amounts <==> SentTo(transfers, a) != [])
      && (a in amounts ==> amounts[a] == Values(SentTo(transfers, a)))
  }

  /** One more transfer on the tally: a send is added to its recipient's amounts. */
  function Tallied(amounts: map<Address, seq<nat>>, t: ValueTransfer): map<Address, seq<nat>>
    requires t.kind.Send? ==> t.recipientAddress.Some?
  {
    if !t.kind.Send? then amounts
    else
      var a := t.recipientAddress.value;
      amounts[a := if a in amounts then amounts[a] + [t.value] else [t.value]]
  }

  method ValueTransferByToAddress(transfers: seq<ValueTransfer>) returns (amounts: map<Address, seq<nat>>)
    requires WithRecipients(transfers)
    ensures AmountsByAddress(amounts, transfers)
  {
    hide AmountsByAddress;
    amounts := map[];
    NoAmounts();
    for i := 0 to |transfers|
      invariant AmountsByAddress(amounts, transfers[..i])
    {
      var transfer := transfers[i];
      AmountsStep(amounts, transfers[..i], transfer);
      assert transfers[..i + 1] == transfers[..i] + [transfer];
      if transfer.kind.Send? {
        var address := transfer.recipientAddress.value;
        if address in amounts {
          amounts := amounts[address := amounts[address] + [transfer.value]];
        } else {
          amounts := amounts[address := [transfer.value]];
        }
      }
    }
    assert transfers[..|transfers|] == transfers;
  }

  lemma NoAmounts()
    ensures AmountsByAddress(map[], [])
  {
  }

  lemma AmountsStep(amounts: map<Address, seq<nat>>, transfers: seq<ValueTransfer>, t: ValueTransfer)
    requires AmountsByAddress(amounts, transfers) && (t.kind.Send? ==> t.recipientAddress.Some?)
    ensures AmountsByAddress(Tallied(amounts, t), transfers + [t])
  {
    hide SentTo, Values;
    forall a
      ensures a in Tallied(amounts, t) <==> SentTo(transfers + [t], a) != []
      ensures a in Tallied(amounts, t) ==> Tallied(amounts, t)[a] == Values(SentTo(transfers + [t], a))
    {
      SentToAppend(transfers, t, a);
      ValuesAppend(SentTo(transfers, a), t);
      assert SentTo(transfers, a) + [] == SentTo(transfers, a);
      assert SentTo(transfers, a) == [] ==> Values(SentTo(transfers, a)) + [t.value] == [t.value];
    }
  }

  lemma ValuesAppend(transfers: seq<ValueTransfer>, t: ValueTransfer)
    ensures Values(transfers + [t]) == Values(transfers) + [t.value]
    ensures Values([]) == []
  {
  }

  /** What all shown transactions together send to an address, output by output. */
  function TotalTo(txs: seq<TransactionSummary>, n: nat, a: Address): nat
    requires n <= |txs|
  {
    if n == 0 then 0
    else
      var outgoing := txs[n - 1].outgoing;
      TotalTo(txs, n - 1, a) + if ShownAsSent(txs[n - 1]) then ValueTo(outgoing, |outgoing|, a) else 0
  }

  /** How many shown transactions pay an address. */
  function PayingTo(txs: seq<TransactionSummary>, n: nat, a: Address): nat
    requires n <= |txs|
  {
    if n == 0 then 0 else PayingTo(txs, n - 1, a) + if PaysTo(txs[n - 1], a) then 1 else 0
  }

  lemma {:induction false} NothingTo(outgoing: seq<OutgoingTxData>, n: nat, a: Address)
    requires n <= |outgoing| && !SendsTo(outgoing, n, a)
    ensures ValueTo(outgoing, n, a) == 0
  {
    if n > 0 {
      NothingTo(outgoing, n - 1, a);
    }
  }

  lemma {:induction false} TransfersAddUp(txs: seq<TransactionSummary>, n: nat, a: Address)
    requires n <= |txs|
    ensures Sum(Values(TransfersTo(txs, n, a))) == TotalTo(txs, n, a)
    ensures |TransfersTo(txs, n, a)| == PayingTo(txs, n, a)
  {
    hide Sum, SendsTo, ValueTo, MemosTo;
    if n == 0 {
      NoSum();
    } else {
      TransfersAddUp(txs, n - 1, a);
      var tx, before := txs[n - 1], TransfersTo(txs, n - 1, a);
      ValuesAppend(before, SendTransfer(tx, a));
      assert before + [] == before;
      SumAppend(Values(before), SendTransfer(tx, a).value);
      if !SendsTo(tx.outgoing, |tx.outgoing|, a) {
        NothingTo(tx.outgoing, |tx.outgoing|, a);
      }
    }
  }

  lemma NoSum()
    ensures Values([]) == [] && Sum([]) == 0
  {
  }

  /** Each address that is paid has a total, of every value sent to it and nothing else. */
  method DoTotalValueToAddress(txs: seq<TransactionSummary>) returns (totals: map<Address, nat>)
    ensures forall a :: a in totals <==> PayingTo(txs, |txs|, a) > 0
    ensures forall a :: a in totals ==> totals[a] == TotalTo(txs, |txs|, a)
  {
    hide SentTo, TransfersTo, Values, Sum, TotalTo, PayingTo;
    var transfers := ValueTransfers(txs);
    var amounts := ValueTransferByToAddress(transfers);
    forall a ensures Sum(Values(SentTo(transfers, a))) == TotalTo(txs, |txs|, a)
      ensures |SentTo(transfers, a)| == PayingTo(txs, |txs|, a)
    {
      TransfersAddUp(txs, |txs|, a);
    }
    totals := map[];
    var pending := amounts.Keys;
    while pending != {}
      invariant pending <= amounts.Keys && totals.Keys == amounts.Keys - pending
      invariant forall a :: a in totals ==> totals[a] == Sum(amounts[a])
      decreases |pending|
    {
      var key :| key in pending;
      var sum := AddUp(amounts[key]);
      totals := totals[key := sum];
      pending := pending - {key};
    }
  }

  method AddUp(values: seq<nat>) returns (sum: nat)
    ensures sum == Sum(values)
  {
    sum := 0;
    for i := 0 to |values|
      invariant sum == Sum(values[..i])
    {
      SumAppend(values[..i], values[i]);
      assert values[..i + 1] == values[..i] + [values[i]];
      sum := sum + values[i];
    }
    assert values[..|values|] == values;
  }

  /** The number of sends to an address counts the transactions that pay it, not their outputs. */
  method DoTotalSpendsToAddress(txs: seq<TransactionSummary>) returns (sends: map<Address, nat>)
    ensures forall a :: a in sends <==> PayingTo(txs, |txs|, a) > 0
    ensures forall a :: a in sends ==> sends[a] == PayingTo(txs, |txs|, a)
  {
    hide SentTo, TransfersTo, Values, PayingTo, TotalTo, Sum;
    var transfers := ValueTransfers(txs);
    var amounts := ValueTransferByToAddress(transfers);
    forall a ensures |SentTo(transfers, a)| == PayingTo(txs, |txs|, a) {
      TransfersAddUp(txs, |txs|, a);
    }
    sends := map[];
    var pending := amounts.Keys;
    while pending != {}
      invariant pending <= amounts.Keys && sends.Keys == amounts.Keys - pending
      invariant forall a :: a in sends ==> sends[a] == |amounts[a]|
      decreases |pending|
    {
      var key :| key in pending;
      sends := sends[key := |amounts[key]|];
      pending := pending - {key};
    }
  }

  // ---- Conservation

  function OutgoingValue(outgoing: seq<OutgoingTxData>, n: nat): nat
    requires n <= |outgoing|
  {
    if n == 0 then 0 else OutgoingValue(outgoing, n - 1) + outgoing[n - 1].value
  }

  /** All that the shown transactions send. */
  function TotalOutgoing(txs: seq<TransactionSummary>, n: nat): nat
    requires n <= |txs|
  {
    if n == 0 then 0
    else
      var outgoing := txs[n - 1].outgoing;
      TotalOutgoing(txs, n - 1) + if ShownAsSent(txs[n - 1]) then OutgoingValue(outgoing, |outgoing|) else 0
  }

  function SumOfValues(keys: seq<Address>, k: nat, outgoing: seq<OutgoingTxData>, n: nat): nat
    requires k <= |keys| && n <= |outgoing|
  {
    if k == 0 then 0 else SumOfValues(keys, k - 1, outgoing, n) + ValueTo(outgoing, n, keys[k - 1])
  }

  function SumOfTotals(keys: seq<Address>, k: nat, txs: seq<TransactionSummary>, n: nat): nat
    requires k <= |keys| && n <= |txs|
  {
    if k == 0 then 0 else SumOfTotals(keys, k - 1, txs, n) + TotalTo(txs, n, keys[k - 1])
  }

  /** One more output adds its value once, at its address. */
  lemma {:induction false} OneAddressPaid(keys: seq<Address>, k: nat, outgoing: seq<OutgoingTxData>, n: nat)
    requires Distinct(keys) && k <= |keys| && 0 < n <= |outgoing|
    ensures SumOfValues(keys, k, outgoing, n)
              == SumOfValues(keys, k, outgoing, n - 1)
                 + if AddressOf(outgoing[n - 1]) in keys[..k] then outgoing[n - 1].value else 0
  {
    if k > 0 {
      OneAddressPaid(keys, k - 1, outgoing, n);
      assert keys[..k] == keys[..k - 1] + [keys[k - 1]];
    }
  }

  lemma {:induction false} ValuesConserved(keys: seq<Address>, outgoing: seq<OutgoingTxData>, n: nat)
    requires Distinct(keys) && n <= |outgoing| && forall i :: 0 <= i < n ==> AddressOf(outgoing[i]) in keys
    ensures SumOfValues(keys, |keys|, outgoing, n) == OutgoingValue(outgoing, n)
  {
    if n == 0 {
      NoValues(keys, |keys|, outgoing);
    } else {
      ValuesConserved(keys, outgoing, n - 1);
      OneAddressPaid(keys, |keys|, outgoing, n);
      assert keys[..|keys|] == keys;
    }
  }

  lemma {:induction false} NoValues(keys: seq<Address>, k: nat, outgoing: seq<OutgoingTxData>)
    requires k <= |keys|
    ensures SumOfValues(keys, k, outgoing, 0) == 0
  {
    if k > 0 {
      NoValues(keys, k - 1, outgoing);
    }
  }

  lemma {:induction false} TotalsStep(keys: seq<Address>, k: nat, txs: seq<TransactionSummary>, n: nat)
    requires k <= |keys| && n <= |txs|
    ensures n == 0 ==> SumOfTotals(keys, k, txs, n) == 0
    ensures n > 0 ==>
              var outgoing := txs[n - 1].outgoing;
              SumOfTotals(keys, k, txs, n) == SumOfTotals(keys, k, txs, n - 1)
                + if ShownAsSent(txs[n - 1]) then SumOfValues(keys, k, outgoing, |outgoing|) else 0
  {
    hide ValueTo, ShownAsSent;
    if k > 0 {
      TotalsStep(keys, k - 1, txs, n);
    }
  }

  /** The totals by address together are everything the shown transactions send, whichever way the addresses are
      listed. */
  lemma {:induction false} TotalsConserveValue(keys: seq<Address>, txs: seq<TransactionSummary>, n: nat)
    requires Distinct(keys) && n <= |txs|
    requires forall a :: a in keys <==> PayingTo(txs, n, a) > 0
    ensures SumOfTotals(keys, |keys|, txs, n) == TotalOutgoing(txs, n)
  {
    forall t | 0 <= t < n && ShownAsSent(txs[t]) ensures Covers(keys, txs[t].outgoing) {
      PaidIsListed(keys, txs, n, t);
    }
    CoveredTotals(keys, txs, n);
  }

  predicate Covers(keys: seq<Address>, outgoing: seq<OutgoingTxData>) {
    forall i :: 0 <= i < |outgoing| ==> AddressOf(outgoing[i]) in keys
  }

  lemma {:induction false} PaidCounts(txs: seq<TransactionSummary>, n: nat, t: nat, a: Address)
    requires t < n <= |txs| && PaysTo(txs[t], a)
    ensures PayingTo(txs, n, a) > 0
  {
    if t < n - 1 {
      PaidCounts(txs, n - 1, t, a);
    }
  }

  lemma PaidIsListed(keys: seq<Address>, txs: seq<TransactionSummary>, n: nat, t: nat)
    requires t < n <= |txs| && ShownAsSent(txs[t])
    requires forall a :: a in keys <==> PayingTo(txs, n, a) > 0
    ensures Covers(keys, txs[t].outgoing)
  {
    forall i | 0 <= i < |txs[t].outgoing| ensures AddressOf(txs[t].outgoing[i]) in keys {
      PaidCounts(txs, n, t, AddressOf(txs[t].outgoing[i]));
    }
  }

  lemma {:induction false} CoveredTotals(keys: seq<Address>, txs: seq<TransactionSummary>, n: nat)
    requires Distinct(keys) && n <= |txs|
    requires forall t :: 0 <= t < n && ShownAsSent(txs[t]) ==> Covers(keys, txs[t].outgoing)
    ensures SumOfTotals(keys, |keys|, txs, n) == TotalOutgoing(txs, n)
  {
    hide SumOfValues, SumOfTotals, OutgoingValue;
    TotalsStep(keys, |keys|, txs, n);
    if n > 0 {
      CoveredTotals(keys, txs, n - 1);
      if ShownAsSent(txs[n - 1]) {
        ValuesConserved(keys, txs[n - 1].outgoing, |txs[n - 1].outgoing|);
      }
    }
  }
}
