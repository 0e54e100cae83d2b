/** The wallet's user-facing balance figures: seven running totals filled in one pass over the transactions. */
module Balances {
  import opened TransactionStatus

  /** The marginal fee of ZIP 317, section "Fee calculation". */
  const MARGIN_FEE: nat := 5000

  datatype Note = Note(value: nat, isChange: bool, spent: bool)

  datatype Utxo = Utxo(value: nat, spent: bool)

  datatype TransactionRecord = TransactionRecord(
    status: Status, orchardNotes: seq<Note>, saplingNotes: seq<Note>, transparentOutputs: seq<Utxo>)

  datatype UserBalances = UserBalances(
    spendable: nat, immatureChange: nat, minimumFees: nat, immatureIncome: nat, dust: nat, incoming: nat,
    incomingDust: nat)

  predicate IsIncoming(tx: TransactionRecord) {
    || (exists n :: n in tx.saplingNotes && !n.isChange)
    || (exists n :: n in tx.orchardNotes && !n.isChange)
    || tx.transparentOutputs != []
  }

  predicate IsMature(tx: TransactionRecord, anchor: nat) {
    tx.status.Confirmed? && tx.status.height <= anchor
  }

  // ---- What each figure means

  datatype Bucket = Spendable | ImmatureChange | ImmatureIncome | Dust | Incoming | IncomingDust

  /** Where small change, of whatever maturity, is never dust, and income above the marginal fee is useful. */
  function NoteBucket(tx: TransactionRecord, note: Note, anchor: nat): Bucket {
    if !IsIncoming(tx) then
      if IsMature(tx, anchor) then Spendable else ImmatureChange
    else if note.value > MARGIN_FEE then
      if IsMature(tx, anchor) then Spendable else if tx.status.Confirmed? then ImmatureIncome else Incoming
    else DustBucket(tx)
  }

  /** Unspent transparent outputs wait to be shielded under auto-shielding, and are spendable at once without it. */
  function UtxoBucket(tx: TransactionRecord, utxo: Utxo, autoShielding: bool): Bucket {
    if utxo.value > MARGIN_FEE then
      if !autoShielding then Spendable else if tx.status.Confirmed? then ImmatureIncome else Incoming
    else DustBucket(tx)
  }

  function DustBucket(tx: TransactionRecord): Bucket {
    if tx.status.Confirmed? then Dust else IncomingDust
  }

  /** The unspent value among the first `n` notes that belongs in `b`. */
  function NotesIn(tx: TransactionRecord, notes: seq<Note>, n: nat, anchor: nat, b: Bucket): nat
    requires n <= |notes|
  {
    if n == 0 then 0
    else NotesIn(tx, notes, n - 1, anchor, b)
         + if !notes[n - 1].spent && NoteBucket(tx, notes[n - 1], anchor) == b then notes[n - 1].value else 0
  }

  function UtxosIn(tx: TransactionRecord, n: nat, autoShielding: bool, b: Bucket): nat
    requires n <= |tx.transparentOutputs|
  {
    var utxos := tx.transparentOutputs;
    if n == 0 then 0
    else UtxosIn(tx, n - 1, autoShielding, b)
         + if !utxos[n - 1].spent && UtxoBucket(tx, utxos[n - 1], autoShielding) == b then utxos[n - 1].value else 0
  }

  function TxIn(tx: TransactionRecord, anchor: nat, autoShielding: bool, b: Bucket): nat {
    NotesIn(tx, tx.orchardNotes, |tx.orchardNotes|, anchor, b)
      + NotesIn(tx, tx.saplingNotes, |tx.saplingNotes|, anchor, b)
      + UtxosIn(tx, |tx.transparentOutputs|, autoShielding, b)
  }

  function TotalIn(txs: seq<TransactionRecord>, n: nat, anchor: nat, autoShielding: bool, b: Bucket): nat
    requires n <= |txs|
  {
    if n == 0 then 0 else TotalIn(txs, n - 1, anchor, autoShielding, b) + TxIn(txs[n - 1], anchor, autoShielding, b)
  }

  /** Outputs that count towards the fee: change always, useful notes once mature, useful transparent outputs unless
      they are to be shielded. */
  predicate NotePays(tx: TransactionRecord, note: Note, anchor: nat) {
    !note.spent && (!IsIncoming(tx) || (note.value > MARGIN_FEE && IsMature(tx, anchor)))
  }

  function NotesPaying(tx: TransactionRecord, notes: seq<Note>, n: nat, anchor: nat): nat
    requires n <= |notes|
  {
    if n == 0 then 0 else NotesPaying(tx, notes, n - 1, anchor) + if NotePays(tx, notes[n - 1], anchor) then 1 else 0
  }

  function UtxosPaying(utxos: seq<Utxo>, n: nat, autoShielding: bool): nat
    requires n <= |utxos|
  {
    if n == 0 then 0
    else UtxosPaying(utxos, n - 1, autoShielding)
         + if !autoShielding && !utxos[n - 1].spent && utxos[n - 1].value > MARGIN_FEE then 1 else 0
  }

  function TxPaying(tx: TransactionRecord, anchor: nat, autoShielding: bool): nat {
    NotesPaying(tx, tx.orchardNotes, |tx.orchardNotes|, anchor)
      + NotesPaying(tx, tx.saplingNotes, |tx.saplingNotes|, anchor)
      + UtxosPaying(tx.transparentOutputs, |tx.transparentOutputs|, autoShielding)
  }

  function Paying(txs: seq<TransactionRecord>, n: nat, anchor: nat, autoShielding: bool): nat
    requires n <= |txs|
  {
    if n == 0 then 0 else Paying(txs, n - 1, anchor, autoShielding) + TxPaying(txs[n - 1], anchor, autoShielding)
  }

  function Figure(balances: UserBalances, b: Bucket): nat {
    match b
    case Spendable => balances.spendable
    case ImmatureChange => balances.immatureChange
    case ImmatureIncome => balances.immatureIncome
    case Dust => balances.dust
    case Incoming => balances.incoming
    case IncomingDust => balances.incomingDust
  }

  function AllFigures(balances: UserBalances): nat {
    balances.spendable + balances.immatureChange + balances.immatureIncome + balances.dust
    + balances.incoming + balances.incomingDust
  }

  // ---- Conservation

  function UnspentNotes(notes: seq<Note>, n: nat): nat
    requires n <= |notes|
  {
    if n == 0 then 0 else UnspentNotes(notes, n - 1) + if notes[n - 1].spent then 0 else notes[n - 1].value
  }

  function UnspentUtxos(utxos: seq<Utxo>, n: nat): nat
    requires n <= |utxos|
  {
    if n == 0 then 0 else UnspentUtxos(utxos, n - 1) + if utxos[n - 1].spent then 0 else utxos[n - 1].value
  }

  /** Everything unspent in the wallet. */
  function Unspent(txs: seq<TransactionRecord>, n: nat): nat
    requires n <= |txs|
  {
    if n == 0 then 0
    else
      var tx := txs[n - 1];
      Unspent(txs, n - 1) + UnspentNotes(tx.orchardNotes, |tx.orchardNotes|)
        + UnspentNotes(tx.saplingNotes, |tx.saplingNotes|)
        + UnspentUtxos(tx.transparentOutputs, |tx.transparentOutputs|)
  }

  lemma {:induction false} NotesConserved(tx: TransactionRecord, notes: seq<Note>, n: nat, anchor: nat)
    requires n <= |notes|
    ensures UnspentNotes(notes, n) ==
            NotesIn(tx, notes, n, anchor, Spendable) + NotesIn(tx, notes, n, anchor, ImmatureChange)
            + NotesIn(tx, notes, n, anchor, ImmatureIncome) + NotesIn(tx, notes, n, anchor, Dust)
            + NotesIn(tx, notes, n, anchor, Incoming) + NotesIn(tx, notes, n, anchor, IncomingDust)
  {
    hide NoteBucket;
    if n > 0 {
      NotesConserved(tx, notes, n - 1, anchor);
    }
  }

  lemma {:induction false} UtxosConserved(tx: TransactionRecord, n: nat, autoShielding: bool)
    requires n <= |tx.transparentOutputs|
    ensures UnspentUtxos(tx.transparentOutputs, n) ==
            UtxosIn(tx, n, autoShielding, Spendable) + UtxosIn(tx, n, autoShielding, ImmatureChange)
            + UtxosIn(tx, n, autoShielding, ImmatureIncome) + UtxosIn(tx, n, autoShielding, Dust)
            + UtxosIn(tx, n, autoShielding, Incoming) + UtxosIn(tx, n, autoShielding, IncomingDust)
  {
    hide UtxoBucket;
    if n > 0 {
      UtxosConserved(tx, n - 1, autoShielding);
    }
  }

  /** Whatever the anchor and the auto-shielding setting, no unspent output is missed or counted twice. */
  lemma {:induction false} FiguresConserveValue(txs: seq<TransactionRecord>, n: nat, anchor: nat, autoShielding: bool)
    requires n <= |txs|
    ensures Unspent(txs, n) ==
            TotalIn(txs, n, anchor, autoShielding, Spendable) + TotalIn(txs, n, anchor, autoShielding, ImmatureChange)
            + TotalIn(txs, n, anchor, autoShielding, ImmatureIncome) + TotalIn(txs, n, anchor, autoShielding, Dust)
            + TotalIn(txs, n, anchor, autoShielding, Incoming) + TotalIn(txs, n, anchor, autoShielding, IncomingDust)
  {
    hide TxIn, UnspentNotes, UnspentUtxos;
    if n > 0 {
      FiguresConserveValue(txs, n - 1, anchor, autoShielding);
      TxConserved(txs[n - 1], anchor, autoShielding);
    }
  }

  lemma TxConserved(tx: TransactionRecord, anchor: nat, autoShielding: bool)
    ensures UnspentNotes(tx.orchardNotes, |tx.orchardNotes|) + UnspentNotes(tx.saplingNotes, |tx.saplingNotes|)
              + UnspentUtxos(tx.transparentOutputs, |tx.transparentOutputs|) ==
            TxIn(tx, anchor, autoShielding, Spendable) + TxIn(tx, anchor, autoShielding, ImmatureChange)
            + TxIn(tx, anchor, autoShielding, ImmatureIncome) + TxIn(tx, anchor, autoShielding, Dust)
            + TxIn(tx, anchor, autoShielding, Incoming) + TxIn(tx, anchor, autoShielding, IncomingDust)
  {
    hide NotesIn, UtxosIn, UnspentNotes, UnspentUtxos;
    NotesConserved(tx, tx.orchardNotes, |tx.orchardNotes|, anchor);
    NotesConserved(tx, tx.saplingNotes, |tx.saplingNotes|, anchor);
    UtxosConserved(tx, |tx.transparentOutputs|, autoShielding);
  }

  lemma FiguresAddUp(
      balances: UserBalances, txs: seq<TransactionRecord>, anchor: nat, autoShielding: bool)
    requires forall b :: Figure(balances, b) == TotalIn(txs, |txs|, anchor, autoShielding, b)
    ensures AllFigures(balances) == Unspent(txs, |txs|)
  {
    FiguresConserveValue(txs, |txs|, anchor, autoShielding);
    assert Figure(balances, Spendable) == balances.spendable && Figure(balances, Dust) == balances.dust;
    assert Figure(balances, ImmatureChange) == balances.immatureChange;
    assert Figure(balances, ImmatureIncome) == balances.immatureIncome;
    assert Figure(balances, Incoming) == balances.incoming && Figure(balances, IncomingDust) == balances.incomingDust;
  }

  // ---- What the figures say

  /** How far a transaction is confirmed, and whether it brought anything from outside, decide which figures it can add
      to: above the anchor or unconfirmed its notes are not spendable; transactions of change only have no dust and no
      income; all others no change; and what is not mined counts as incoming, what is never does. */
  lemma {:induction false} TransactionsKeepToTheirFigures(tx: TransactionRecord, notes: seq<Note>, n: nat, anchor: nat)
    requires n <= |notes|
    ensures !tx.status.Confirmed? || tx.status.height > anchor ==> NotesIn(tx, notes, n, anchor, Spendable) == 0
    ensures tx.status.Confirmed? && tx.status.height <= anchor ==>
              NotesIn(tx, notes, n, anchor, ImmatureChange) == NotesIn(tx, notes, n, anchor, ImmatureIncome) == 0
    ensures if tx.transparentOutputs == [] && forall note :: note in tx.saplingNotes + tx.orchardNotes ==> note.isChange
            then NotesIn(tx, notes, n, anchor, Spendable) + NotesIn(tx, notes, n, anchor, ImmatureChange)
                   == UnspentNotes(notes, n)
            else NotesIn(tx, notes, n, anchor, ImmatureChange) == 0
    ensures if tx.status.Confirmed?
            then NotesIn(tx, notes, n, anchor, Incoming) == NotesIn(tx, notes, n, anchor, IncomingDust) == 0
            else NotesIn(tx, notes, n, anchor, Dust) == NotesIn(tx, notes, n, anchor, ImmatureIncome) == 0
  {
    if n > 0 {
      TransactionsKeepToTheirFigures(tx, notes, n - 1, anchor);
    }
  }

  /** Dust is income, of either kind, that the marginal fee uses up; and the outputs the fee is reckoned from are
      exactly the unspent ones shown as spendable or as change still to mature. */
  lemma DustAndFees(tx: TransactionRecord, note: Note, utxo: Utxo, anchor: nat, autoShielding: bool)
    ensures NoteBucket(tx, note, anchor) in {Dust, IncomingDust} <==> IsIncoming(tx) && note.value <= 5000
    ensures UtxoBucket(tx, utxo, autoShielding) in {Dust, IncomingDust} <==> utxo.value <= 5000
    ensures NotePays(tx, note, anchor) <==>
              !note.spent && NoteBucket(tx, note, anchor) in {Spendable, ImmatureChange}
    ensures UtxosPaying([utxo], 1, autoShielding) == 1 <==>
              !utxo.spent && UtxoBucket(tx, utxo, autoShielding) == Spendable
    ensures UtxoBucket(tx, utxo, autoShielding) == Spendable <==> !autoShielding && utxo.value > 5000
    ensures tx.status.Confirmed? ==> UtxoBucket(tx, utxo, autoShielding) in {Spendable, ImmatureIncome, Dust}
    ensures !tx.status.Confirmed? ==> UtxoBucket(tx, utxo, autoShielding) in {Spendable, Incoming, IncomingDust}
  {
    assert UtxosPaying([utxo], 0, autoShielding) == 0;
  }

  /** The fee counts each paying output once. */
  lemma {:induction false} PayingNotesCounted(tx: TransactionRecord, notes: seq<Note>, n: nat, anchor: nat)
    requires n <= |notes|
    ensures NotesPaying(tx, notes, n, anchor) == |set i | 0 <= i < n && NotePays(tx, notes[i], anchor)|
  {
    hide NotePays;
    if n > 0 {
      PayingNotesCounted(tx, notes, n - 1, anchor);
      var before, after := set i | 0 <= i < n - 1 && NotePays(tx, notes[i], anchor),
                           set i | 0 <= i < n && NotePays(tx, notes[i], anchor);
      assert after == before + if NotePays(tx, notes[n - 1], anchor) then {n - 1} else {};
    }
  }

  lemma {:induction false} PayingUtxosCounted(utxos: seq<Utxo>, n: nat, autoShielding: bool)
    requires n <= |utxos|
    ensures UtxosPaying(utxos, n, autoShielding)
              == |set i | 0 <= i < n && !autoShielding && !utxos[i].spent && utxos[i].value > 5000|
  {
    if n > 0 {
      PayingUtxosCounted(utxos, n - 1, autoShielding);
      var before, after := set i | 0 <= i < n - 1 && !autoShielding && !utxos[i].spent && utxos[i].value > 5000,
                           set i | 0 <= i < n && !autoShielding && !utxos[i].spent && utxos[i].value > 5000;
      var pays := !autoShielding && !utxos[n - 1].spent && utxos[n - 1].value > 5000;
      assert after == before + if pays then {n - 1} else {};
    }
  }

  /** No fee is shown exactly when nothing pays: no output of any transaction is spendable or change to mature. */
  lemma {:induction false} NoFeeIffNothingPays(txs: seq<TransactionRecord>, n: nat, anchor: nat, autoShielding: bool)
    requires n <= |txs|
    ensures Paying(txs, n, anchor, autoShielding) == 0 <==>
              forall i :: 0 <= i < n ==>
                && (forall j :: 0 <= j < |txs[i].orchardNotes| ==> !NotePays(txs[i], txs[i].orchardNotes[j], anchor))
                && (forall j :: 0 <= j < |txs[i].saplingNotes| ==> !NotePays(txs[i], txs[i].saplingNotes[j], anchor))
                && (forall j :: 0 <= j < |txs[i].transparentOutputs| ==>
                      var utxo := txs[i].transparentOutputs[j];
                      utxo.spent || UtxoBucket(txs[i], utxo, autoShielding) != Spendable)
  {
    hide NotePays, NotesPaying, UtxosPaying;
    if n > 0 {
      NoFeeIffNothingPays(txs, n - 1, anchor, autoShielding);
      var tx := txs[n - 1];
      NonePays(tx, tx.orchardNotes, |tx.orchardNotes|, anchor);
      NonePays(tx, tx.saplingNotes, |tx.saplingNotes|, anchor);
      NoUtxoPays(tx.transparentOutputs, |tx.transparentOutputs|, autoShielding);
    }
  }

  lemma {:induction false} NonePays(tx: TransactionRecord, notes: seq<Note>, n: nat, anchor: nat)
    requires n <= |notes|
    ensures NotesPaying(tx, notes, n, anchor) == 0 <==> forall j :: 0 <= j < n ==> !NotePays(tx, notes[j], anchor)
  {
    hide NotePays;
    if n > 0 {
      NonePays(tx, notes, n - 1, anchor);
    }
  }

  lemma {:induction false} NoUtxoPays(utxos: seq<Utxo>, n: nat, autoShielding: bool)
    requires n <= |utxos|
    ensures UtxosPaying(utxos, n, autoShielding) == 0 <==>
              forall j :: 0 <= j < n ==> autoShielding || utxos[j].spent || utxos[j].value <= MARGIN_FEE
  {
    if n > 0 {
      NoUtxoPays(utxos, n - 1, autoShielding);
    }
  }

  /** Everything unspent is counted: the value of what is unspent adds up, list by list and output by output. */
  lemma {:induction false} UnspentNotesAddUp(a: seq<Note>, b: seq<Note>, n: nat)
    requires n <= |a| + |b|
    ensures UnspentNotes(a + b, n) ==
            if n <= |a| then UnspentNotes(a, n) else UnspentNotes(a, |a|) + UnspentNotes(b, n - |a|)
    ensures n == 1 && b == [] ==> UnspentNotes(a, 1) == if a[0].spent then 0 else a[0].value
  {
    if n > 0 {
      UnspentNotesAddUp(a, b, n - 1);
    }
    assert UnspentNotes(a, 0) == 0;
  }

  lemma {:induction false} UnspentUtxosAddUp(a: seq<Utxo>, b: seq<Utxo>, n: nat)
    requires n <= |a| + |b|
    ensures UnspentUtxos(a + b, n) ==
            if n <= |a| then UnspentUtxos(a, n) else UnspentUtxos(a, |a|) + UnspentUtxos(b, n - |a|)
    ensures n == 1 && b == [] ==> UnspentUtxos(a, 1) == if a[0].spent then 0 else a[0].value
  {
    if n > 0 {
      UnspentUtxosAddUp(a, b, n - 1);
    }
    assert UnspentUtxos(a, 0) == 0;
  }

  lemma {:induction false} NotesMature(tx: TransactionRecord, notes: seq<Note>, n: nat, anchor: nat, later: nat)
    requires n <= |notes| && anchor <= later
    ensures NotesIn(tx, notes, n, anchor, Spendable) <= NotesIn(tx, notes, n, later, Spendable)
    ensures NotesIn(tx, notes, n, anchor, ImmatureChange) >= NotesIn(tx, notes, n, later, ImmatureChange)
    ensures NotesIn(tx, notes, n, anchor, ImmatureIncome) >= NotesIn(tx, notes, n, later, ImmatureIncome)
    ensures NotesIn(tx, notes, n, anchor, Spendable) + NotesIn(tx, notes, n, anchor, ImmatureChange)
              + NotesIn(tx, notes, n, anchor, ImmatureIncome)
              == NotesIn(tx, notes, n, later, Spendable) + NotesIn(tx, notes, n, later, ImmatureChange)
                 + NotesIn(tx, notes, n, later, ImmatureIncome)
    ensures NotesIn(tx, notes, n, anchor, Dust) == NotesIn(tx, notes, n, later, Dust)
    ensures NotesIn(tx, notes, n, anchor, Incoming) == NotesIn(tx, notes, n, later, Incoming)
    ensures NotesIn(tx, notes, n, anchor, IncomingDust) == NotesIn(tx, notes, n, later, IncomingDust)
  {
    hide IsIncoming;
    if n > 0 {
      NotesMature(tx, notes, n - 1, anchor, later);
    }
  }

  /** Raising the anchor only moves value out of the immature figures into spendable. */
  lemma {:induction false} RaisingTheAnchor(
      txs: seq<TransactionRecord>, n: nat, anchor: nat, later: nat, autoShielding: bool)
    requires n <= |txs| && anchor <= later
    ensures var before, after := (b: Bucket) => TotalIn(txs, n, anchor, autoShielding, b),
                                 (b: Bucket) => TotalIn(txs, n, later, autoShielding, b);
            && before(Spendable) <= after(Spendable) && before(ImmatureChange) >= after(ImmatureChange)
            && before(ImmatureIncome) >= after(ImmatureIncome)
            && before(Spendable) + before(ImmatureChange) + before(ImmatureIncome)
                 == after(Spendable) + after(ImmatureChange) + after(ImmatureIncome)
            && before(Dust) == after(Dust) && before(Incoming) == after(Incoming)
            && before(IncomingDust) == after(IncomingDust)
  {
    hide NotesIn, UtxosIn;
    if n > 0 {
      RaisingTheAnchor(txs, n - 1, anchor, later, autoShielding);
      var tx := txs[n - 1];
      NotesMature(tx, tx.orchardNotes, |tx.orchardNotes|, anchor, later);
      NotesMature(tx, tx.saplingNotes, |tx.saplingNotes|, anchor, later);
    }
  }

  // ---- The pass over the transactions

  /** One pool's notes of one transaction, by the three running sums and two counts. */
  method SumNotes(tx: TransactionRecord, notes: seq<Note>, incoming: bool, ghost anchor: nat)
    returns (change: nat, useful: nat, dust: nat, changeCount: nat, usefulCount: nat)
    requires incoming == IsIncoming(tx) && (notes == tx.orchardNotes || notes == tx.saplingNotes)
    ensures incoming ==> change == 0 && changeCount == 0
    ensures !incoming ==> useful == dust == usefulCount == 0
    ensures forall b :: NotesIn(tx, notes, |notes|, anchor, b) == Split(tx, change, useful, dust, anchor, b)
    ensures NotesPaying(tx, notes, |notes|, anchor) == changeCount + if IsMature(tx, anchor) then usefulCount else 0
  {
    change, useful, dust, changeCount, usefulCount := 0, 0, 0, 0, 0;
    for i := 0 to |notes|
      invariant incoming ==> change == 0 && changeCount == 0
      invariant !incoming ==> useful == dust == usefulCount == 0
      invariant forall b :: NotesIn(tx, notes, i, anchor, b) == Split(tx, change, useful, dust, anchor, b)
      invariant NotesPaying(tx, notes, i, anchor) == changeCount + if IsMature(tx, anchor) then usefulCount else 0
    {
      var note := notes[i];
      assert note in notes;
      if !note.spent {
        if !incoming && note.isChange {
          change := change + note.value;
          changeCount := changeCount + 1;
        } else if incoming {
          if note.value > MARGIN_FEE {
            useful := useful + note.value;
            usefulCount := usefulCount + 1;
          } else {
            dust := dust + note.value;
          }
        }
      }
    }
  }

  /** How a transaction's change, useful and dust sums fall into the buckets. */
  function Split(tx: TransactionRecord, change: nat, useful: nat, dust: nat, anchor: nat, b: Bucket): nat {
    (if b == (if IsMature(tx, anchor) then Spendable else ImmatureChange) then change else 0)
    + (if b == (if IsMature(tx, anchor) then Spendable else if tx.status.Confirmed? then ImmatureIncome else Incoming)
       then useful else 0)
    + (if b == DustBucket(tx) then dust else 0)
  }

  method SumUtxos(tx: TransactionRecord, ghost autoShielding: bool) returns (useful: nat, dust: nat, usefulCount: nat)
    ensures forall b :: UtxosIn(tx, |tx.transparentOutputs|, autoShielding, b)
              == SplitUtxos(tx, useful, dust, autoShielding, b)
    ensures UtxosPaying(tx.transparentOutputs, |tx.transparentOutputs|, autoShielding)
              == if autoShielding then 0 else usefulCount
  {
    var utxos := tx.transparentOutputs;
    var incoming := IsIncoming(tx);
    useful, dust, usefulCount := 0, 0, 0;
    for i := 0 to |utxos|
      invariant forall b :: UtxosIn(tx, i, autoShielding, b) == SplitUtxos(tx, useful, dust, autoShielding, b)
      invariant UtxosPaying(utxos, i, autoShielding) == if autoShielding then 0 else usefulCount
    {
      if !utxos[i].spent && incoming {
        if utxos[i].value > MARGIN_FEE {
          useful := useful + utxos[i].value;
          usefulCount := usefulCount + 1;
        } else {
          dust := dust + utxos[i].value;
        }
      }
    }
  }

  function SplitUtxos(tx: TransactionRecord, useful: nat, dust: nat, autoShielding: bool, b: Bucket): nat {
    (if b == (if !autoShielding then Spendable else if tx.status.Confirmed? then ImmatureIncome else Incoming)
     then useful else 0)
    + (if b == DustBucket(tx) then dust else 0)
  }

  /** Change always counts, income once mature, and transparent outputs unless they are to be shielded. */
  function AddedFees(changeCount: nat, noteCount: nat, utxoCount: nat, mature: bool, autoShielding: bool): nat {
    changeCount * MARGIN_FEE + (if mature then noteCount * MARGIN_FEE else 0)
    + if !autoShielding then utxoCount * MARGIN_FEE else 0
  }

  lemma FeesOfPaying(changeCount: nat, noteCount: nat, utxoCount: nat, mature: bool, autoShielding: bool)
    ensures AddedFees(changeCount, noteCount, utxoCount, mature, autoShielding)
              == MARGIN_FEE * (changeCount + (if mature then noteCount else 0) + if autoShielding then 0 else utxoCount)
  {
  }

  /** Adds one transaction's sums to the figures they belong in. */
  method AddValues(
      before: UserBalances, tx: TransactionRecord, ghost anchor: nat, autoShielding: bool, mature: bool,
      change: nat, useful: nat, dustValue: nat, utxoValue: nat)
    returns (balances: UserBalances)
    requires mature == IsMature(tx, anchor)
    ensures balances.minimumFees == before.minimumFees
    ensures forall b :: Figure(balances, b) == Figure(before, b) + Split(tx, change, useful, dustValue, anchor, b)
                                               + SplitUtxos(tx, utxoValue, 0, autoShielding, b)
  {
    balances := before;
    if autoShielding {
      if !tx.status.Confirmed? {
        balances := balances.(incoming := balances.incoming + utxoValue);
      } else {
        balances := balances.(immatureIncome := balances.immatureIncome + utxoValue);
      }
    } else {
      balances := balances.(spendable := balances.spendable + utxoValue);
    }

    if mature {
      balances := balances.(spendable := balances.spendable + useful + change, dust := balances.dust + dustValue);
    } else if tx.status.Confirmed? {
      balances := balances.(immatureIncome := balances.immatureIncome + useful,
                            immatureChange := balances.immatureChange + change, dust := balances.dust + dustValue);
    } else {
      balances := balances.(immatureChange := balances.immatureChange + change, incoming := balances.incoming + useful,
                            incomingDust := balances.incomingDust + dustValue);
    }
  }

  /** Adds one transaction to the figures. */
  method AddTransaction(before: UserBalances, tx: TransactionRecord, anchor: nat, autoShielding: bool)
    returns (balances: UserBalances)
    ensures forall b :: Figure(balances, b) == Figure(before, b) + TxIn(tx, anchor, autoShielding, b)
    ensures balances.minimumFees == before.minimumFees + MARGIN_FEE * TxPaying(tx, anchor, autoShielding)
  {
    hide IsIncoming, IsMature, NotesIn, UtxosIn, NotesPaying, UtxosPaying, AddedFees, Split, SplitUtxos;
    balances := before;
    var mature, incoming := IsMature(tx, anchor), IsIncoming(tx);
    var orchardChange, orchardUseful, orchardDust, orchardChangeCount, orchardCount :=
      SumNotes(tx, tx.orchardNotes, incoming, anchor);
    var saplingChange, saplingUseful, saplingDust, saplingChangeCount, saplingCount :=
      SumNotes(tx, tx.saplingNotes, incoming, anchor);
    var utxoValue, utxoDust, utxoCount := SumUtxos(tx, autoShielding);
    var change, useful := orchardChange + saplingChange, orchardUseful + saplingUseful;
    var dustValue := orchardDust + saplingDust + utxoDust;

    balances := balances.(minimumFees := balances.minimumFees + AddedFees(
      orchardChangeCount + saplingChangeCount, orchardCount + saplingCount, utxoCount, mature, autoShielding));
    FeesOfPaying(
      orchardChangeCount + saplingChangeCount, orchardCount + saplingCount, utxoCount, mature, autoShielding);

    balances := AddValues(balances, tx, anchor, autoShielding, mature, change, useful, dustValue, utxoValue);
    forall b ensures Figure(balances, b) == Figure(before, b) + TxIn(tx, anchor, autoShielding, b) {
      SplitsAdd(
        tx, orchardChange, orchardUseful, orchardDust, saplingChange, saplingUseful, saplingDust, utxoValue, utxoDust,
        anchor, autoShielding, b);
    }
  }

  lemma SplitsAdd(
      tx: TransactionRecord, change0: nat, useful0: nat, dust0: nat, change1: nat, useful1: nat, dust1: nat,
      utxoValue: nat, utxoDust: nat, anchor: nat, autoShielding: bool, b: Bucket)
    ensures Split(tx, change0, useful0, dust0, anchor, b) + Split(tx, change1, useful1, dust1, anchor, b)
              + SplitUtxos(tx, utxoValue, utxoDust, autoShielding, b)
              == Split(tx, change0 + change1, useful0 + useful1, dust0 + dust1 + utxoDust, anchor, b)
                 + SplitUtxos(tx, utxoValue, 0, autoShielding, b)
  {
    hide IsMature;
  }

  /** Every figure is the sum of what belongs in it, all of them add up to everything unspent, and the fee covers the
      paying outputs plus the receiving note. */
  method GetUserBalances(txs: seq<TransactionRecord>, anchor: nat, autoShielding: bool) returns (balances: UserBalances)
    ensures forall b :: Figure(balances, b) == TotalIn(txs, |txs|, anchor, autoShielding, b)
    ensures AllFigures(balances) == Unspent(txs, |txs|)
    ensures var paying := Paying(txs, |txs|, anchor, autoShielding);
            balances.minimumFees == if paying == 0 then 0 else MARGIN_FEE * (paying + 1)
  {
    hide TxIn, TxPaying, Unspent;
    balances := UserBalances(0, 0, 0, 0, 0, 0, 0);
    for i := 0 to |txs|
      invariant forall b :: Figure(balances, b) == TotalIn(txs, i, anchor, autoShielding, b)
      invariant balances.minimumFees == MARGIN_FEE * Paying(txs, i, anchor, autoShielding)
    {
      balances := AddTransaction(balances, txs[i], anchor, autoShielding);
    }
    FiguresAddUp(balances, txs, anchor, autoShielding);
    if balances.minimumFees > 0 {
      balances := balances.(minimumFees := balances.minimumFees + MARGIN_FEE);
    }
  }
}
