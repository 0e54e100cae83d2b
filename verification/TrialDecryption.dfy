/** Trial decryption of compact outputs with a list of tagged incoming viewing keys. The note encryption itself is
    an uninterpreted function of key and output. */
module TrialDecryption {
  import opened Wrappers
  import opened CompactBlocks

  type KeyId = nat
  type Note = nat
  type Nullifier = nat

  datatype DecryptedOutput = DecryptedOutput(ivkTag: KeyId, note: Note)

  datatype OutputId = OutputId(txid: nat, outputIndex: nat)

  /** One pool's scanning keys: `tags` in the order they are tried, what each key decrypts, and the nullifier
      each key gives a note at a position. */
  datatype PoolKeys = PoolKeys(
    tags: seq<KeyId>, decrypts: (KeyId, Output) -> Option<Note>, nullifier: (KeyId, Note, nat) -> Nullifier)

  /** Key `k` decrypts the output to `d`, and none before it does. */
  predicate FirstToDecrypt(
      tags: seq<KeyId>, decrypts: (KeyId, Output) -> Option<Note>, output: Output, k: nat, d: DecryptedOutput)
  {
    && k < |tags| && tags[k] == d.ivkTag && decrypts(tags[k], output) == Some(d.note)
    && forall j :: 0 <= j < k ==> decrypts(tags[j], output) == None
  }

  /** Decrypting a single output: the first key that succeeds. */
  function DecryptWith(tags: seq<KeyId>, decrypts: (KeyId, Output) -> Option<Note>, output: Output)
    : (r: Option<DecryptedOutput>)
    ensures r.Some? ==> exists k: nat :: FirstToDecrypt(tags, decrypts, output, k, r.value)
    ensures r.None? ==> forall tag :: tag in tags ==> decrypts(tag, output) == None
  {
    if tags == [] then None
    else
      match decrypts(tags[0], output)
      case Some(note) =>
        assert FirstToDecrypt(tags, decrypts, output, 0, DecryptedOutput(tags[0], note));
        Some(DecryptedOutput(tags[0], note))
      case None =>
        var r := DecryptWith(tags[1..], decrypts, output);
        assert r.Some? ==> exists k: nat :: FirstToDecrypt(tags, decrypts, output, k, r.value) by {
          if r.Some? {
            var k: nat :| FirstToDecrypt(tags[1..], decrypts, output, k, r.value);
            assert FirstToDecrypt(tags, decrypts, output, k + 1, r.value);
          }
        }
        r
  }

  function Decrypt(keys: PoolKeys, output: Output): Option<DecryptedOutput> {
    DecryptWith(keys.tags, keys.decrypts, output)
  }

  /** All of a pool's keys are tried, in their order. */
  lemma AllKeysAreTried(keys: PoolKeys, output: Output)
    ensures Decrypt(keys, output).Some? <==> exists tag :: tag in keys.tags && keys.decrypts(tag, output).Some?
    ensures Decrypt(keys, output).Some? ==>
              exists k: nat :: FirstToDecrypt(keys.tags, keys.decrypts, output, k, Decrypt(keys, output).value)
  {
    hide DecryptWith;
  }

  /** There is one first key, so one result. */
  lemma FirstIsUnique(
      tags: seq<KeyId>, decrypts: (KeyId, Output) -> Option<Note>, output: Output, j: nat, d: DecryptedOutput,
      k: nat, e: DecryptedOutput)
    requires FirstToDecrypt(tags, decrypts, output, j, d) && FirstToDecrypt(tags, decrypts, output, k, e)
    ensures j == k && d == e
  {
  }

  /** A transaction's outputs decrypted one by one, keyed by their index. */
  function DirectDecryption(keys: PoolKeys, txid: nat, outputs: seq<Output>): map<OutputId, DecryptedOutput> {
    map i | 0 <= i < |outputs| && Decrypt(keys, outputs[i]).Some? ::
        OutputId(txid, i) := Decrypt(keys, outputs[i]).value
  }

  /** There is a result for exactly the outputs that some key decrypts, and it is the first such key's. */
  lemma DirectlyDecrypted(keys: PoolKeys, txid: nat, outputs: seq<Output>)
    ensures forall id :: id in DirectDecryption(keys, txid, outputs) <==>
              && id.txid == txid && id.outputIndex < |outputs|
              && exists tag :: tag in keys.tags && keys.decrypts(tag, outputs[id.outputIndex]).Some?
    ensures forall id :: id in DirectDecryption(keys, txid, outputs) ==>
              exists k: nat ::
                FirstToDecrypt(
                  keys.tags, keys.decrypts, outputs[id.outputIndex], k, DirectDecryption(keys, txid, outputs)[id])
  {
    hide Decrypt, FirstToDecrypt;
    forall i: nat | i < |outputs|
      ensures Decrypt(keys, outputs[i]).Some? <==>
              exists tag :: tag in keys.tags && keys.decrypts(tag, outputs[i]).Some?
      ensures Decrypt(keys, outputs[i]).Some? ==>
              exists k: nat ::
                FirstToDecrypt(keys.tags, keys.decrypts, outputs[i], k, Decrypt(keys, outputs[i]).value)
    {
      AllKeysAreTried(keys, outputs[i]);
    }
  }
}
