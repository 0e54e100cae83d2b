/** Compact blocks as the server sends them. Hashes, transaction ids, nullifiers and note commitments
    are opaque identifiers. */
module CompactBlocks {
  import opened Wrappers

  datatype Pool = Sapling | Orchard

  /** A shielded output of either pool: its note commitment and everything trial decryption looks at. */
  datatype Output = Output(commitment: nat, ciphertext: nat)

  /** An Orchard action spends a nullifier and creates an output. */
  datatype OrchardAction = OrchardAction(nullifier: nat, output: Output)

  datatype CompactTx = CompactTx(txid: nat, spends: seq<nat>, outputs: seq<Output>, actions: seq<OrchardAction>) {

    function Outputs(pool: Pool): (r: seq<Output>)
      ensures |r| == if pool.Sapling? then |outputs| else |actions|
      ensures pool.Sapling? ==> r == outputs
      ensures pool.Orchard? ==> forall i {:trigger r[i]} :: 0 <= i < |r| ==> r[i] == actions[i].output
    {
      if pool.Sapling? then outputs else seq(|actions|, i requires 0 <= i < |actions| => actions[i].output)
    }

    /** The nullifiers revealed in a pool: Sapling spends, or one per Orchard action. */
    function Nullifiers(pool: Pool): (r: seq<nat>)
      ensures |r| == if pool.Sapling? then |spends| else |actions|
      ensures pool.Sapling? ==> r == spends
      ensures pool.Orchard? ==> forall i {:trigger r[i]} :: 0 <= i < |r| ==> r[i] == actions[i].nullifier
    {
      if pool.Sapling? then spends else seq(|actions|, i requires 0 <= i < |actions| => actions[i].nullifier)
    }
  }

  datatype ChainMetadata = ChainMetadata(saplingTreeSize: nat, orchardTreeSize: nat) {
    function TreeSize(pool: Pool): nat {
      if pool.Sapling? then saplingTreeSize else orchardTreeSize
    }
  }

  datatype CompactBlock = CompactBlock(
    height: nat, hash: nat, prevHash: nat, time: nat, vtx: seq<CompactTx>, chainMetadata: Option<ChainMetadata>)

  function Commitments(outputs: seq<Output>): (r: seq<nat>)
    ensures |r| == |outputs|
    ensures forall i {:trigger r[i]} :: 0 <= i < |r| ==> r[i] == outputs[i].commitment
  {
    seq(|outputs|, i requires 0 <= i < |outputs| => outputs[i].commitment)
  }

  /** The server's chain up to `top`: one block per height, each naming the hash of the one below. */
  ghost predicate Chain(chain: nat -> CompactBlock, top: nat) {
    && (forall h: nat :: h <= top ==> chain(h).height == h)
    && (forall h: nat :: 0 < h <= top ==> chain(h).prevHash == chain(h - 1).hash)
  }

  /** Blocks `hi` down to `lo`, tallest first. */
  function Descending(chain: nat -> CompactBlock, hi: nat, lo: nat): (r: seq<CompactBlock>)
    requires lo <= hi + 1
    ensures |r| == hi + 1 - lo
    ensures forall i :: 0 <= i < |r| ==> r[i] == chain(hi - i)
  {
    seq(hi + 1 - lo, i requires 0 <= i < hi + 1 - lo => chain(hi - i))
  }

  /** Heights `hi` down to `lo`, empty when `hi < lo`. */
  function Heights(hi: int, lo: nat): (r: seq<nat>)
    requires hi + 1 >= 0
    ensures |r| == if hi < lo then 0 else hi + 1 - lo
    ensures forall i {:trigger r[i]} :: 0 <= i < |r| ==> r[i] == hi - i
  {
    if hi < lo then [] else seq(hi + 1 - lo, i requires 0 <= i < hi + 1 - lo => hi - i)
  }
}
