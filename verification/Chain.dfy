/** What the daemon hands out: transactions, with the outputs that belong to the wallet, and blocks. */
module Chain {
  import opened Prelude
  import opened Invoices

  type Hash = nat
  type OutputKey = nat

  /** An output the view key recognises as ours: one-time key, position in its transaction,
      subaddress it pays, and its amount (none when it cannot be unblinded). */
  datatype OwnedOutput = OwnedOutput(key: OutputKey, index: nat, subIndex: SubIndex, amount: Option<nat>)

  datatype Tx = Tx(hash: Hash, unlockTime: nat, owned: seq<OwnedOutput>)

  datatype OutputId = OutputId(txHash: Hash, index: nat)

  /** An owned output together with the transaction it is in. */
  datatype TxOutput = TxOutput(txHash: Hash, out: OwnedOutput)
  {
    function Id(): OutputId { OutputId(txHash, out.index) }

    function Amount(): nat { if out.amount.Some? then out.amount.value else 0 }
  }

  function InTx(hash: Hash, owned: seq<OwnedOutput>): seq<TxOutput>
  {
    seq(|owned|, i requires 0 <= i < |owned| => TxOutput(hash, owned[i]))
  }

  /** The owned outputs of a list of transactions, in order; time-locked transactions are passed over. */
  function Outputs(txs: seq<Tx>): seq<TxOutput>
  {
    if |txs| == 0 then []
    else
      var last := txs[|txs| - 1];
      Outputs(txs[..|txs| - 1]) + (if last.unlockTime == 0 then InTx(last.hash, last.owned) else [])
  }

  /** A daemon's answer to "which block is at this height", transactions included. */
  datatype Fetched = Fetched(hash: Hash, prevId: Hash, txs: seq<Tx>)

  /** A cached block. */
  datatype Block = Block(hash: Hash, height: nat, prevId: Hash, txs: seq<Tx>)

  function Cached(f: Fetched, height: nat): Block { Block(f.hash, height, f.prevId, f.txs) }

  /** The daemon during one update, as a map from requested height to its answer (none: the request failed).
      An update asks for each height at most once, so this covers a daemon whose chain changes meanwhile. */
  type Daemon = nat -> Option<Fetched>

  /** Answers for neighbouring heights link up. */
  ghost predicate ServesOneChain(daemon: Daemon)
  {
    forall h: nat :: daemon(h).Some? && daemon(h + 1).Some? ==> daemon(h + 1).value.prevId == daemon(h).value.hash
  }
}
