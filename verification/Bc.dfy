// The parts of a block the chain state depends on.  Hashes are only ever
// compared for equality, so they are plain numbers here.
module Bc {
  import opened Wrappers

  type Hash = nat

  /** An entry of a transaction: an output (of the native asset or not) or anything else. */
  datatype Entry = Output(native: bool) | NonOutput

  datatype Tx = Tx(id: Hash, entries: map<Hash, Entry>, spentOutputIds: seq<Hash>, resultIds: seq<Hash>) {

    /** The output entry with the given id, if the transaction has one. */
    function FindOutput(entryId: Hash): Option<Entry> {
      if entryId in entries && entries[entryId].Output? then Some(entries[entryId]) else None
    }
  }

  datatype Header = Header(hash: Hash, previous: Hash, version: nat, height: nat, timestamp: nat, bits: nat)

  datatype Block = Block(header: Header, transactions: seq<Tx>)

  /** One flag per transaction: true when only its gas part is executed. */
  type TxStatus = seq<bool>
}
