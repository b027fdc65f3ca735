/**
  Entities of the chain that several components share: transactions, cells, blocks.
  A hash is an opaque identifier; what the model needs of hashing (no collisions between
  transactions) is a stated hypothesis where it is used, never a property of this type.
 */
module Types {
  type Hash = nat

  const ZERO_HASH: Hash := 0

  /** The first number that does not fit 64 bits. */
  const U64_LIMIT: nat := 0x1_0000_0000_0000_0000

  datatype Option<+T> = None | Some(value: T)

  datatype OutPoint = OutPoint(txHash: Hash, index: nat)

  /** The out point a cellbase input carries. */
  const NULL_OUT_POINT: OutPoint := OutPoint(ZERO_HASH, 0xffff_ffff)

  datatype Input = Input(previous: OutPoint, since: nat)

  datatype Output = Output(capacity: nat, lock: Hash, dataLen: nat)

  /** `hash` covers inputs and outputs; the witnesses are outside it. */
  datatype Tx = Tx(hash: Hash, inputs: seq<Input>, outputs: seq<Output>, witnesses: nat)

  predicate IsCellbase(tx: Tx) {
    |tx.inputs| == 1 && tx.witnesses == 1 && tx.inputs[0].previous == NULL_OUT_POINT
  }

  function InputPts(tx: Tx): (ops: seq<OutPoint>)
  {
    seq(|tx.inputs|, i requires 0 <= i < |tx.inputs| => tx.inputs[i].previous)
  }

  datatype Uncle = Uncle(hash: Hash, parent: Hash, number: nat, epoch: nat, target: nat, proposals: seq<Hash>)

  datatype Block = Block(
    hash: Hash,
    parent: Hash,
    number: nat,
    epoch: nat,
    target: nat,
    difficulty: nat,
    txs: seq<Tx>,
    uncles: seq<Uncle>,
    proposals: seq<Hash>)

  /** Cell-set entry of a transaction: where it was committed and which outputs are dead. */
  datatype Meta = Meta(number: nat, epoch: nat, blockHash: Hash, cellbase: bool, dead: seq<bool>)

  datatype TxInfo = TxInfo(blockHash: Hash, index: nat, number: nat, epoch: nat)

  datatype BlockExt = BlockExt(totalDifficulty: nat, totalUncles: nat, verified: Option<bool>)

  datatype CellStatus = Live(output: Output, info: TxInfo) | Dead | Unknown
}
