/** The data every other module speaks about: fixed-width integers, ids, transactions,
    blocks, unspent outputs, and the network parameters. */
module Types {

  const TWO_64: int := 0x1_0000_0000_0000_0000
  const TWO_256: int := 0x1_0000_0000_0000_0000_0000_0000_0000_0000_0000_0000_0000_0000_0000_0000_0000_0000

  type Byte = x: int | 0 <= x < 0x100
  type UInt32 = x: int | 0 <= x < 0x1_0000_0000
  type UInt64 = x: int | 0 <= x < TWO_64
  type Int32 = x: int | -0x8000_0000 <= x < 0x8000_0000
  type Int64 = x: int | -0x8000_0000_0000_0000 <= x < 0x8000_0000_0000_0000

  const MAX_UINT64: UInt64 := 0xFFFF_FFFF_FFFF_FFFF

  /** A double SHA-256 hash in its hexadecimal form. Only equality of ids is ever used by
      the chain and the mempool, so the type is left abstract. */
  type Id(==, !new)

  datatype Option<+T> = None | Some(value: T)

  /** idx is a signed 64-bit field; the wire module states its range. */
  datatype OutPoint = OutPoint(txId: Id, idx: int)

  datatype TxIn = TxIn(toSpend: Option<OutPoint>, unlockSig: seq<Byte>, unlockPubKey: seq<Byte>, sequence: Int32)

  datatype TxOut = TxOut(value: UInt64, toAddress: seq<Byte>)

  /** `id` is the cached hash of the other three fields. */
  datatype Tx = Tx(id: Id, ins: seq<TxIn>, outs: seq<TxOut>, lockTime: Int64) {
    predicate IsCoinbase() {
      |ins| == 1 && ins[0].toSpend.None?
    }
  }

  /** `id` is the cached hash of the header fields; `None` stands for an empty hash string. */
  datatype Block = Block(id: Id, version: UInt64, prev: Option<Id>, merkle: Option<Id>,
                         timestamp: Int64, bits: Byte, nonce: UInt64, txs: seq<Tx>)

  datatype Utxo = Utxo(out: TxOut, point: OutPoint, isCoinbase: bool, height: Int64)

  type UtxoMap = map<OutPoint, Utxo>

  const SEQUENCE_FINAL: Int32 := -1
  const SEQUENCE_RBF: Int32 := -3

  const COIN: UInt64 := 100_000_000
  const MAX_MONEY: UInt64 := 21_000_000 * COIN
  const MAX_BLOCK_SIZE: UInt32 := 1_000_000
  const COINBASE_MATURITY: int := 2
  const MAX_FUTURE_BLOCK_TIME: int := 60 * 60 * 2
  const DIFFICULTY_PERIOD_IN_SECS: int := 60 * 60 * 24
  const DIFFICULTY_PERIOD_IN_BLOCKS: int := 144
  const INITIAL_DIFFICULTY_BITS: Byte := 24
  const HALVE_SUBSIDY_AFTER: int := 210_000
  const LOCKTIME_THRESHOLD: int := 500_000_000

  ghost function Pow2(n: nat): (r: nat)
    ensures r >= 1
  {
    if n == 0 then 1 else 2 * Pow2(n - 1)
  }

  /** The sum of output values, as a mathematical integer. */
  ghost function OutSum(outs: seq<TxOut>): nat {
    if outs == [] then 0 else OutSum(outs[..|outs| - 1]) + outs[|outs| - 1].value
  }
}
