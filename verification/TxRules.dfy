/** What makes a transaction acceptable: basic shape, time locks, resolvable and signed inputs,
    and no more spent than available. */
module TxRules {
  import opened Types
  import opened MedianTime

  /** What comes from outside: signatures, sizes, hashes and the block encoding. */
  datatype Rules = Rules(
    sigOk: (Tx, TxIn, Utxo) -> bool,
    txSize: Tx -> nat,
    nodeHash: (Id, Id) -> Id,
    hashValue: Id -> nat,
    blockBytes: Block -> seq<Byte>)

  // ----- Relative lock times: bit fields of the sequence number -----

  function AsUInt32(x: int): UInt32 {
    x % 0x1_0000_0000
  }

  predicate HasRelativeLockTime(txIn: TxIn) {
    AsUInt32(txIn.sequence) / 0x8000_0000 % 2 == 0
  }

  predicate IsTimeBasedLockTime(txIn: TxIn) {
    AsUInt32(txIn.sequence) / 0x40_0000 % 2 != 0
  }

  function RelativeLockTimeValue(txIn: TxIn): int {
    AsUInt32(txIn.sequence) % 0x1_0000
  }

  /** The encoders and the accessors agree: a sequence number written for blocks or for units of
      512 seconds is read back as such. */
  lemma EncodedLocksReadBack(txIn: TxIn, value: int)
    requires 0 <= value < 0x1_0000
    ensures var blocks := txIn.(sequence := value);
            HasRelativeLockTime(blocks) && !IsTimeBasedLockTime(blocks) && RelativeLockTimeValue(blocks) == value
    ensures var time := txIn.(sequence := value + 0x40_0000);
            HasRelativeLockTime(time) && IsTimeBasedLockTime(time) && RelativeLockTimeValue(time) == value
  {
  }

  // ----- Lock times -----

  predicate IsFinal(tx: Tx) {
    tx.lockTime == 0 || forall i | 0 <= i < |tx.ins| :: tx.ins[i].sequence == SEQUENCE_FINAL
  }

  predicate LockTimeOk(tx: Tx, height: int, mtp: int) {
    IsFinal(tx) || tx.lockTime <= if tx.lockTime < LOCKTIME_THRESHOLD then height else mtp
  }

  /** Median time past of the block before the one that created the output. */
  ghost function StartTime(times: seq<int>, utxoHeight: int): int {
    var blockIdx := AsUInt32(AsUInt32(utxoHeight) - 1);
    if blockIdx > 0 then MedianTimePastAt(times, blockIdx - 1) else 0
  }

  ghost predicate InputLockOk(txIn: TxIn, utxos: UtxoMap, times: seq<int>, height: int, mtp: int) {
    HasRelativeLockTime(txIn) && txIn.toSpend.Some? && txIn.toSpend.value in utxos ==>
      var utxo := utxos[txIn.toSpend.value];
      if IsTimeBasedLockTime(txIn)
      then StartTime(times, utxo.height) + RelativeLockTimeValue(txIn) * 512 <= mtp
      else utxo.height + RelativeLockTimeValue(txIn) <= height
  }

  ghost predicate SequenceLocksOk(tx: Tx, utxos: UtxoMap, times: seq<int>, height: int, mtp: int) {
    tx.IsCoinbase() || forall i | 0 <= i < |tx.ins| :: InputLockOk(tx.ins[i], utxos, times, height, mtp)
  }

  /** Both checks at the tip of a chain with the given block times. */
  ghost predicate LocksOk(tx: Tx, utxos: UtxoMap, times: seq<int>) {
    && LockTimeOk(tx, |times|, MedianTimePast(times))
    && SequenceLocksOk(tx, utxos, times, |times|, MedianTimePast(times))
  }

  /** Unspent outputs of a chain carry the height of a block of that chain. */
  ghost predicate HeightsWithin(utxos: UtxoMap, n: nat) {
    forall p | p in utxos :: 1 <= utxos[p].height <= n < 0x1_0000_0000
  }

  /** Once a transaction passes its lock checks at a tip, it passes them at every validated
      extension in which its inputs are still unspent. */
  lemma LocksPersist(tx: Tx, utxos: UtxoMap, times: seq<int>, utxos': UtxoMap, later: seq<int>, start: nat)
    requires start <= |times| <= |later| && later[..|times|] == times
    requires TimesRise(later, start)
    requires HeightsWithin(utxos, |times|)
    requires forall i | 0 <= i < |tx.ins| && tx.ins[i].toSpend.Some? ::
               var p := tx.ins[i].toSpend.value;
               (p in utxos <==> p in utxos') && (p in utxos ==> utxos[p] == utxos'[p])
    requires LocksOk(tx, utxos, times)
    ensures LocksOk(tx, utxos', later)
  {
    NeverDecreases(times, later, start);
    if !tx.IsCoinbase() {
      forall i | 0 <= i < |tx.ins|
        ensures InputLockOk(tx.ins[i], utxos', later, |later|, MedianTimePast(later))
      {
        assert InputLockOk(tx.ins[i], utxos, times, |times|, MedianTimePast(times));
        if tx.ins[i].toSpend.Some? && tx.ins[i].toSpend.value in utxos {
          StartTimeIsStable(times, later, utxos[tx.ins[i].toSpend.value].height);
        }
      }
    }
  }

  lemma StartTimeIsStable(times: seq<int>, later: seq<int>, height: int)
    requires |times| <= |later| && later[..|times|] == times
    requires 1 <= height <= |times| < 0x1_0000_0000
    ensures StartTime(later, height) == StartTime(times, height)
  {
    var blockIdx := height - 1;
    assert AsUInt32(height) == height && AsUInt32(blockIdx) == blockIdx;
    hide AsUInt32, MedianTimePastAt;
    if blockIdx > 0 {
      InnerMedianIsStable(times, later, blockIdx - 1);
    }
  }

  method CheckSequenceLocks(tx: Tx, utxos: UtxoMap, blocks: seq<Block>, height: int, mtp: int) returns (ok: bool)
    ensures ok <==> SequenceLocksOk(tx, utxos, Times(blocks), height, mtp)
  {
    if tx.IsCoinbase() {
      return true;
    }
    for i := 0 to |tx.ins|
      invariant forall j | 0 <= j < i :: InputLockOk(tx.ins[j], utxos, Times(blocks), height, mtp)
    {
      var txIn := tx.ins[i];
      if HasRelativeLockTime(txIn) && txIn.toSpend.Some? && txIn.toSpend.value in utxos {
        var utxo := utxos[txIn.toSpend.value];
        if IsTimeBasedLockTime(txIn) {
          var blockIdx := AsUInt32(AsUInt32(utxo.height) - 1);
          var startMtp := 0;
          if blockIdx > 0 {
            startMtp := GetMedianTimePastAtHeight(blocks, blockIdx - 1);
          }
          if startMtp + RelativeLockTimeValue(txIn) * 512 > mtp {
            assert !InputLockOk(tx.ins[i], utxos, Times(blocks), height, mtp);
            return false;
          }
        } else if utxo.height + RelativeLockTimeValue(txIn) > height {
          assert !InputLockOk(tx.ins[i], utxos, Times(blocks), height, mtp);
          return false;
        }
      }
    }
    ok := true;
  }

  // ----- Basic shape -----

  ghost predicate DistinctInputs(ins: seq<TxIn>) {
    forall i, j | 0 <= i < j < |ins| :: ins[i].toSpend.Some? ==> ins[i].toSpend != ins[j].toSpend
  }

  /** No duplicate inputs, and outputs whose true sum stays within the money supply. */
  ghost predicate BasicsOk(rules: Rules, tx: Tx, coinbase: bool) {
    && tx.outs != [] && (tx.ins != [] || coinbase)
    && rules.txSize(tx) <= MAX_BLOCK_SIZE
    && (coinbase || DistinctInputs(tx.ins))
    && (forall i | 0 <= i < |tx.outs| :: tx.outs[i].value <= MAX_MONEY)
    && OutSum(tx.outs) <= MAX_MONEY
  }

  method HasDuplicateInput(ins: seq<TxIn>) returns (found: bool)
    ensures found <==> !DistinctInputs(ins)
  {
    var seen: set<OutPoint> := {};
    for i := 0 to |ins|
      invariant forall p :: p in seen <==> exists j :: 0 <= j < i && ins[j].toSpend == Some(p)
      invariant DistinctInputs(ins[..i])
    {
      if ins[i].toSpend.Some? {
        if ins[i].toSpend.value in seen {
          var j :| 0 <= j < i && ins[j].toSpend == Some(ins[i].toSpend.value);
          return true;
        }
        seen := seen + {ins[i].toSpend.value};
      }
    }
    assert ins[..|ins|] == ins;
    found := false;
  }

  /** The running 64-bit sum with its wrap-around test, against the mathematical sum. */
  method SumOutputs(outs: seq<TxOut>) returns (overflow: bool, total: UInt64)
    ensures overflow <==> OutSum(outs) > MAX_UINT64
    ensures !overflow ==> total == OutSum(outs)
  {
    overflow, total := false, 0;
    assert outs[..0] == [];
    for i := 0 to |outs|
      invariant total == OutSum(outs[..i])
    {
      assert outs[..i + 1][..i] == outs[..i];
      var sum: UInt64 := (total + outs[i].value) % TWO_64;
      if sum < total {
        OutSumGrows(outs, i + 1);
        return true, 0;
      }
      total := sum;
    }
    assert outs[..|outs|] == outs;
  }

  lemma {:induction false} OutSumGrows(outs: seq<TxOut>, k: nat)
    requires k <= |outs|
    ensures OutSum(outs[..k]) <= OutSum(outs)
  {
    if k < |outs| {
      OutSumGrows(outs[..|outs| - 1], k);
      assert outs[..|outs| - 1][..k] == outs[..k];
    } else {
      assert outs[..k] == outs;
    }
  }

  method ValidateBasics(rules: Rules, tx: Tx, coinbase: bool) returns (ok: bool)
    ensures ok <==> BasicsOk(rules, tx, coinbase)
  {
    if tx.outs == [] || (tx.ins == [] && !coinbase) {
      return false;
    }
    if rules.txSize(tx) > MAX_BLOCK_SIZE {
      return false;
    }
    if !coinbase && |tx.ins| > 1 {
      var duplicate := HasDuplicateInput(tx.ins);
      if duplicate {
        return false;
      }
    }
    for i := 0 to |tx.outs|
      invariant forall j | 0 <= j < i :: tx.outs[j].value <= MAX_MONEY
    {
      if tx.outs[i].value > MAX_MONEY {
        return false;
      }
    }
    var overflow, total := SumOutputs(tx.outs);
    ok := !overflow && total <= MAX_MONEY;
  }

  // ----- Inputs -----

  /** find_in_list: the first sibling with the id decides, even when its index is out of range. */
  function FindInList(p: OutPoint, txs: seq<Tx>): Option<Utxo> {
    if txs == [] then None
    else if txs[0].id == p.txId then
      if 0 <= p.idx < |txs[0].outs| then Some(Utxo(txs[0].outs[p.idx], p, false, -1)) else None
    else FindInList(p, txs[1..])
  }

  function FindInPool(p: OutPoint, pool: map<Id, Tx>): Option<Utxo> {
    if p.txId in pool && 0 <= p.idx < |pool[p.txId].outs|
    then Some(Utxo(pool[p.txId].outs[p.idx], p, false, -1)) else None
  }

  /** Where inputs may come from, and the chain they are checked against. An empty pool stands
      for a request that does not allow mempool outputs. */
  datatype Context = Context(utxos: UtxoMap, siblings: seq<Tx>, pool: map<Id, Tx>, blocks: seq<Block>)

  function Resolve(ctx: Context, p: OutPoint): Option<Utxo> {
    if p in ctx.utxos then Some(ctx.utxos[p])
    else if FindInList(p, ctx.siblings).Some? then FindInList(p, ctx.siblings)
    else FindInPool(p, ctx.pool)
  }

  predicate InputOk(rules: Rules, ctx: Context, tx: Tx, txIn: TxIn) {
    txIn.toSpend.Some? &&
    var utxo := Resolve(ctx, txIn.toSpend.value);
    && utxo.Some?
    && !(utxo.value.isCoinbase && |ctx.blocks| - utxo.value.height < COINBASE_MATURITY)
    && rules.sigOk(tx, txIn, utxo.value)
  }

  /** What the inputs are worth; unresolved ones count nothing. */
  ghost function InputSum(ctx: Context, ins: seq<TxIn>): nat {
    if ins == [] then 0
    else
      var last := ins[|ins| - 1].toSpend;
      InputSum(ctx, ins[..|ins| - 1]) +
      if last.Some? && Resolve(ctx, last.value).Some? then Resolve(ctx, last.value).value.out.value else 0
  }

  lemma {:induction false} InputSumGrows(ctx: Context, ins: seq<TxIn>, k: nat)
    requires k <= |ins|
    ensures InputSum(ctx, ins[..k]) <= InputSum(ctx, ins)
  {
    if k < |ins| {
      InputSumGrows(ctx, ins[..|ins| - 1], k);
      assert ins[..|ins| - 1][..k] == ins[..k];
    } else {
      assert ins[..k] == ins;
    }
  }

  ghost predicate InputsOk(rules: Rules, ctx: Context, tx: Tx) {
    forall i | 0 <= i < |tx.ins| :: InputOk(rules, ctx, tx, tx.ins[i])
  }

  ghost predicate TxValid(rules: Rules, ctx: Context, tx: Tx) {
    && BasicsOk(rules, tx, false)
    && LocksOk(tx, ctx.utxos, Times(ctx.blocks))
    && InputsOk(rules, ctx, tx)
    && OutSum(tx.outs) <= InputSum(ctx, tx.ins) <= MAX_UINT64
  }

  lemma NoInputs(ctx: Context, ins: seq<TxIn>)
    ensures InputSum(ctx, ins[..0]) == 0
  {
  }

  lemma NextInput(rules: Rules, ctx: Context, tx: Tx, i: nat)
    requires i < |tx.ins| && InputOk(rules, ctx, tx, tx.ins[i])
    ensures tx.ins[i].toSpend.Some? && Resolve(ctx, tx.ins[i].toSpend.value).Some?
    ensures InputSum(ctx, tx.ins[..i + 1]) ==
            InputSum(ctx, tx.ins[..i]) + Resolve(ctx, tx.ins[i].toSpend.value).value.out.value
    ensures InputSum(ctx, tx.ins[..i + 1]) <= InputSum(ctx, tx.ins)
  {
    hide Resolve;
    assert tx.ins[..i + 1][..i] == tx.ins[..i];
    InputSumGrows(ctx, tx.ins, i + 1);
  }

  method SumInputs(rules: Rules, ctx: Context, tx: Tx) returns (ok: bool, available: UInt64)
    ensures ok <==> InputsOk(rules, ctx, tx) && InputSum(ctx, tx.ins) <= MAX_UINT64
    ensures ok ==> available == InputSum(ctx, tx.ins)
    ensures ok ==> forall i | 0 <= i < |tx.ins| :: RightlySpent(rules, ctx, tx, tx.ins[i])
    ensures !ok && InputSum(ctx, tx.ins) <= MAX_UINT64 ==>
              exists i :: 0 <= i < |tx.ins| && !RightlySpent(rules, ctx, tx, tx.ins[i])
  {
    hide RightlySpent, InputOk, InputSum, Resolve;
    InputsOkIff(rules, ctx, tx);
    ok, available := true, 0;
    NoInputs(ctx, tx.ins);
    for i := 0 to |tx.ins|
      invariant available == InputSum(ctx, tx.ins[..i])
      invariant forall j | 0 <= j < i :: InputOk(rules, ctx, tx, tx.ins[j])
    {
      if !InputOk(rules, ctx, tx, tx.ins[i]) {
        return false, 0;
      }
      NextInput(rules, ctx, tx, i);
      var sum: UInt64 := (available + Resolve(ctx, tx.ins[i].toSpend.value).value.out.value) % TWO_64;
      if sum < available {
        return false, 0;
      }
      available := sum;
    }
    assert tx.ins[..|tx.ins|] == tx.ins;
  }

  method Validate(rules: Rules, ctx: Context, tx: Tx) returns (ok: bool)
    ensures ok <==> TxValid(rules, ctx, tx)
    ensures ok <==> Lawful(rules, ctx, tx)
  {
    ValidIff(rules, ctx, tx);
    hide BasicsOk, InputsOk, SequenceLocksOk, RightlySpent, Lawful;
    ok := ValidateBasics(rules, tx, false);
    if !ok {
      return;
    }
    var mtp := GetMedianTimePast(ctx.blocks, WINDOW);
    if !LockTimeOk(tx, |ctx.blocks|, mtp) {
      return false;
    }
    ok := CheckSequenceLocks(tx, ctx.utxos, ctx.blocks, |ctx.blocks|, mtp);
    if !ok {
      return;
    }
    var available;
    ok, available := SumInputs(rules, ctx, tx);
    if !ok {
      return;
    }
    var overflow, spent := SumOutputs(tx.outs);
    ok := !overflow && available >= spent;
  }

  // ----- What passing means -----

  /** The first sibling with the id has the output. */
  ghost predicate FromSibling(siblings: seq<Tx>, p: OutPoint, u: Utxo) {
    exists k :: 0 <= k < |siblings| && siblings[k].id == p.txId && (forall j | 0 <= j < k :: siblings[j].id != p.txId) &&
      0 <= p.idx < |siblings[k].outs| && u == Utxo(siblings[k].outs[p.idx], p, false, -1)
  }

  ghost predicate FromPool(pool: map<Id, Tx>, p: OutPoint, u: Utxo) {
    p.txId in pool && 0 <= p.idx < |pool[p.txId].outs| && u == Utxo(pool[p.txId].outs[p.idx], p, false, -1)
  }

  /** The output is unspent on the chain, or else in a sibling, or else in the mempool. */
  ghost predicate Provides(ctx: Context, p: OutPoint, u: Utxo) {
    if p in ctx.utxos then u == ctx.utxos[p]
    else FromSibling(ctx.siblings, p, u) ||
         ((forall v :: !FromSibling(ctx.siblings, p, v)) && FromPool(ctx.pool, p, u))
  }

  lemma {:induction false} FirstSibling(siblings: seq<Tx>, p: OutPoint) returns (k: nat)
    ensures k <= |siblings| && forall j | 0 <= j < k :: siblings[j].id != p.txId
    ensures if k == |siblings| then FindInList(p, siblings).None?
            else && siblings[k].id == p.txId
                 && FindInList(p, siblings) ==
                    if 0 <= p.idx < |siblings[k].outs| then Some(Utxo(siblings[k].outs[p.idx], p, false, -1)) else None
  {
    if siblings == [] || siblings[0].id == p.txId {
      k := 0;
    } else {
      k := FirstSibling(siblings[1..], p);
      k := k + 1;
      assert forall j | 1 <= j < k :: siblings[j] == siblings[1..][j - 1];
    }
  }

  lemma SiblingIff(siblings: seq<Tx>, p: OutPoint, u: Utxo)
    ensures FindInList(p, siblings) == Some(u) <==> FromSibling(siblings, p, u)
  {
    var k := FirstSibling(siblings, p);
    hide FindInList;
  }

  lemma ResolveIff(ctx: Context, p: OutPoint, u: Utxo)
    ensures Resolve(ctx, p) == Some(u) <==> Provides(ctx, p, u)
  {
    hide FindInList, FromSibling;
    forall v
      ensures FindInList(p, ctx.siblings) == Some(v) <==> FromSibling(ctx.siblings, p, v)
    {
      SiblingIff(ctx.siblings, p, v);
    }
    if FindInList(p, ctx.siblings).Some? {
      assert FromSibling(ctx.siblings, p, FindInList(p, ctx.siblings).value);
    }
  }

  /** The input names an output that is there, signs for it, and is no coinbase output of the last
      blocks. */
  ghost predicate RightlySpent(rules: Rules, ctx: Context, tx: Tx, txIn: TxIn) {
    txIn.toSpend.Some? &&
    exists u :: Provides(ctx, txIn.toSpend.value, u) && rules.sigOk(tx, txIn, u) &&
      (u.isCoinbase ==> u.height + COINBASE_MATURITY <= |ctx.blocks|)
  }

  lemma InputOkIff(rules: Rules, ctx: Context, tx: Tx, txIn: TxIn)
    ensures InputOk(rules, ctx, tx, txIn) <==> RightlySpent(rules, ctx, tx, txIn)
  {
    hide Resolve, Provides;
    if txIn.toSpend.Some? {
      var p := txIn.toSpend.value;
      forall u
        ensures Resolve(ctx, p) == Some(u) <==> Provides(ctx, p, u)
      {
        ResolveIff(ctx, p, u);
      }
    }
  }

  lemma InputsOkIff(rules: Rules, ctx: Context, tx: Tx)
    ensures InputsOk(rules, ctx, tx) <==> forall i | 0 <= i < |tx.ins| :: RightlySpent(rules, ctx, tx, tx.ins[i])
  {
    hide InputOk, RightlySpent;
    forall i | 0 <= i < |tx.ins|
      ensures InputOk(rules, ctx, tx, tx.ins[i]) <==> RightlySpent(rules, ctx, tx, tx.ins[i])
    {
      InputOkIff(rules, ctx, tx, tx.ins[i]);
    }
  }

  /** An absolute lock is a number of blocks that the chain has reached, or a time that six of its last
      eleven blocks have reached. */
  ghost predicate LockPassed(tx: Tx, times: seq<int>) {
    || tx.lockTime == 0
    || (forall i | 0 <= i < |tx.ins| :: tx.ins[i].sequence == SEQUENCE_FINAL)
    || (tx.lockTime < LOCKTIME_THRESHOLD && tx.lockTime <= |times|)
    || (tx.lockTime >= LOCKTIME_THRESHOLD && TimeReached(times, tx.lockTime))
  }

  lemma LockTimeOkIff(tx: Tx, times: seq<int>)
    ensures LockTimeOk(tx, |times|, MedianTimePast(times)) <==> LockPassed(tx, times)
  {
    hide MedianTimePast;
    TimeReachedIff(times, tx.lockTime);
    hide TimeReached;
  }

  /** The relative lock of an input behind a chain that spends an output of block h. There is none if the
      sequence number is negative. It counts the blocks from that one on, or seconds from the median time
      before it. */
  ghost predicate RelativeLockPassed(times: seq<int>, sequence: int, h: nat)
    requires h <= |times|
  {
    || sequence < 0
    || (sequence / 0x40_0000 % 2 == 0 && h + 1 + sequence % 0x1_0000 <= |times|)
    || (sequence / 0x40_0000 % 2 == 1 && MedianTimePast(times) >= MedianBefore(times, h) + 512 * (sequence % 0x1_0000))
  }

  lemma SequenceBits(txIn: TxIn)
    ensures HasRelativeLockTime(txIn) <==> txIn.sequence >= 0
    ensures txIn.sequence >= 0 ==>
              && (IsTimeBasedLockTime(txIn) <==> txIn.sequence / 0x40_0000 % 2 == 1)
              && RelativeLockTimeValue(txIn) == txIn.sequence % 0x1_0000
  {
  }

  lemma StartTimeIs(times: seq<int>, height: int)
    requires 1 <= height <= |times| < 0x1_0000_0000
    ensures StartTime(times, height) == MedianBefore(times, height - 1)
  {
    hide MedianTimePastAt, MedianBefore;
    assert AsUInt32(height) == height && AsUInt32(height - 1) == height - 1;
    MedianBeforeIs(times, height - 1);
  }

  lemma InputLockOkIff(txIn: TxIn, utxos: UtxoMap, times: seq<int>)
    requires txIn.toSpend.Some? && txIn.toSpend.value in utxos
    requires 1 <= utxos[txIn.toSpend.value].height <= |times| < 0x1_0000_0000
    ensures InputLockOk(txIn, utxos, times, |times|, MedianTimePast(times)) <==>
            RelativeLockPassed(times, txIn.sequence, utxos[txIn.toSpend.value].height - 1)
  {
    hide MedianTimePast, StartTime, MedianBefore, HasRelativeLockTime, IsTimeBasedLockTime, RelativeLockTimeValue;
    SequenceBits(txIn);
    StartTimeIs(times, utxos[txIn.toSpend.value].height);
  }

  /** What validation asks of a transaction, said of its parts: inputs and outputs, a limited size and sum,
      no output spent twice, every input rightly spent, both locks passed, and no more taken than given. */
  ghost predicate Lawful(rules: Rules, ctx: Context, tx: Tx) {
    && tx.ins != [] && tx.outs != [] && rules.txSize(tx) <= MAX_BLOCK_SIZE && OutSum(tx.outs) <= MAX_MONEY
    && (forall i, j | 0 <= i < j < |tx.ins| :: tx.ins[i].toSpend != tx.ins[j].toSpend)
    && (forall i | 0 <= i < |tx.ins| :: RightlySpent(rules, ctx, tx, tx.ins[i]))
    && LockPassed(tx, Times(ctx.blocks))
    && (forall i | 0 <= i < |tx.ins| ::
          InputLockOk(tx.ins[i], ctx.utxos, Times(ctx.blocks), |ctx.blocks|, MedianTimePast(Times(ctx.blocks))))
    && OutSum(tx.outs) <= InputSum(ctx, tx.ins) <= MAX_UINT64
  }

  lemma OutputsAreWithin(outs: seq<TxOut>, most: nat)
    requires OutSum(outs) <= most
    ensures forall i | 0 <= i < |outs| :: outs[i].value <= most
  {
    forall i | 0 <= i < |outs|
      ensures outs[i].value <= most
    {
      OutSumGrows(outs, i + 1);
      assert outs[..i + 1][..i] == outs[..i];
    }
  }

  lemma BasicsIff(rules: Rules, tx: Tx)
    ensures BasicsOk(rules, tx, false) <==>
              && tx.ins != [] && tx.outs != [] && rules.txSize(tx) <= MAX_BLOCK_SIZE && OutSum(tx.outs) <= MAX_MONEY
              && DistinctInputs(tx.ins)
  {
    if OutSum(tx.outs) <= MAX_MONEY {
      OutputsAreWithin(tx.outs, MAX_MONEY);
    }
    hide OutSum, DistinctInputs;
  }

  lemma DistinctIff(ins: seq<TxIn>)
    requires forall i | 0 <= i < |ins| :: ins[i].toSpend.Some?
    ensures DistinctInputs(ins) <==> forall i, j | 0 <= i < j < |ins| :: ins[i].toSpend != ins[j].toSpend
  {
  }

  lemma RightlyHasOutPoint(rules: Rules, ctx: Context, tx: Tx)
    requires forall i | 0 <= i < |tx.ins| :: RightlySpent(rules, ctx, tx, tx.ins[i])
    ensures forall i | 0 <= i < |tx.ins| :: tx.ins[i].toSpend.Some?
    ensures !tx.IsCoinbase()
  {
    hide Provides;
  }

  lemma ValidIff(rules: Rules, ctx: Context, tx: Tx)
    ensures TxValid(rules, ctx, tx) <==> Lawful(rules, ctx, tx)
  {
    InputsOkIff(rules, ctx, tx);
    LockTimeOkIff(tx, Times(ctx.blocks));
    BasicsIff(rules, tx);
    hide BasicsOk, InputsOk, InputLockOk, RightlySpent, LockPassed, LockTimeOk, OutSum, InputSum, MedianTimePast, DistinctInputs;
    if forall i | 0 <= i < |tx.ins| :: RightlySpent(rules, ctx, tx, tx.ins[i]) {
      RightlyHasOutPoint(rules, ctx, tx);
      DistinctIff(tx.ins);
    }
  }

  // ----- Fees -----

  /** calculate_fees looks an input up in the UTXO map, then in the mempool; one found in neither
      adds nothing. */
  function FeeInput(utxos: UtxoMap, pool: map<Id, Tx>, txIn: TxIn): nat {
    if txIn.toSpend.None? then 0
    else
      var p := txIn.toSpend.value;
      if p in utxos then utxos[p].out.value
      else if FindInPool(p, pool).Some? then FindInPool(p, pool).value.out.value else 0
  }

  ghost function FeeInputSum(utxos: UtxoMap, pool: map<Id, Tx>, ins: seq<TxIn>): nat {
    if ins == [] then 0
    else FeeInputSum(utxos, pool, ins[..|ins| - 1]) + FeeInput(utxos, pool, ins[|ins| - 1])
  }

  ghost function Fee(utxos: UtxoMap, pool: map<Id, Tx>, tx: Tx): UInt64 {
    var spent, sent := FeeInputSum(utxos, pool, tx.ins) % TWO_64, OutSum(tx.outs) % TWO_64;
    if spent < sent then 0 else spent - sent
  }

  lemma WrapAdd(a: nat, b: nat)
    ensures (a % TWO_64 + b) % TWO_64 == (a + b) % TWO_64
  {
  }

  method SumSpent(utxos: UtxoMap, pool: map<Id, Tx>, ins: seq<TxIn>) returns (spent: UInt64)
    ensures spent == FeeInputSum(utxos, pool, ins) % TWO_64
  {
    hide FeeInput;
    spent := 0;
    assert ins[..0] == [];
    for i := 0 to |ins|
      invariant spent == FeeInputSum(utxos, pool, ins[..i]) % TWO_64
    {
      assert ins[..i + 1][..i] == ins[..i];
      WrapAdd(FeeInputSum(utxos, pool, ins[..i]), FeeInput(utxos, pool, ins[i]));
      spent := (spent + FeeInput(utxos, pool, ins[i])) % TWO_64;
    }
    assert ins[..|ins|] == ins;
  }

  method SumSent(outs: seq<TxOut>) returns (sent: UInt64)
    ensures sent == OutSum(outs) % TWO_64
  {
    sent := 0;
    assert outs[..0] == [];
    for i := 0 to |outs|
      invariant sent == OutSum(outs[..i]) % TWO_64
    {
      assert outs[..i + 1][..i] == outs[..i];
      WrapAdd(OutSum(outs[..i]), outs[i].value);
      sent := (sent + outs[i].value) % TWO_64;
    }
    assert outs[..|outs|] == outs;
  }

  method CalculateFees(utxos: UtxoMap, pool: map<Id, Tx>, tx: Tx) returns (fee: UInt64)
    ensures fee == Fee(utxos, pool, tx)
  {
    var spent := SumSpent(utxos, pool, tx.ins);
    var sent := SumSent(tx.outs);
    fee := if spent < sent then 0 else spent - sent;
  }
}
