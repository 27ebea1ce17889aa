/** Parallel nonce search: worker threads that race on shared atomics, in every interleaving, and
    the byte-wise comparison that must agree with the validator's numeric one. */
module Mining {
  import opened Types
  import opened Arithmetic
  import opened Bytes
  import opened Wire
  import Difficulty

  // ----- The state machine -----

  /** A search: how many workers, how many nonces each, and which nonces satisfy the target. */
  datatype Job = Job(workers: nat, chunkSize: nat, satisfies: nat -> bool)

  datatype Reason = FoundIt | Stopped | Exhausted

  /** Where a worker stands between two accesses to shared atomics. */
  datatype Pc = Trial | StoreFound | StoreNonce | AddLast | Flush | CheckFound | CheckInterrupt | FinalAdd | Done(why: Reason)

  datatype Worker = Worker(pc: Pc, i: nat, localCount: nat)

  /** The shared atomics and the workers; `interrupted` remembers whether the flag was ever raised. */
  datatype State = State(found: bool, foundNonce: nat, hashCount: nat, interrupt: bool, interrupted: bool, workers: seq<Worker>)

  datatype Action = Run(worker: nat) | SetInterrupt(value: bool)

  ghost predicate JobOk(job: Job) {
    0 < job.workers && 0 < job.chunkSize && job.workers * job.chunkSize < TWO_64
  }

  ghost function Start(job: Job, w: nat): nat {
    w * job.chunkSize
  }

  ghost function Initial(job: Job): State {
    State(false, 0, 0, false, false, seq(job.workers, _ => Worker(Trial, 0, 0)))
  }

  ghost function AfterCounting(job: Job, i: nat): Pc {
    if i == job.chunkSize then FinalAdd else Trial
  }

  /** One atomic step of a worker; a finished worker does nothing. */
  ghost function RunWorker(job: Job, s: State, w: nat): State
    requires w < |s.workers|
  {
    var me := s.workers[w];
    match me.pc
    case Trial =>
      if Works(job, w, me.i) then Put(s, w, me.(pc := StoreFound))
      else
        var i := me.i + 1;
        Put(s, w, Worker(if i % 4096 == 0 then Flush else AfterCounting(job, i), i, me.localCount + 1))
    case StoreFound => Put(s.(found := true), w, me.(pc := StoreNonce))
    case StoreNonce => Put(s.(foundNonce := Start(job, w) + me.i), w, me.(pc := AddLast))
    case AddLast => Put(s.(hashCount := s.hashCount + me.localCount), w, Worker(Done(FoundIt), me.i, 0))
    case Flush => Put(s.(hashCount := s.hashCount + me.localCount), w, Worker(CheckFound, me.i, 0))
    case CheckFound => Put(s, w, me.(pc := if s.found then Done(Stopped) else CheckInterrupt))
    case CheckInterrupt => Put(s, w, me.(pc := if s.interrupt then Done(Stopped) else AfterCounting(job, me.i)))
    case FinalAdd => Put(s.(hashCount := s.hashCount + me.localCount), w, Worker(Done(Exhausted), me.i, 0))
    case Done(_) => s
  }

  ghost function Put(s: State, w: nat, me: Worker): State
    requires w < |s.workers|
  {
    s.(workers := s.workers[w := me])
  }

  ghost function Step(job: Job, s: State, a: Action): State {
    match a
    case Run(w) => if w < |s.workers| then RunWorker(job, s, w) else s
    case SetInterrupt(b) => s.(interrupt := b, interrupted := s.interrupted || b)
  }

  /** The state after any schedule of worker steps and outside interrupts. */
  ghost function Execute(job: Job, schedule: seq<Action>): State {
    if schedule == [] then Initial(job)
    else Step(job, Execute(job, schedule[..|schedule| - 1]), schedule[|schedule| - 1])
  }

  ghost predicate Joined(s: State) {
    forall w | 0 <= w < |s.workers| :: s.workers[w].pc.Done?
  }

  // ----- The invariant -----

  ghost function Tried(workers: seq<Worker>): nat {
    if workers == [] then 0 else Tried(workers[..|workers| - 1]) + workers[|workers| - 1].i
  }

  ghost function Unflushed(workers: seq<Worker>): nat {
    if workers == [] then 0 else Unflushed(workers[..|workers| - 1]) + workers[|workers| - 1].localCount
  }

  ghost predicate InRange(job: Job, nonce: nat) {
    nonce < job.workers * job.chunkSize
  }

  ghost predicate StoredFlag(pc: Pc) {
    pc in {StoreNonce, AddLast, Done(FoundIt)}
  }

  ghost predicate StoredNonce(pc: Pc) {
    pc in {AddLast, Done(FoundIt)}
  }

  /** Trial j of worker w succeeds. */
  ghost predicate Works(job: Job, w: nat, j: nat) {
    job.satisfies(Start(job, w) + j)
  }

  /** Every nonce a worker has behind it failed. */
  ghost predicate Failed(job: Job, w: nat, i: nat) {
    forall j: nat | j < i :: !Works(job, w, j)
  }

  ghost predicate WorkerOk(job: Job, s: State, w: nat, me: Worker) {
    && me.i <= job.chunkSize && Failed(job, w, me.i)
    && (me.pc == Trial ==> me.i < job.chunkSize)
    && (me.pc == StoreFound || StoredFlag(me.pc) ==> me.i < job.chunkSize && Works(job, w, me.i))
    && (StoredFlag(me.pc) ==> s.found)
    && (me.pc == FinalAdd || me.pc == Done(Exhausted) ==> me.i == job.chunkSize)
    && (me.pc == Done(Stopped) ==> s.found || s.interrupted)
    && (me.pc.Done? || me.pc in {CheckFound, CheckInterrupt} ==> me.localCount == 0)
  }

  ghost predicate Inv(job: Job, s: State) {
    && |s.workers| == job.workers
    && (forall w | 0 <= w < |s.workers| :: WorkerOk(job, s, w, s.workers[w]))
    && (s.found ==> exists w :: 0 <= w < |s.workers| && StoredFlag(s.workers[w].pc))
    && ((exists w :: 0 <= w < |s.workers| && StoredNonce(s.workers[w].pc)) ==>
          job.satisfies(s.foundNonce) && InRange(job, s.foundNonce))
    && s.hashCount + Unflushed(s.workers) == Tried(s.workers)
    && (s.interrupt ==> s.interrupted)
  }

  lemma {:induction false} SumsAfterPut(workers: seq<Worker>, w: nat, me: Worker)
    requires w < |workers|
    ensures Tried(workers[w := me]) == Tried(workers) - workers[w].i + me.i
    ensures Unflushed(workers[w := me]) == Unflushed(workers) - workers[w].localCount + me.localCount
  {
    var n := |workers| - 1;
    if w < n {
      assert workers[w := me][..n] == workers[..n][w := me];
      SumsAfterPut(workers[..n], w, me);
    } else {
      assert workers[w := me][..n] == workers[..n];
    }
  }

  lemma NonceInRange(job: Job, w: nat, i: nat)
    requires w < job.workers && i < job.chunkSize
    ensures InRange(job, Start(job, w) + i)
    ensures Start(job, w) + i < Start(job, w + 1)
  {
    var c := job.chunkSize;
    assert (w + 1) * c == w * c + c;
    Scale(c, w + 1, job.workers);
    assert c * job.workers == job.workers * c && c * (w + 1) == (w + 1) * c;
  }

  /** The nonce ranges of different workers are disjoint and stay within 64 bits. */
  lemma RangesAreDisjoint(job: Job, v: nat, w: nat, i: nat, j: nat)
    requires JobOk(job) && v < w < job.workers && i < job.chunkSize && j < job.chunkSize
    ensures Start(job, v) + i < Start(job, w) + j < TWO_64
  {
    NonceInRange(job, v, i);
    NonceInRange(job, w, j);
    var c := job.chunkSize;
    Scale(c, v + 1, w);
    assert c * (v + 1) == (v + 1) * c && c * w == w * c;
  }

  lemma {:induction false} StartSums(workers: seq<Worker>)
    requires forall w | 0 <= w < |workers| :: workers[w].i == 0 && workers[w].localCount == 0
    ensures Tried(workers) == 0 && Unflushed(workers) == 0
  {
    if workers != [] {
      StartSums(workers[..|workers| - 1]);
    }
  }

  lemma InitialInv(job: Job)
    requires JobOk(job)
    ensures Inv(job, Initial(job))
  {
    StartSums(Initial(job).workers);
  }

  /** The other workers keep their part of the invariant when one puts itself in a new position
      and the shared flags only go up. */
  lemma OthersKeep(job: Job, s: State, t: State, w: nat)
    requires Inv(job, s) && w < |s.workers| && |t.workers| == |s.workers|
    requires forall v | 0 <= v < |s.workers| && v != w :: t.workers[v] == s.workers[v]
    requires s.found ==> t.found
    requires s.interrupted ==> t.interrupted
    requires WorkerOk(job, t, w, t.workers[w])
    ensures forall v | 0 <= v < |t.workers| :: WorkerOk(job, t, v, t.workers[v])
  {
    hide Failed;
    forall v | 0 <= v < |t.workers|
      ensures WorkerOk(job, t, v, t.workers[v])
    {
      assert WorkerOk(job, s, v, s.workers[v]);
    }
  }

  lemma OneMoreFailed(job: Job, w: nat, i: nat)
    requires Failed(job, w, i) && !Works(job, w, i)
    ensures Failed(job, w, i + 1)
  {
  }

  lemma InvParts(job: Job, s: State, w: nat)
    requires Inv(job, s) && w < |s.workers|
    ensures |s.workers| == job.workers && WorkerOk(job, s, w, s.workers[w])
    ensures s.hashCount + Unflushed(s.workers) == Tried(s.workers)
    ensures s.interrupt ==> s.interrupted
  {
    hide WorkerOk, Tried, Unflushed;
  }

  lemma WorkerStep(job: Job, s: State, w: nat)
    requires JobOk(job) && Inv(job, s) && w < |s.workers|
    ensures var t := RunWorker(job, s, w);
            |t.workers| == |s.workers| && WorkerOk(job, t, w, t.workers[w])
    ensures var t := RunWorker(job, s, w);
            t.hashCount + Unflushed(t.workers) == Tried(t.workers)
  {
    hide Failed, Tried, Unflushed, Start, Works, Inv;
    InvParts(job, s, w);
    var me := s.workers[w];
    var t := RunWorker(job, s, w);
    SumsAfterPut(s.workers, w, t.workers[w]);
    if me.pc == Trial && !Works(job, w, me.i) {
      OneMoreFailed(job, w, me.i);
    }
  }

  lemma FlagStep(job: Job, s: State, w: nat)
    requires Inv(job, s) && w < |s.workers|
    ensures var t := RunWorker(job, s, w);
            t.found ==> exists v :: 0 <= v < |t.workers| && StoredFlag(t.workers[v].pc)
  {
    hide WorkerOk, Tried, Unflushed, Start;
    var t := RunWorker(job, s, w);
    if t.found {
      if s.found {
        var v :| 0 <= v < |s.workers| && StoredFlag(s.workers[v].pc);
        assert StoredFlag(t.workers[v].pc);
      } else {
        assert StoredFlag(t.workers[w].pc);
      }
    }
  }

  lemma NonceStep(job: Job, s: State, w: nat)
    requires JobOk(job) && Inv(job, s) && w < |s.workers|
    ensures var t := RunWorker(job, s, w);
            (exists v :: 0 <= v < |t.workers| && StoredNonce(t.workers[v].pc)) ==>
              job.satisfies(t.foundNonce) && InRange(job, t.foundNonce)
  {
    hide Failed, Tried, Unflushed, Start, InRange;
    var me := s.workers[w];
    assert WorkerOk(job, s, w, me);
    var t := RunWorker(job, s, w);
    if me.pc == StoreNonce {
      NonceInRange(job, w, me.i);
    } else if exists v :: 0 <= v < |t.workers| && StoredNonce(t.workers[v].pc) {
      var v :| 0 <= v < |t.workers| && StoredNonce(t.workers[v].pc);
      assert StoredNonce(s.workers[v].pc);
    }
  }

  lemma RunKeepsInv(job: Job, s: State, w: nat)
    requires JobOk(job) && Inv(job, s) && w < |s.workers|
    ensures Inv(job, RunWorker(job, s, w))
  {
    var t := RunWorker(job, s, w);
    hide WorkerOk, Tried, Unflushed, Start, StoredFlag, StoredNonce, InRange;
    WorkerStep(job, s, w);
    FlagStep(job, s, w);
    NonceStep(job, s, w);
    OthersKeep(job, s, t, w);
  }

  lemma InterruptKeepsInv(job: Job, s: State, b: bool)
    requires Inv(job, s)
    ensures Inv(job, s.(interrupt := b, interrupted := s.interrupted || b))
  {
    hide Failed, Tried, Unflushed, Start, StoredFlag, StoredNonce, InRange;
    var t := s.(interrupt := b, interrupted := s.interrupted || b);
    forall w | 0 <= w < |t.workers|
      ensures WorkerOk(job, t, w, t.workers[w])
    {
      assert WorkerOk(job, s, w, s.workers[w]);
    }
  }

  lemma {:induction false} InvAlways(job: Job, schedule: seq<Action>)
    requires JobOk(job)
    ensures Inv(job, Execute(job, schedule))
  {
    hide Inv;
    if schedule == [] {
      InitialInv(job);
    } else {
      var n := |schedule| - 1;
      var s := Execute(job, schedule[..n]);
      InvAlways(job, schedule[..n]);
      match schedule[n]
      case Run(w) =>
        if w < |s.workers| {
          RunKeepsInv(job, s, w);
        }
      case SetInterrupt(b) =>
        InterruptKeepsInv(job, s, b);
    }
  }

  // ----- What the caller may rely on after the join -----

  /** The worker a nonce belongs to. */
  lemma OwnerOf(job: Job, nonce: nat) returns (w: nat, i: nat)
    requires JobOk(job) && InRange(job, nonce)
    ensures w < job.workers && i < job.chunkSize && nonce == Start(job, w) + i
  {
    var c := job.chunkSize;
    w, i := nonce / c, nonce % c;
    assert nonce == c * w + i;
    assert c * w == w * c;
    assert c * job.workers == job.workers * c;
    if w >= job.workers {
      Scale(c, job.workers, w);
    }
  }

  /** After every worker has returned, whatever the interleaving: a found flag comes with a nonce
      that satisfies the target, even when several workers raced on the two stores; without it and
      without an interrupt no nonce of the whole range satisfies it; and the hash count is exactly
      the number of failed trials. */
  lemma SearchIsCorrect(job: Job, schedule: seq<Action>)
    requires JobOk(job) && Joined(Execute(job, schedule))
    ensures var s := Execute(job, schedule);
            && |s.workers| == job.workers
            && (s.found ==> job.satisfies(s.foundNonce) && InRange(job, s.foundNonce))
            && (!s.found && !s.interrupted ==> forall nonce | InRange(job, nonce) :: !job.satisfies(nonce))
            && s.hashCount == Tried(s.workers)
            && forall w | 0 <= w < |s.workers| :: Failed(job, w, s.workers[w].i)
  {
    hide *;
    var s := Execute(job, schedule);
    InvAlways(job, schedule);
    JoinedState(job, s);
    if !s.found && !s.interrupted {
      forall nonce | InRange(job, nonce)
        ensures !job.satisfies(nonce)
      {
        NothingLeft(job, s, nonce);
      }
    }
  }

  lemma JoinedState(job: Job, s: State)
    requires Inv(job, s) && Joined(s)
    ensures |s.workers| == job.workers
    ensures s.found ==> job.satisfies(s.foundNonce) && InRange(job, s.foundNonce)
    ensures s.hashCount == Tried(s.workers)
    ensures forall w | 0 <= w < |s.workers| :: Failed(job, w, s.workers[w].i)
  {
    hide Start, InRange, Tried, Unflushed, Failed, Works;
    if s.found {
      var w :| 0 <= w < |s.workers| && StoredFlag(s.workers[w].pc);
      assert StoredNonce(s.workers[w].pc);
    }
    NothingUnflushed(s.workers);
  }

  lemma NothingLeft(job: Job, s: State, nonce: nat)
    requires JobOk(job) && Inv(job, s) && Joined(s) && !s.found && !s.interrupted && InRange(job, nonce)
    ensures !job.satisfies(nonce)
  {
    hide Inv, Tried, Unflushed, InRange;
    var w, i := OwnerOf(job, nonce);
    JoinedState(job, s);
    InvParts(job, s, w);
    assert s.workers[w].pc.Done? && StoredFlag(Done(FoundIt));
    assert s.workers[w].pc.why != FoundIt && s.workers[w].pc.why != Stopped;
    assert s.workers[w].pc == Done(Exhausted);
    assert !Works(job, w, i);
  }

  lemma {:induction false} NothingUnflushed(workers: seq<Worker>)
    requires forall w | 0 <= w < |workers| :: workers[w].localCount == 0
    ensures Unflushed(workers) == 0
  {
    if workers != [] {
      NothingUnflushed(workers[..|workers| - 1]);
    }
  }

  // ----- Termination -----

  ghost function PcRank(pc: Pc): nat {
    match pc
    case Trial => 5
    case StoreFound => 3
    case StoreNonce => 2
    case AddLast => 1
    case Flush => 9
    case CheckFound => 8
    case CheckInterrupt => 7
    case FinalAdd => 1
    case Done(_) => 0
  }

  ghost function StepsLeft(job: Job, workers: seq<Worker>): int {
    if workers == [] then 0
    else
      var last := workers[|workers| - 1];
      StepsLeft(job, workers[..|workers| - 1]) + 10 * (job.chunkSize - last.i) + PcRank(last.pc)
  }

  lemma {:induction false} StepsAfterPut(job: Job, workers: seq<Worker>, w: nat, me: Worker)
    requires w < |workers|
    ensures StepsLeft(job, workers[w := me]) - StepsLeft(job, workers)
            == 10 * (workers[w].i - me.i) + PcRank(me.pc) - PcRank(workers[w].pc)
  {
    var n := |workers| - 1;
    hide PcRank;
    if w < n {
      assert workers[w := me][..n] == workers[..n][w := me];
      StepsAfterPut(job, workers[..n], w, me);
    } else {
      assert workers[w := me][..n] == workers[..n];
    }
  }

  /** Every step of a worker that has not returned brings the join closer. */
  lemma EveryStepCounts(job: Job, s: State, w: nat)
    requires w < |s.workers| && !s.workers[w].pc.Done?
    ensures StepsLeft(job, RunWorker(job, s, w).workers) < StepsLeft(job, s.workers)
  {
    hide StepsLeft, Start;
    StepsAfterPut(job, s.workers, w, RunWorker(job, s, w).workers[w]);
  }

  lemma {:induction false} StepsLeftIsBounded(job: Job, s: State, n: nat)
    requires Inv(job, s) && n <= |s.workers|
    ensures StepsLeft(job, s.workers[..n]) >= 0
  {
    if n > 0 {
      hide Tried, Unflushed, Failed, StoredFlag, StoredNonce, InRange;
      StepsLeftIsBounded(job, s, n - 1);
      assert WorkerOk(job, s, n - 1, s.workers[n - 1]);
      assert s.workers[..n][..n - 1] == s.workers[..n - 1];
    }
  }

  // ----- The comparison -----

  lemma {:induction false} SmallerPrefix(a: seq<Byte>, b: seq<Byte>, k: nat)
    requires |a| == |b| && k <= |a|
    requires FromBigEndian(a[..k]) < FromBigEndian(b[..k])
    ensures FromBigEndian(a) < FromBigEndian(b)
    decreases |a| - k
  {
    if k == |a| {
      assert a[..k] == a && b[..k] == b;
    } else {
      assert a[..k + 1][..k] == a[..k] && b[..k + 1][..k] == b[..k];
      SmallerPrefix(a, b, k + 1);
    }
  }

  /** The byte-wise comparison of the workers decides the numeric one of the validator. */
  method HashBelow(hash: seq<Byte>, target: seq<Byte>) returns (valid: bool)
    requires |hash| == |target|
    ensures valid <==> FromBigEndian(hash) < FromBigEndian(target)
  {
    for b := 0 to |hash|
      invariant hash[..b] == target[..b]
    {
      assert hash[..b + 1][..b] == hash[..b] && target[..b + 1][..b] == target[..b];
      if hash[b] < target[b] {
        SmallerPrefix(hash, target, b + 1);
        return true;
      }
      if hash[b] > target[b] {
        SmallerPrefix(target, hash, b + 1);
        return false;
      }
    }
    assert hash[..|hash|] == hash && target[..|target|] == target;
    valid := false;
  }

  ghost predicate PartlyExported(target: nat, rest: nat, bytes: seq<Byte>) {
    && |bytes| <= 32 && rest < Power(32 - |bytes|)
    && rest * Power(|bytes|) + FromBigEndian(bytes) == target
  }

  lemma ExportStart(target: nat)
    requires target < TWO_256
    ensures PartlyExported(target, target, [])
  {
    Power32();
  }

  lemma ExportStep(target: nat, rest: nat, bytes: seq<Byte>)
    requires PartlyExported(target, rest, bytes)
    ensures rest > 0 ==> |bytes| < 32 && PartlyExported(target, rest / 256, [rest % 256] + bytes)
    ensures rest == 0 ==> |bytes| <= 32 && FromBigEndian(bytes) == target
  {
    hide FromBigEndian, Power;
    var n := |bytes|;
    PowerStep(n);
    if rest > 0 && n < 32 {
      PowerStep(31 - n);
      PrependByte(rest % 256, bytes);
      ExportSums(target, rest, Power(n), FromBigEndian(bytes), Power(31 - n));
    }
  }

  lemma PowerStep(n: nat)
    ensures Power(n + 1) == 256 * Power(n) && Power(0) == 1
  {
  }

  lemma ExportSums(target: nat, rest: nat, p: nat, f: nat, q: nat)
    requires rest * p + f == target && rest < 256 * q
    ensures (rest / 256) * (256 * p) + ((rest % 256) * p + f) == target && rest / 256 < q
  {
    Regroup(rest, p);
  }

  /** target_to_bytes: the significant bytes, then zeros in front up to 32. */
  method TargetToBytes(target: nat) returns (bytes: seq<Byte>)
    requires 0 < target < TWO_256
    ensures |bytes| == 32 && FromBigEndian(bytes) == target
  {
    hide *;
    bytes := [];
    var rest := target;
    ExportStart(target);
    while rest > 0
      invariant PartlyExported(target, rest, bytes)
    {
      ExportStep(target, rest, bytes);
      bytes := [rest % 256] + bytes;
      rest := rest / 256;
    }
    ExportStep(target, rest, bytes);
    while |bytes| < 32
      invariant |bytes| <= 32 && FromBigEndian(bytes) == target
    {
      PrependByte(0, bytes);
      bytes := [0] + bytes;
    }
  }

  lemma Regroup(rest: nat, p: nat)
    ensures rest * p == (rest / 256) * (256 * p) + (rest % 256) * p
  {
    var q, r := rest / 256, rest % 256;
    assert rest == 256 * q + r;
    assert (256 * q + r) * p == (256 * q) * p + r * p;
    assert (256 * q) * p == q * (256 * p);
  }

  lemma {:induction false} PrependByte(b: Byte, bytes: seq<Byte>)
    ensures FromBigEndian([b] + bytes) == b * Power(|bytes|) + FromBigEndian(bytes)
  {
    if bytes == [] {
      assert ([b] + bytes)[..0] == [];
    } else {
      var n := |bytes| - 1;
      assert ([b] + bytes)[..n + 1] == [b] + bytes[..n];
      PrependByte(b, bytes[..n]);
      Distribute(b, Power(n), FromBigEndian(bytes[..n]));
    }
  }

  lemma Distribute(b: nat, p: nat, x: nat)
    ensures 256 * (b * p + x) == b * (256 * p) + 256 * x
  {
  }

  lemma Power32()
    ensures Power(32) == TWO_256
  {
    Power8();
    PowerAdd(8, 8);
    PowerAdd(16, 16);
  }

  lemma {:induction false} PowerAdd(m: nat, n: nat)
    ensures Power(m + n) == Power(m) * Power(n)
  {
    if m > 0 {
      PowerAdd(m - 1, n);
      assert 256 * (Power(m - 1) * Power(n)) == (256 * Power(m - 1)) * Power(n);
    }
  }

  // ----- Mining a block -----

  /** The double hash of a byte string, as 32 bytes. */
  type Hasher = seq<Byte> -> seq<Byte>

  ghost predicate HasherOk(hash: Hasher) {
    forall bytes :: |hash(bytes)| == 32
  }

  /** A trial of the workers: nonce bytes behind the header prefix, hashed, compared as bytes. */
  method TryNonce(hash: Hasher, prefix: seq<Byte>, targetBytes: seq<Byte>, nonce: UInt64) returns (valid: bool)
    requires HasherOk(hash) && |targetBytes| == 32
    ensures valid <==> Satisfies(hash, prefix, FromBigEndian(targetBytes))(nonce)
  {
    NonceBytes(nonce);
    valid := HashBelow(hash(prefix + LittleEndian(nonce, 8)), targetBytes);
  }

  lemma NonceBytes(nonce: UInt64)
    ensures EncodeInt(nonce, 8) == LittleEndian(nonce, 8)
  {
    UIntFits([], 0, 8);
    hide Power, LittleEndian;
    Remainder(nonce, Power(8));
  }

  /** What the workers search for. */
  ghost function Satisfies(hash: Hasher, prefix: seq<Byte>, target: nat): nat -> bool {
    (nonce: nat) => FromBigEndian(hash(prefix + EncodeInt(nonce, 8))) < target
  }

  ghost function JobFor(workers: nat, hash: Hasher, codec: Codec, b: Block): Job
    requires workers > 0
  {
    Job(workers, MAX_UINT64 / workers, Satisfies(hash, HeaderPrefix(codec, b), Difficulty.Target(b.bits)))
  }

  /** The validator's check: the block hash as a number lies below the target. */
  ghost predicate PassesValidator(hash: Hasher, codec: Codec, b: Block) {
    FromBigEndian(hash(Header(codec, b))) < Difficulty.Target(b.bits)
  }

  lemma JobForIsOk(workers: nat, hash: Hasher, codec: Codec, b: Block)
    requires 0 < workers <= MAX_UINT64
    ensures JobOk(JobFor(workers, hash, codec, b))
  {
    var c := MAX_UINT64 / workers;
    hide Satisfies;
    assert workers * c <= MAX_UINT64;
  }

  /** What PoW::mine makes of the search, and the interrupt flag it leaves behind. */
  ghost function Mined(s: State, b: Block): (Option<Block>, bool)
    requires s.found ==> s.foundNonce < TWO_64
  {
    if s.interrupt then (None, false)
    else (if s.found then Some(b.(nonce := s.foundNonce)) else None, s.interrupt)
  }

  /** Whatever the interleaving of the workers and the interrupts, a mined block is the block given
      with a nonce that passes the validator's check. There is none only if the flag is up after the
      join or nothing was found, and without an interrupt the latter means that no nonce of the
      searched range would pass. No interrupt is left over for the next block. */
  lemma MinedBlockPasses(workers: nat, hash: Hasher, codec: Codec, b: Block, schedule: seq<Action>)
    requires 0 < workers <= MAX_UINT64
    requires Joined(Execute(JobFor(workers, hash, codec, b), schedule))
    ensures var s := Execute(JobFor(workers, hash, codec, b), schedule);
            && (s.found ==> s.foundNonce < TWO_64)
            && var (mined, interrupt) := Mined(s, b);
               && !interrupt && (mined.Some? <==> s.found && !s.interrupt)
               && (mined.Some? ==> PassesValidator(hash, codec, mined.value) && mined.value.(nonce := b.nonce) == b)
               && (mined.None? && !s.interrupted ==>
                     forall nonce: nat | InRange(JobFor(workers, hash, codec, b), nonce) && nonce < TWO_64 ::
                       !PassesValidator(hash, codec, b.(nonce := nonce)))
  {
    hide JobFor, Execute, Joined, InRange, JobOk, PassesValidator;
    var job := JobFor(workers, hash, codec, b);
    var s := Execute(job, schedule);
    JobForIsOk(workers, hash, codec, b);
    RangeFits(job);
    SearchIsCorrect(job, schedule);
    FlagsAgree(job, schedule);
    if s.found {
      TrialIsValidation(workers, hash, codec, b, s.foundNonce);
    } else if !s.interrupted {
      forall nonce: nat | InRange(job, nonce) && nonce < TWO_64
        ensures !PassesValidator(hash, codec, b.(nonce := nonce))
      {
        TrialIsValidation(workers, hash, codec, b, nonce);
      }
    }
  }

  lemma FlagsAgree(job: Job, schedule: seq<Action>)
    requires JobOk(job)
    ensures Execute(job, schedule).interrupt ==> Execute(job, schedule).interrupted
  {
    hide Execute, WorkerOk, Tried, Unflushed;
    InvAlways(job, schedule);
  }

  lemma RangeFits(job: Job)
    requires JobOk(job)
    ensures forall nonce: nat | InRange(job, nonce) :: nonce < TWO_64
  {
  }

  lemma TrialIsValidation(workers: nat, hash: Hasher, codec: Codec, b: Block, nonce: UInt64)
    requires workers > 0
    ensures JobFor(workers, hash, codec, b).satisfies(nonce) <==> PassesValidator(hash, codec, b.(nonce := nonce))
  {
    var mined := b.(nonce := nonce);
    assert HeaderPrefix(codec, mined) == HeaderPrefix(codec, b);
    hide HeaderPrefix, EncodeInt;
    assert Header(codec, mined) == HeaderPrefix(codec, b) + EncodeInt(nonce, 8);
  }
}
