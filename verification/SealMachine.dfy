/**
  Initialising, unsealing and sealing the vault (`src/core.rs`).

  Module setup and teardown (`post_unseal`, `pre_seal`, the root token) are hooks: some
  client writes through the barrier, then success or failure. Requests likewise.
  */
module SealMachine {
  import opened Wrappers
  import opened Platform
  import opened Barrier
  import Polynomials
  import Shamir

  const SEAL_CONFIG_PATH := "core/seal-config"

  /** Clients of the vault's barrier keep away from what `init` stores. */
  predicate ClientPath(path: string) {
    path != BARRIER_INIT_PATH && path != SEAL_CONFIG_PATH
  }

  datatype ClientOp = PutOp(path: string, value: Bytes, nonce: Bytes) | DeleteOp(path: string)

  datatype Hook = Hook(ops: seq<ClientOp>, ok: bool)

  datatype Core = Core(barrier: State, sealed: bool, pending: seq<Bytes>)

  /** The random bytes and the setup outcome that one `init` meets. */
  datatype InitInput = InitInput(
    masterKey: Bytes, dataKey: Bytes, nonce: Bytes, random: seq<Bytes>, setup: Hook, overflowChecks: bool)

  predicate ValidOp(op: ClientOp) {
    ClientPath(op.path) && (op.PutOp? ==> |op.nonce| == IV_SIZE)
  }

  predicate ValidOps(ops: seq<ClientOp>) {
    forall i | 0 <= i < |ops| :: ValidOp(ops[i])
  }

  ghost predicate ValidInput(input: InitInput, config: SealConfig) {
    && |input.masterKey| == KEY_SIZE && |input.dataKey| == KEY_SIZE && |input.nonce| == IV_SIZE
    && ValidOps(input.setup.ops)
    && Shamir.ValidRandom(input.random, input.masterKey, config.secretThreshold)
  }

  function ApplyOp(p: Primitives, s: State, op: ClientOp): State {
    match op
    case PutOp(path, value, nonce) => PutStep(p, s, path, value, nonce).0
    case DeleteOp(path) => DeleteStep(s, path).0
  }

  function ApplyOps(p: Primitives, s: State, ops: seq<ClientOp>): State {
    if ops == [] then s else ApplyOp(p, ApplyOps(p, s, ops[..|ops| - 1]), ops[|ops| - 1])
  }

  // ---- The steps.

  predicate Validate(config: SealConfig) {
    config.secretThreshold <= config.secretShares
  }

  ghost function IssuedShares(config: SealConfig, input: InitInput): Result<seq<Bytes>, RvError>
    requires |input.random| == |input.masterKey|
  {
    if config.secretShares == 1 then
      Success([input.masterKey])
    else
      Shamir.SplitResult(input.masterKey, config.secretShares, config.secretThreshold, input.random,
                         input.overflowChecks)
  }

  ghost function InitCore(p: Primitives, c: Core, config: SealConfig, input: InitInput)
    : (Core, Result<seq<Bytes>, RvError>)
    requires |input.random| == |input.masterKey|
  {
    if Inited(c.barrier) then
      (c, Failure(ErrBarrierAlreadyInit))
    else if !Validate(config) then
      (c, Failure(ErrCoreSealConfigInvalid))
    else
      var b0 := c.barrier.(entries := c.barrier.entries[SEAL_CONFIG_PATH := p.encodeConfig(config)]);
      var (b1, inited) := InitStep(p, b0, input.masterKey, input.dataKey, input.nonce);
      if inited.Failure? then
        (c.(barrier := b1), Failure(inited.error))
      else
        var shares := IssuedShares(config, input);
        if shares.Failure? then
          (c.(barrier := b1), shares)
        else
          var (b2, unsealed) := UnsealStep(p, b1, input.masterKey);
          if unsealed.Failure? then
            (c.(barrier := b2), Failure(unsealed.error))
          else
            var b3 := SealStep(ApplyOps(p, b2, input.setup.ops));
            (c.(barrier := b3), if input.setup.ok then shares else Failure(ErrIo))
  }

  function StoredConfig(p: Primitives, s: State): Result<SealConfig, RvError> {
    if SEAL_CONFIG_PATH !in s.entries then Failure(ErrCoreSealConfigNotFound)
    else
      match p.decodeConfig(s.entries[SEAL_CONFIG_PATH])
      case None => Failure(ErrSerde)
      case Some(config) => if Validate(config) then Success(config) else Failure(ErrCoreSealConfigInvalid)
  }

  /** The master key that a full set of pending shares stands for. */
  ghost function Recover(threshold: u8, shares: seq<Bytes>): Option<Bytes>
    requires shares != []
  {
    if threshold == 1 then Some(shares[0])
    else if Shamir.Combinable(shares) then Some(Shamir.Combined(shares))
    else None
  }

  ghost function UnsealCore(p: Primitives, c: Core, key: Bytes, post: Hook): (Core, Result<bool, RvError>) {
    if !Inited(c.barrier) then
      (c, Failure(ErrBarrierNotInit))
    else if !c.barrier.sealed then
      (c, Failure(ErrBarrierUnsealed))
    else if |key| < AES_BLOCK_SIZE || |key| > 2 * AES_BLOCK_SIZE + 1 then
      (c, Failure(ErrBarrierKeyInvalid))
    else if StoredConfig(p, c.barrier).Failure? then
      (c, Failure(StoredConfig(p, c.barrier).error))
    else if key in c.pending then
      (c, Success(false))
    else
      var threshold := StoredConfig(p, c.barrier).value.secretThreshold;
      var shares := c.pending + [key];
      if |shares| < threshold then
        (c.(pending := shares), Success(false))
      else
        var cleared := c.(pending := []);
        match Recover(threshold, shares)
        case None => (cleared, Failure(ErrBarrierKeyInvalid))
        case Some(master) =>
          var (b, unsealed) := UnsealStep(p, c.barrier, master);
          if unsealed.Failure? then
            (cleared.(barrier := b), Failure(unsealed.error))
          else
            var ready := cleared.(barrier := ApplyOps(p, b, post.ops));
            if post.ok then (ready.(sealed := false), Success(true)) else (ready, Failure(ErrIo))
  }

  function SealCore(p: Primitives, c: Core, pre: Hook): (Core, Result<(), RvError>) {
    if !Inited(c.barrier) then
      (c, Failure(ErrBarrierNotInit))
    else if c.barrier.sealed then
      (c, Failure(ErrBarrierSealed))
    else
      var b := ApplyOps(p, c.barrier, pre.ops);
      if !pre.ok then (c.(barrier := b), Failure(ErrIo))
      else (c.(barrier := SealStep(b), sealed := true), Success(()))
  }

  /** The sealed check of `handle_request`, and the writes of the request that passes it. */
  function RequestCore(p: Primitives, c: Core, ops: seq<ClientOp>): (Core, Result<(), RvError>) {
    if c.sealed then (c, Failure(ErrBarrierSealed))
    else (c.(barrier := ApplyOps(p, c.barrier, ops)), Success(()))
  }

  // ---- `Core` as an object.

  class Vault {
    const barrier: AesGcmBarrier
    var sealed: bool
    var unsealKeyShares: seq<Bytes>

    constructor (barrier: AesGcmBarrier)
      ensures this.barrier == barrier && sealed && unsealKeyShares == []
    {
      this.barrier := barrier;
      sealed := true;
      unsealKeyShares := [];
    }

    ghost function Now(): Core
      reads this, barrier
    {
      Core(barrier.Now(), sealed, unsealKeyShares)
    }

    method RunHook(hook: Hook)
      requires Lawful(barrier.primitives) && ValidOps(hook.ops)
      modifies barrier
      ensures barrier.Now() == ApplyOps(barrier.primitives, old(barrier.Now()), hook.ops)
    {
      for i := 0 to |hook.ops|
        invariant barrier.Now() == ApplyOps(barrier.primitives, old(barrier.Now()), hook.ops[..i])
      {
        match hook.ops[i] {
          case PutOp(path, value, nonce) =>
            assert ValidOp(hook.ops[i]);
            var r := barrier.Put(path, value, nonce);
          case DeleteOp(path) =>
            var r := barrier.Delete(path);
        }
        assert hook.ops[..i + 1][..i] == hook.ops[..i];
      }
      assert hook.ops[..|hook.ops|] == hook.ops;
    }

    method Init(config: SealConfig, input: InitInput) returns (r: Result<seq<Bytes>, RvError>)
      requires Lawful(barrier.primitives) && ValidInput(input, config)
      modifies this, barrier
      ensures (Now(), r) == InitCore(barrier.primitives, old(Now()), config, input)
    {
      hide InitStep, UnsealStep, ApplyOps, Shamir.SplitResult, Lawful;
      if BARRIER_INIT_PATH in barrier.entries {
        return Failure(ErrBarrierAlreadyInit);
      }
      if !Validate(config) {
        return Failure(ErrCoreSealConfigInvalid);
      }
      barrier.entries := barrier.entries[SEAL_CONFIG_PATH := barrier.primitives.encodeConfig(config)];
      var inited := barrier.Init(input.masterKey, input.dataKey, input.nonce);
      if inited.Failure? {
        return Failure(inited.error);
      }
      if config.secretShares == 1 {
        r := Success([input.masterKey]);
      } else {
        r := Shamir.Split(input.masterKey, config.secretShares, config.secretThreshold, input.random,
                          input.overflowChecks);
        if r.Failure? {
          return r;
        }
      }
      var unsealed := barrier.Unseal(input.masterKey);
      if unsealed.Failure? {
        return Failure(unsealed.error);
      }
      RunHook(input.setup);
      barrier.Seal();
      if !input.setup.ok {
        return Failure(ErrIo);
      }
    }

    method Unseal(key: Bytes, post: Hook) returns (r: Result<bool, RvError>)
      requires Lawful(barrier.primitives) && ValidOps(post.ops)
      modifies this, barrier
      ensures (Now(), r) == UnsealCore(barrier.primitives, old(Now()), key, post)
    {
      hide UnsealStep, ApplyOps, Shamir.Combinable, Shamir.Combined, Lawful;
      if BARRIER_INIT_PATH !in barrier.entries {
        return Failure(ErrBarrierNotInit);
      }
      if !barrier.sealed {
        return Failure(ErrBarrierUnsealed);
      }
      if |key| < AES_BLOCK_SIZE || |key| > 2 * AES_BLOCK_SIZE + 1 {
        return Failure(ErrBarrierKeyInvalid);
      }
      var config := StoredConfig(barrier.primitives, State(barrier.entries, barrier.sealed, barrier.key));
      if config.Failure? {
        return Failure(config.error);
      }
      if key in unsealKeyShares {
        return Success(false);
      }
      unsealKeyShares := unsealKeyShares + [key];
      if |unsealKeyShares| < config.value.secretThreshold {
        return Success(false);
      }
      var masterKey;
      if config.value.secretThreshold == 1 {
        masterKey := unsealKeyShares[0];
        unsealKeyShares := [];
      } else {
        var combined := Shamir.Combine(unsealKeyShares);
        unsealKeyShares := [];
        if combined.None? {
          return Failure(ErrBarrierKeyInvalid);
        }
        masterKey := combined.value;
      }
      var unsealed := barrier.Unseal(masterKey);
      if unsealed.Failure? {
        return Failure(unsealed.error);
      }
      RunHook(post);
      if !post.ok {
        return Failure(ErrIo);
      }
      sealed := false;
      return Success(true);
    }

    method Seal(pre: Hook) returns (r: Result<(), RvError>)
      requires Lawful(barrier.primitives) && ValidOps(pre.ops)
      modifies this, barrier
      ensures (Now(), r) == SealCore(barrier.primitives, old(Now()), pre)
    {
      if BARRIER_INIT_PATH !in barrier.entries {
        return Failure(ErrBarrierNotInit);
      }
      if barrier.sealed {
        return Failure(ErrBarrierSealed);
      }
      RunHook(pre);
      if !pre.ok {
        return Failure(ErrIo);
      }
      sealed := true;
      barrier.Seal();
      return Success(());
    }
  }

  // ---- What every run keeps.

  datatype Step =
    | DoInit(config: SealConfig, input: InitInput)
    | DoUnseal(key: Bytes, post: Hook)
    | DoSeal(pre: Hook)
    | DoRequest(ops: seq<ClientOp>)

  ghost predicate ValidStep(step: Step) {
    match step
    case DoInit(config, input) => ValidInput(input, config)
    case DoUnseal(_, post) => ValidOps(post.ops)
    case DoSeal(pre) => ValidOps(pre.ops)
    case DoRequest(ops) => ValidOps(ops)
  }

  ghost function Next(p: Primitives, c: Core, step: Step): Core
    requires ValidStep(step)
  {
    match step
    case DoInit(config, input) => InitCore(p, c, config, input).0
    case DoUnseal(key, post) => UnsealCore(p, c, key, post).0
    case DoSeal(pre) => SealCore(p, c, pre).0
    case DoRequest(ops) => RequestCore(p, c, ops).0
  }

  ghost function RunSteps(p: Primitives, c: Core, steps: seq<Step>): Core
    requires forall i | 0 <= i < |steps| :: ValidStep(steps[i])
  {
    if steps == [] then c
    else Next(p, RunSteps(p, c, steps[..|steps| - 1]), steps[|steps| - 1])
  }

  predicate Different(keys: seq<Bytes>) {
    forall i, j | 0 <= i < j < |keys| :: keys[i] != keys[j]
  }

  /**
    The seal machine's invariant. Pending shares are different, short of the threshold,
    and gone once the barrier is open; the core claims to be open only if the barrier is.
    */
  ghost predicate Safe(p: Primitives, c: Core) {
    && Different(c.pending)
    && (!Inited(c.barrier) || !c.barrier.sealed ==> c.pending == [])
    && (Inited(c.barrier) ==>
          && StoredConfig(p, c.barrier).Success?
          && |c.pending| <= if StoredConfig(p, c.barrier).value.secretThreshold == 0 then 0
                            else StoredConfig(p, c.barrier).value.secretThreshold - 1)
    && (!c.sealed ==> !c.barrier.sealed)
    && (!c.barrier.sealed ==> Inited(c.barrier))
  }

  /** Client writes keep the reserved entries, the seal and the key. */
  lemma {:induction false} OpsKeepReserved(p: Primitives, s: State, ops: seq<ClientOp>)
    requires ValidOps(ops)
    ensures var s' := ApplyOps(p, s, ops);
            && s'.sealed == s.sealed && s'.key == s.key
            && forall k | !ClientPath(k) ::
                 (k in s'.entries <==> k in s.entries) && (k in s.entries ==> s'.entries[k] == s.entries[k])
  {
    hide EncryptResult;
    if ops != [] {
      var last := |ops| - 1;
      OpsKeepReserved(p, s, ops[..last]);
      assert ValidOp(ops[last]);
    }
  }

  lemma SameConfig(p: Primitives, s: State, s': State)
    requires forall k | !ClientPath(k) ::
               (k in s'.entries <==> k in s.entries) && (k in s.entries ==> s'.entries[k] == s.entries[k])
    ensures StoredConfig(p, s') == StoredConfig(p, s) && Inited(s') == Inited(s)
  {
    assert !ClientPath(SEAL_CONFIG_PATH) && !ClientPath(BARRIER_INIT_PATH);
  }

  lemma OpsKeepConfig(p: Primitives, s: State, ops: seq<ClientOp>)
    requires ValidOps(ops)
    ensures var s' := ApplyOps(p, s, ops);
            && s'.sealed == s.sealed && s'.key == s.key
            && StoredConfig(p, s') == StoredConfig(p, s) && Inited(s') == Inited(s)
  {
    OpsKeepReserved(p, s, ops);
    SameConfig(p, s, ApplyOps(p, s, ops));
  }

  lemma UnsealKeepsEntries(p: Primitives, s: State, kek: Bytes)
    ensures UnsealStep(p, s, kek).0.entries == s.entries
    ensures UnsealStep(p, s, kek).1.Success? ==> !UnsealStep(p, s, kek).0.sealed
    ensures UnsealStep(p, s, kek).1.Failure? ==> UnsealStep(p, s, kek).0.sealed
  {
    hide Decrypt;
  }

  /** The states `init` leaves behind once it has got past its first two checks. */
  lemma InitOutcome(p: Primitives, c: Core, config: SealConfig, input: InitInput)
    requires Lawful(p) && ValidInput(input, config) && !Inited(c.barrier) && Validate(config) && c.barrier.sealed
    ensures var (c', r) := InitCore(p, c, config, input);
            && c'.barrier.sealed && c'.sealed == c.sealed && c'.pending == c.pending
            && Boots(p, c'.barrier.entries, Credential(input.masterKey, input.dataKey))
            && StoredConfig(p, c'.barrier) == Success(config)
            && r == (if IssuedShares(config, input).Success? && !input.setup.ok then Failure(ErrIo)
                     else IssuedShares(config, input))
  {
    hide Decrypt, Framed, IssuedShares, ApplyOps;
    var b0 := c.barrier.(entries := c.barrier.entries[SEAL_CONFIG_PATH := p.encodeConfig(config)]);
    var (b1, inited) := InitStep(p, b0, input.masterKey, input.dataKey, input.nonce);
    var cred := Credential(input.masterKey, input.dataKey);
    assert Boots(p, b1.entries, cred);
    assert StoredConfig(p, b1) == Success(config);
    MasterKeyUnseals(p, b1, cred);
    var b2 := b1.(sealed := false, key := Some(cred.dataKey));
    OpsKeepReserved(p, b2, input.setup.ops);
    SameConfig(p, b2, ApplyOps(p, b2, input.setup.ops));
    assert !ClientPath(BARRIER_INIT_PATH);
  }

  lemma SafeStep(p: Primitives, c: Core, step: Step)
    requires Lawful(p) && ValidStep(step) && Safe(p, c)
    ensures Safe(p, Next(p, c, step))
  {
    hide ApplyOps, UnsealStep, Recover, InitStep, IssuedShares, Lawful;
    match step
    case DoInit(config, input) =>
      if !Inited(c.barrier) && Validate(config) {
        InitOutcome(p, c, config, input);
      }
    case DoUnseal(key, post) =>
      SafeUnseal(p, c, key, post);
    case DoSeal(pre) =>
      OpsKeepConfig(p, c.barrier, pre.ops);
    case DoRequest(ops) =>
      OpsKeepConfig(p, c.barrier, ops);
  }

  lemma SafeUnseal(p: Primitives, c: Core, key: Bytes, post: Hook)
    requires ValidOps(post.ops) && Safe(p, c)
    ensures Safe(p, UnsealCore(p, c, key, post).0)
  {
    hide ApplyOps, UnsealStep, Recover;
    if Inited(c.barrier) && c.barrier.sealed {
      var threshold := StoredConfig(p, c.barrier).value.secretThreshold;
      var shares := c.pending + [key];
      var master := Recover(threshold, shares);
      if master.Some? {
        var b := UnsealStep(p, c.barrier, master.value).0;
        UnsealKeepsEntries(p, c.barrier, master.value);
        OpsKeepConfig(p, b, post.ops);
      }
    }
  }

  /** The vault as it starts: sealed, nothing pending, not initialised. */
  predicate Fresh(c: Core) {
    c.sealed && c.pending == [] && c.barrier.sealed && !Inited(c.barrier)
  }

  /** Every run keeps the seal machine's invariant. */
  lemma {:induction false} EveryRunIsSafe(p: Primitives, c: Core, steps: seq<Step>)
    requires Lawful(p) && Fresh(c) && forall i | 0 <= i < |steps| :: ValidStep(steps[i])
    ensures Safe(p, RunSteps(p, c, steps))
  {
    hide Next, ValidStep, Lawful;
    if steps != [] {
      var last := |steps| - 1;
      EveryRunIsSafe(p, c, steps[..last]);
      SafeStep(p, RunSteps(p, c, steps[..last]), steps[last]);
    }
  }

  /** The key completes a set that `combine` or the barrier refuses. */
  ghost predicate Rejected(p: Primitives, c: Core, threshold: u8, key: Bytes) {
    && c.barrier.sealed && key !in c.pending
    && AES_BLOCK_SIZE <= |key| <= 2 * AES_BLOCK_SIZE + 1
    && |c.pending| + 1 >= threshold
    && (Recover(threshold, c.pending + [key]).Some? ==>
          UnsealStep(p, c.barrier, Recover(threshold, c.pending + [key]).value).1.Failure?)
  }

  /** A refused set of shares leaves the vault sealed with no progress and all entries. */
  lemma RejectedAttempt(p: Primitives, c: Core, key: Bytes, post: Hook)
    requires Safe(p, c) && Inited(c.barrier)
    requires Rejected(p, c, StoredConfig(p, c.barrier).value.secretThreshold, key)
    ensures var (c', r) := UnsealCore(p, c, key, post);
            r.Failure? && c'.barrier.sealed && c'.sealed && c'.pending == [] && c'.barrier.entries == c.barrier.entries
  {
    hide UnsealStep, Recover, ApplyOps;
    var master := Recover(StoredConfig(p, c.barrier).value.secretThreshold, c.pending + [key]);
    if master.Some? {
      UnsealKeepsEntries(p, c.barrier, master.value);
    }
  }

  // ---- What the operations answer.

  /** What `init` refuses, and that it then changes nothing. */
  lemma InitRefusals(p: Primitives, c: Core, config: SealConfig, input: InitInput)
    requires ValidInput(input, config)
    ensures Inited(c.barrier) ==> InitCore(p, c, config, input) == (c, Failure(ErrBarrierAlreadyInit))
    ensures !Inited(c.barrier) && config.secretThreshold > config.secretShares ==>
              InitCore(p, c, config, input) == (c, Failure(ErrCoreSealConfigInvalid))
  {}

  /** What the stored configuration is read as, and that a submission answers with its failure. */
  lemma StoredConfigMeans(p: Primitives, c: Core, key: Bytes, post: Hook)
    ensures var read := StoredConfig(p, c.barrier);
            if "core/seal-config" !in c.barrier.entries then
              read == Failure(ErrCoreSealConfigNotFound)
            else
              match p.decodeConfig(c.barrier.entries["core/seal-config"])
              case None => read == Failure(ErrSerde)
              case Some(config) =>
                read == if config.secretThreshold > config.secretShares then Failure(ErrCoreSealConfigInvalid)
                        else Success(config)
    ensures Inited(c.barrier) && c.barrier.sealed && 16 <= |key| <= 33 && StoredConfig(p, c.barrier).Failure? ==>
              UnsealCore(p, c, key, post) == (c, Failure(StoredConfig(p, c.barrier).error))
  {
    hide UnsealStep, Recover, ApplyOps;
  }

  /** What a submission answers before it reaches the threshold, and what it changes. */
  lemma SubmissionAnswers(p: Primitives, c: Core, key: Bytes, post: Hook)
    ensures !Inited(c.barrier) ==> UnsealCore(p, c, key, post) == (c, Failure(ErrBarrierNotInit))
    ensures Inited(c.barrier) && !c.barrier.sealed ==> UnsealCore(p, c, key, post) == (c, Failure(ErrBarrierUnsealed))
    ensures Inited(c.barrier) && c.barrier.sealed ==>
              && (|key| < 16 || |key| > 33 ==> UnsealCore(p, c, key, post) == (c, Failure(ErrBarrierKeyInvalid)))
              && (16 <= |key| <= 33 && StoredConfig(p, c.barrier).Success? ==>
                    && (key in c.pending ==> UnsealCore(p, c, key, post) == (c, Success(false)))
                    && (key !in c.pending && |c.pending| + 1 < StoredConfig(p, c.barrier).value.secretThreshold ==>
                          UnsealCore(p, c, key, post) == (c.(pending := c.pending + [key]), Success(false))))
  {
    hide UnsealStep, Recover, ApplyOps, StoredConfig;
  }

  /**
    Sealing seals: core and barrier are sealed and the data key is gone. If teardown fails
    nothing is sealed, and a vault that is not open refuses.
    */
  lemma SealSeals(p: Primitives, c: Core, pre: Hook)
    requires ValidOps(pre.ops)
    ensures !Inited(c.barrier) ==> SealCore(p, c, pre) == (c, Failure(ErrBarrierNotInit))
    ensures Inited(c.barrier) && c.barrier.sealed ==> SealCore(p, c, pre) == (c, Failure(ErrBarrierSealed))
    ensures Inited(c.barrier) && !c.barrier.sealed ==>
              var (c', r) := SealCore(p, c, pre);
              && c'.pending == c.pending && Inited(c'.barrier)
              && StoredConfig(p, c'.barrier) == StoredConfig(p, c.barrier)
              && (if pre.ok then
                    r == Success(()) && c'.sealed && c'.barrier.sealed && c'.barrier.key == None
                  else
                    r == Failure(ErrIo) && c'.sealed == c.sealed && !c'.barrier.sealed && c'.barrier.key == c.barrier.key)
  {
    OpsKeepConfig(p, c.barrier, pre.ops);
    hide ApplyOps;
  }

  /** A sealed vault refuses storage calls and requests, and they change nothing. */
  lemma SealedVaultRefuses(p: Primitives, c: Core, call: Call, ops: seq<ClientOp>)
    requires c.sealed && c.barrier.sealed && (call.Get? || call.List? || call.Put? || call.Delete?)
    ensures StorageError(p, c.barrier, call) == Some(ErrBarrierSealed) && Apply(p, c.barrier, call) == c.barrier
    ensures RequestCore(p, c, ops) == (c, Failure(ErrBarrierSealed))
  {
    SealedCall(p, c.barrier, call);
  }

  /** An unsealed vault answers requests, and their writes take effect. */
  lemma OpenVaultAnswers(p: Primitives, c: Core, ops: seq<ClientOp>)
    requires !c.sealed
    ensures RequestCore(p, c, ops) == (c.(barrier := ApplyOps(p, c.barrier, ops)), Success(()))
  {}

  /** A full set of shares with a failing setup: the barrier is open, but the core stays sealed. */
  lemma FailedSetup(p: Primitives, c: Core, cred: Credential, key: Bytes, post: Hook)
    requires Lawful(p) && Inited(c.barrier) && c.barrier.sealed && key !in c.pending && 16 <= |key| <= 33
    requires StoredConfig(p, c.barrier).Success? && ValidOps(post.ops) && !post.ok
    requires |c.pending| + 1 >= StoredConfig(p, c.barrier).value.secretThreshold
    requires Recover(StoredConfig(p, c.barrier).value.secretThreshold, c.pending + [key]) == Some(cred.kek)
    requires Boots(p, c.barrier.entries, cred)
    ensures var (c', r) := UnsealCore(p, c, key, post);
            && r == Failure(ErrIo) && c'.sealed == c.sealed && !c'.barrier.sealed && c'.pending == []
            && c'.barrier.key == Some(cred.dataKey)
  {
    MasterKeyUnseals(p, c.barrier, cred);
    hide UnsealStep, Recover, ApplyOps, StoredConfig, Boots, Lawful;
    OpsKeepReserved(p, c.barrier.(sealed := false, key := Some(cred.dataKey)), post.ops);
  }

  function Submissions(steps: seq<Step>): nat {
    if steps == [] then 0
    else Submissions(steps[..|steps| - 1]) + if steps[|steps| - 1].DoUnseal? then 1 else 0
  }

  /** Fewer submissions than the threshold never open a sealed vault, whatever else is done. */
  lemma {:induction false} TooFewSubmissions(p: Primitives, c: Core, config: SealConfig, steps: seq<Step>)
    requires c.sealed && c.barrier.sealed && Inited(c.barrier) && c.pending == []
    requires StoredConfig(p, c.barrier) == Success(config)
    requires forall i | 0 <= i < |steps| :: ValidStep(steps[i])
    requires Submissions(steps) < config.secretThreshold || Submissions(steps) == 0
    ensures var c' := RunSteps(p, c, steps);
            c'.sealed && c'.barrier == c.barrier && |c'.pending| <= Submissions(steps)
    ensures Submissions(steps) == 0 ==> RunSteps(p, c, steps) == c
  {
    hide Next, ValidStep, StoredConfig;
    if steps != [] {
      var last := |steps| - 1;
      TooFewSubmissions(p, c, config, steps[..last]);
      StepStaysSealed(p, RunSteps(p, c, steps[..last]), config, steps[last]);
    }
  }

  lemma StepStaysSealed(p: Primitives, c: Core, config: SealConfig, step: Step)
    requires c.sealed && c.barrier.sealed && Inited(c.barrier) && StoredConfig(p, c.barrier) == Success(config)
    requires ValidStep(step) && (step.DoUnseal? ==> |c.pending| + 1 < config.secretThreshold)
    ensures var c' := Next(p, c, step);
            && c'.sealed && c'.barrier == c.barrier
            && |c'.pending| <= |c.pending| + (if step.DoUnseal? then 1 else 0) && (!step.DoUnseal? ==> c' == c)
  {
    hide StoredConfig, UnsealCore, SealCore, RequestCore;
    match step
    case DoInit(config', input) => InitRefusals(p, c, config', input);
    case DoUnseal(key, post) => SubmissionAnswers(p, c, key, post);
    case DoSeal(pre) => SealSeals(p, c, pre);
    case DoRequest(ops) => SealedVaultRefuses(p, c, Get(""), ops);
  }

  /**
    A seal that succeeds, in any run of a fresh vault, holds: no requests, seals, inits and
    no fewer submissions than the threshold open the vault afterwards.
    */
  lemma SealHolds(p: Primitives, c: Core, before: seq<Step>, pre: Hook, steps: seq<Step>)
    requires Lawful(p) && Fresh(c) && ValidOps(pre.ops)
    requires forall i | 0 <= i < |before| :: ValidStep(before[i])
    requires forall i | 0 <= i < |steps| :: ValidStep(steps[i])
    requires SealCore(p, RunSteps(p, c, before), pre).1 == Success(())
    ensures var c' := SealCore(p, RunSteps(p, c, before), pre).0;
            && StoredConfig(p, c'.barrier).Success?
            && (Submissions(steps) < StoredConfig(p, c'.barrier).value.secretThreshold || Submissions(steps) == 0 ==>
                  && RunSteps(p, c', steps).sealed && RunSteps(p, c', steps).barrier == c'.barrier
                  && c'.barrier.sealed && c'.barrier.key == None)
  {
    var open := RunSteps(p, c, before);
    EveryRunIsSafe(p, c, before);
    SealSeals(p, open, pre);
    hide SealCore, RunSteps, StoredConfig, Lawful, ValidStep;
    var c' := SealCore(p, open, pre).0;
    if Submissions(steps) < StoredConfig(p, c'.barrier).value.secretThreshold || Submissions(steps) == 0 {
      TooFewSubmissions(p, c', StoredConfig(p, c'.barrier).value, steps);
    }
  }

  // ---- Initialise, then unseal.

  /** The configurations whose shares can open the vault again. */
  predicate Usable(config: SealConfig) {
    || (config.secretShares == 1 && config.secretThreshold == 1)
    || 2 <= config.secretThreshold <= config.secretShares <= 254
  }

  /** The vault holds the init record of a credential and a configuration. */
  ghost predicate Installed(p: Primitives, c: Core, cred: Credential, config: SealConfig) {
    Boots(p, c.barrier.entries, cred) && StoredConfig(p, c.barrier) == Success(config)
  }

  /** Nothing the vault does later takes the installation away. */
  lemma InstalledStep(p: Primitives, c: Core, cred: Credential, config: SealConfig, step: Step)
    requires Lawful(p) && ValidStep(step) && Installed(p, c, cred, config)
    ensures Installed(p, Next(p, c, step), cred, config)
  {
    hide ApplyOps, UnsealStep, Recover, Stored, InitStep, IssuedShares, Lawful;
    assert !ClientPath(BARRIER_INIT_PATH);
    match step
    case DoInit(_, _) =>
    case DoUnseal(key, post) =>
      var shares := c.pending + [key];
      var master := Recover(config.secretThreshold, shares);
      if master.Some? {
        UnsealKeepsEntries(p, c.barrier, master.value);
        OpsKeepReserved(p, UnsealStep(p, c.barrier, master.value).0, post.ops);
        OpsKeepConfig(p, UnsealStep(p, c.barrier, master.value).0, post.ops);
      }
    case DoSeal(pre) =>
      OpsKeepReserved(p, c.barrier, pre.ops);
      OpsKeepConfig(p, c.barrier, pre.ops);
    case DoRequest(ops) =>
      OpsKeepReserved(p, c.barrier, ops);
      OpsKeepConfig(p, c.barrier, ops);
  }

  /** Submissions without their repetitions, in order of first appearance. */
  function Firsts(keys: seq<Bytes>): seq<Bytes> {
    if keys == [] then []
    else
      var before := Firsts(keys[..|keys| - 1]);
      if keys[|keys| - 1] in before then before else before + [keys[|keys| - 1]]
  }

  lemma {:induction false} FirstsAre(keys: seq<Bytes>)
    ensures Different(Firsts(keys)) && forall k :: k in Firsts(keys) <==> k in keys
  {
    if keys != [] {
      var last := |keys| - 1;
      FirstsAre(keys[..last]);
      assert forall k :: k in keys <==> k in keys[..last] || k == keys[last];
    }
  }

  /** Submit shares one after the other, all with the same hook. */
  ghost function Submit(p: Primitives, c: Core, keys: seq<Bytes>, post: Hook): Core {
    if keys == [] then c
    else UnsealCore(p, Submit(p, c, keys[..|keys| - 1], post), keys[|keys| - 1], post).0
  }

  ghost predicate IssuedBy(share: Bytes, config: SealConfig, input: InitInput)
    requires |input.random| == |input.masterKey|
  {
    IssuedShares(config, input).Success? && share in IssuedShares(config, input).value
  }

  lemma ShareLength(share: Bytes, config: SealConfig, input: InitInput)
    requires ValidInput(input, config) && IssuedBy(share, config, input)
    ensures AES_BLOCK_SIZE <= |share| <= 2 * AES_BLOCK_SIZE + 1
  {
    hide Shamir.Issued;
    if config.secretShares != 1 && config.secretShares != 255 {
      Shamir.IssuedShape(input.masterKey, input.random, config.secretShares, share);
    }
  }

  /** Below the threshold, repeats are ignored and the others are collected. */
  lemma {:induction false} SubmitBelow(p: Primitives, c: Core, cred: Credential, config: SealConfig, input: InitInput,
                                       keys: seq<Bytes>, post: Hook)
    requires Lawful(p) && ValidInput(input, config) && Usable(config)
    requires Installed(p, c, cred, config) && c.barrier.sealed && c.pending == []
    requires forall i | 0 <= i < |keys| :: IssuedBy(keys[i], config, input)
    requires |Firsts(keys)| < config.secretThreshold
    ensures Submit(p, c, keys, post) == c.(pending := Firsts(keys))
    ensures forall k | k in Firsts(keys) || (|Firsts(keys)| + 1 < config.secretThreshold && IssuedBy(k, config, input)) ::
              UnsealCore(p, Submit(p, c, keys, post), k, post).1 == Success(false)
  {
    hide IssuedShares, Recover, UnsealStep, Lawful, ApplyOps;
    FirstsAre(keys);
    forall k | k in keys || IssuedBy(k, config, input) ensures AES_BLOCK_SIZE <= |k| <= 2 * AES_BLOCK_SIZE + 1 {
      ShareLength(k, config, input);
    }
    if keys != [] {
      SubmitBelow(p, c, cred, config, input, keys[..|keys| - 1], post);
    }
  }

  /** A full set of issued shares recovers the master key. */
  lemma FullSetRecovers(config: SealConfig, input: InitInput, shares: seq<Bytes>)
    requires ValidInput(input, config) && Usable(config)
    requires |shares| == config.secretThreshold && Different(shares)
    requires forall i | 0 <= i < |shares| :: IssuedBy(shares[i], config, input)
    ensures Recover(config.secretThreshold, shares) == Some(input.masterKey)
  {
    hide Shamir.Issued, Shamir.Combinable, Shamir.Combined;
    if config.secretThreshold == 1 {
      assert IssuedBy(shares[0], config, input);
    } else {
      Shamir.ThresholdRecovery(input.masterKey, input.random, config.secretShares, config.secretThreshold, shares);
    }
  }

  /**
    Initialise, then unseal. From any sealed state without progress, submissions of issued
    shares in any order and with any repetitions collect in `pending`; the submission that
    completes the threshold opens the barrier with the data key stored at init.
    */
  lemma InitThenUnseal(p: Primitives, c: Core, config: SealConfig, input: InitInput,
                       keys: seq<Bytes>, final: Bytes, post: Hook)
    requires Lawful(p) && ValidInput(input, config) && Usable(config) && post.ok && ValidOps(post.ops)
    requires Installed(p, c, Credential(input.masterKey, input.dataKey), config)
    requires c.barrier.sealed && c.pending == []
    requires forall i | 0 <= i < |keys| :: IssuedBy(keys[i], config, input)
    requires IssuedBy(final, config, input) && final !in keys
    requires |Firsts(keys)| + 1 == config.secretThreshold
    ensures var before := Submit(p, c, keys, post);
            var (after, r) := UnsealCore(p, before, final, post);
            && before.barrier.sealed && before.pending == Firsts(keys)
            && r == Success(true)
            && !after.sealed && !after.barrier.sealed && after.pending == []
            && after.barrier.key == Some(input.dataKey)
  {
    assert Inited(c.barrier);
    hide IssuedShares, Recover, UnsealStep, Lawful, ApplyOps, Boots;
    var cred := Credential(input.masterKey, input.dataKey);
    SubmitBelow(p, c, cred, config, input, keys, post);
    FirstsAre(keys);
    var shares := Firsts(keys) + [final];
    forall i | 0 <= i < |shares| ensures IssuedBy(shares[i], config, input) {
      if i < |Firsts(keys)| {
        assert shares[i] in keys;
      }
    }
    FullSetRecovers(config, input, shares);
    ShareLength(final, config, input);
    MasterKeyUnseals(p, c.barrier, cred);
    var open := c.barrier.(sealed := false, key := Some(cred.dataKey));
    OpsKeepReserved(p, open, post.ops);
  }

  lemma {:induction false} InstalledRun(p: Primitives, c: Core, cred: Credential, config: SealConfig, steps: seq<Step>)
    requires Lawful(p) && Installed(p, c, cred, config) && forall i | 0 <= i < |steps| :: ValidStep(steps[i])
    ensures Installed(p, RunSteps(p, c, steps), cred, config)
  {
    hide Next, ValidStep, Lawful, Installed;
    if steps != [] {
      var last := |steps| - 1;
      InstalledRun(p, c, cred, config, steps[..last]);
      InstalledStep(p, RunSteps(p, c, steps[..last]), cred, config, steps[last]);
    }
  }

  /** Submissions of issued shares that reach the threshold with the final one. */
  ghost predicate FullSubmission(config: SealConfig, input: InitInput, keys: seq<Bytes>, final: Bytes)
    requires |input.random| == |input.masterKey|
  {
    && (forall i | 0 <= i < |keys| :: IssuedBy(keys[i], config, input))
    && IssuedBy(final, config, input) && final !in keys
    && |Firsts(keys)| + 1 == config.secretThreshold
  }

  /** Submitting to a core reaches the threshold and opens it with the given data key. */
  ghost predicate Opens(p: Primitives, c: Core, keys: seq<Bytes>, final: Bytes, post: Hook, dataKey: Bytes) {
    var (after, r) := UnsealCore(p, Submit(p, c, keys, post), final, post);
    && r == Success(true)
    && !after.sealed && !after.barrier.sealed && after.pending == []
    && after.barrier.key == Some(dataKey)
  }

  /**
    The end-to-end theorem: after `init` and any run of the vault that ends sealed and
    without progress, a full set of the issued shares opens it with the data key of init.
    */
  lemma GenuineSetOpensLater(p: Primitives, c: Core, config: SealConfig, input: InitInput, steps: seq<Step>,
                             keys: seq<Bytes>, final: Bytes, post: Hook)
    requires Lawful(p) && Fresh(c) && ValidInput(input, config) && Usable(config) && post.ok && ValidOps(post.ops)
    requires forall i | 0 <= i < |steps| :: ValidStep(steps[i])
    requires FullSubmission(config, input, keys, final)
    ensures var c' := RunSteps(p, InitCore(p, c, config, input).0, steps);
            c'.barrier.sealed && c'.pending == [] ==> Opens(p, c', keys, final, post, input.dataKey)
  {
    hide Lawful, RunSteps, InitCore, Boots, StoredConfig, UnsealCore, Submit, IssuedShares;
    var init := InitCore(p, c, config, input).0;
    var cred := Credential(input.masterKey, input.dataKey);
    InitOutcome(p, c, config, input);
    InstalledRun(p, init, cred, config, steps);
    var c' := RunSteps(p, init, steps);
    if c'.barrier.sealed && c'.pending == [] {
      InitThenUnseal(p, c', config, input, keys, final, post);
    }
  }

  /**
    A set of shares that `combine` or the barrier refuses, at any point of any run after
    `init`, does no lasting harm: a genuine set submitted next opens the vault.
    */
  lemma GenuineSetAfterRejection(p: Primitives, c: Core, config: SealConfig, input: InitInput, steps: seq<Step>,
                                 bad: Bytes, keys: seq<Bytes>, final: Bytes, post: Hook)
    requires Lawful(p) && Fresh(c) && ValidInput(input, config) && Usable(config) && post.ok && ValidOps(post.ops)
    requires forall i | 0 <= i < |steps| :: ValidStep(steps[i])
    requires FullSubmission(config, input, keys, final)
    requires Rejected(p, RunSteps(p, InitCore(p, c, config, input).0, steps), config.secretThreshold, bad)
    ensures var c' := UnsealCore(p, RunSteps(p, InitCore(p, c, config, input).0, steps), bad, post).0;
            Opens(p, c', keys, final, post, input.dataKey)
  {
    hide Lawful, InitCore, Boots, StoredConfig, UnsealCore, Submit, FullSubmission, Opens, Rejected, RunSteps, Safe;
    hide IssuedShares, Next;
    var init := InitCore(p, c, config, input).0;
    InitOutcome(p, c, config, input);
    InstalledRun(p, init, Credential(input.masterKey, input.dataKey), config, steps);
    RunAfterInitIsSafe(p, c, config, input, steps);
    RejectedInstalled(p, RunSteps(p, init, steps), Credential(input.masterKey, input.dataKey), config, bad, post);
    RunOneMore(p, init, steps, bad, post);
    GenuineSetOpensLater(p, c, config, input, steps + [DoUnseal(bad, post)], keys, final, post);
  }

  lemma RejectedInstalled(p: Primitives, c: Core, cred: Credential, config: SealConfig, key: Bytes, post: Hook)
    requires Safe(p, c) && Installed(p, c, cred, config) && Rejected(p, c, config.secretThreshold, key)
    ensures var c' := UnsealCore(p, c, key, post).0;
            c'.barrier.sealed && c'.pending == []
  {
    hide UnsealCore, Rejected, Safe;
    RejectedAttempt(p, c, key, post);
  }

  lemma RunOneMore(p: Primitives, c: Core, steps: seq<Step>, key: Bytes, post: Hook)
    requires ValidOps(post.ops) && forall i | 0 <= i < |steps| :: ValidStep(steps[i])
    ensures var all := steps + [DoUnseal(key, post)];
            && (forall i | 0 <= i < |all| :: ValidStep(all[i]))
            && RunSteps(p, c, all) == UnsealCore(p, RunSteps(p, c, steps), key, post).0
  {
    hide UnsealCore;
    var all := steps + [DoUnseal(key, post)];
    assert all[..|all| - 1] == steps;
  }

  lemma RunAfterInitIsSafe(p: Primitives, c: Core, config: SealConfig, input: InitInput, steps: seq<Step>)
    requires Lawful(p) && Fresh(c) && ValidInput(input, config)
    requires forall i | 0 <= i < |steps| :: ValidStep(steps[i])
    ensures Safe(p, RunSteps(p, InitCore(p, c, config, input).0, steps))
  {
    hide Lawful, InitCore, Safe, Next;
    var all := [DoInit(config, input)] + steps;
    EveryRunIsSafe(p, c, all);
    RunAfterFirst(p, c, DoInit(config, input), steps);
    assert Next(p, c, DoInit(config, input)) == InitCore(p, c, config, input).0 by {
      FirstIsInit(p, c, config, input);
    }
  }

  lemma FirstIsInit(p: Primitives, c: Core, config: SealConfig, input: InitInput)
    requires ValidInput(input, config)
    ensures Next(p, c, DoInit(config, input)) == InitCore(p, c, config, input).0
  {
    hide InitCore;
  }

  lemma {:induction false} RunAfterFirst(p: Primitives, c: Core, first: Step, steps: seq<Step>)
    requires ValidStep(first) && forall i | 0 <= i < |steps| :: ValidStep(steps[i])
    ensures RunSteps(p, c, [first] + steps) == RunSteps(p, Next(p, c, first), steps)
  {
    hide Next, ValidStep;
    var all := [first] + steps;
    if steps == [] {
      assert all[..|all| - 1] == [];
    } else {
      var last := |steps| - 1;
      RunAfterFirst(p, c, first, steps[..last]);
      assert all[..|all| - 1] == [first] + steps[..last];
    }
  }

  // ---- The vault's clients see a map.

  const RESERVED: set<string> := {BARRIER_INIT_PATH, SEAL_CONFIG_PATH}

  function AsCall(op: ClientOp): Call {
    match op
    case PutOp(path, value, nonce) => Put(path, value, nonce)
    case DeleteOp(path) => Delete(path)
  }

  /** The map that clients remember after some writes. */
  function RememberOps(p: Primitives, s: State, m: map<string, Bytes>, ops: seq<ClientOp>): map<string, Bytes> {
    if ops == [] then m
    else
      var earlier := ops[..|ops| - 1];
      Remember(ApplyOps(p, s, earlier), RememberOps(p, s, m, earlier), AsCall(ops[|ops| - 1]))
  }

  lemma {:induction false} RefinesOps(p: Primitives, s: State, m: map<string, Bytes>, boot: Option<Credential>,
                                      ops: seq<ClientOp>)
    requires Lawful(p) && ValidOps(ops) && Refines(p, RESERVED, s, m, boot)
    ensures Refines(p, RESERVED, ApplyOps(p, s, ops), RememberOps(p, s, m, ops), boot)
  {
    hide Refines, Lawful, Remember, PutStep, DeleteStep;
    if ops != [] {
      var last := |ops| - 1;
      var earlier := ops[..last];
      RefinesOps(p, s, m, boot, earlier);
      assert ValidOp(ops[last]);
      RefinesStep(p, RESERVED, ApplyOps(p, s, earlier), RememberOps(p, s, m, earlier), boot, AsCall(ops[last]));
    }
  }

  /** The writes of a step, and the barrier's state in which they begin. */
  datatype Writes = Writes(start: State, ops: seq<ClientOp>)

  ghost function InitWrites(p: Primitives, c: Core, config: SealConfig, input: InitInput): Option<Writes>
    requires |input.random| == |input.masterKey|
  {
    if Inited(c.barrier) || !Validate(config) || IssuedShares(config, input).Failure? then None
    else
      var b0 := c.barrier.(entries := c.barrier.entries[SEAL_CONFIG_PATH := p.encodeConfig(config)]);
      var b1 := InitStep(p, b0, input.masterKey, input.dataKey, input.nonce).0;
      Some(Writes(UnsealStep(p, b1, input.masterKey).0, input.setup.ops))
  }

  /** The master key that a submission lets the barrier try. */
  ghost function Tried(p: Primitives, c: Core, key: Bytes): Option<Bytes> {
    if !Inited(c.barrier) || !c.barrier.sealed || |key| < AES_BLOCK_SIZE || |key| > 2 * AES_BLOCK_SIZE + 1 then None
    else if StoredConfig(p, c.barrier).Failure? || key in c.pending then None
    else if |c.pending| + 1 < StoredConfig(p, c.barrier).value.secretThreshold then None
    else Recover(StoredConfig(p, c.barrier).value.secretThreshold, c.pending + [key])
  }

  ghost function StepWrites(p: Primitives, c: Core, step: Step): Option<Writes>
    requires ValidStep(step)
  {
    match step
    case DoInit(config, input) => InitWrites(p, c, config, input)
    case DoUnseal(key, post) =>
      if Tried(p, c, key).Some? && UnsealStep(p, c.barrier, Tried(p, c, key).value).1.Success?
      then Some(Writes(UnsealStep(p, c.barrier, Tried(p, c, key).value).0, post.ops))
      else None
    case DoSeal(pre) => if Inited(c.barrier) && !c.barrier.sealed then Some(Writes(c.barrier, pre.ops)) else None
    case DoRequest(ops) => if c.sealed then None else Some(Writes(c.barrier, ops))
  }

  ghost function StepMap(p: Primitives, c: Core, m: map<string, Bytes>, step: Step): map<string, Bytes>
    requires ValidStep(step)
  {
    match StepWrites(p, c, step)
    case None => m
    case Some(w) => RememberOps(p, w.start, m, w.ops)
  }

  ghost function StepBoot(c: Core, boot: Option<Credential>, step: Step): Option<Credential> {
    if step.DoInit? && !Inited(c.barrier) && Validate(step.config)
    then Some(Credential(step.input.masterKey, step.input.dataKey))
    else boot
  }

  /** A wrong master key that a submission lets the barrier try does not open the record. */
  ghost predicate KeyRefused(p: Primitives, c: Core, boot: Option<Credential>, step: Step) {
    step.DoUnseal? && Tried(p, c, step.key).Some? ==>
      Allowed(p, RESERVED, c.barrier, boot, Unseal(Tried(p, c, step.key).value))
  }

  lemma ConfigKeepsRefines(p: Primitives, s: State, value: Bytes)
    requires Refines(p, RESERVED, s, map[], None)
    ensures Refines(p, RESERVED, s.(entries := s.entries[SEAL_CONFIG_PATH := value]), map[], None)
  {}

  lemma InitRefines(p: Primitives, c: Core, config: SealConfig, input: InitInput)
    requires Lawful(p) && ValidInput(input, config) && Validate(config) && Refines(p, RESERVED, c.barrier, map[], None)
    ensures var m := match InitWrites(p, c, config, input) case None => map[] case Some(w) => RememberOps(p, w.start, map[], w.ops);
            Refines(p, RESERVED, InitCore(p, c, config, input).0.barrier, m,
                    Some(Credential(input.masterKey, input.dataKey)))
  {
    var cred := Credential(input.masterKey, input.dataKey);
    var b0 := c.barrier.(entries := c.barrier.entries[SEAL_CONFIG_PATH := p.encodeConfig(config)]);
    var (b1, inited) := InitStep(p, b0, input.masterKey, input.dataKey, input.nonce);
    ConfigKeepsRefines(p, c.barrier, p.encodeConfig(config));
    RefinesStep(p, RESERVED, b0, map[], None, Init(input.masterKey, input.dataKey, input.nonce));
    MasterKeyUnseals(p, b1, cred);
    var b2 := UnsealStep(p, b1, input.masterKey).0;
    assert Refines(p, RESERVED, b2, map[], Some(cred));
    RefinesOps(p, b2, map[], Some(cred), input.setup.ops);
    hide Lawful, ApplyOps, RememberOps, Refines, IssuedShares, InitStep, UnsealStep;
    RefinesStep(p, RESERVED, ApplyOps(p, b2, input.setup.ops), RememberOps(p, b2, map[], input.setup.ops), Some(cred), Seal);
  }

  lemma UnsealRefines(p: Primitives, c: Core, m: map<string, Bytes>, boot: Option<Credential>, key: Bytes, post: Hook)
    requires Lawful(p) && ValidOps(post.ops) && Refines(p, RESERVED, c.barrier, m, boot)
    requires KeyRefused(p, c, boot, DoUnseal(key, post))
    ensures Refines(p, RESERVED, UnsealCore(p, c, key, post).0.barrier, StepMap(p, c, m, DoUnseal(key, post)), boot)
  {
    hide Lawful, Refines, ApplyOps, RememberOps, Recover, StoredConfig;
    var tried := Tried(p, c, key);
    if tried.Some? {
      RefinesStep(p, RESERVED, c.barrier, m, boot, Unseal(tried.value));
      hide UnsealStep, Decrypt;
      RefinesOps(p, UnsealStep(p, c.barrier, tried.value).0, m, boot, post.ops);
    }
  }

  /** Every step of the vault keeps the barrier in step with its clients' map. */
  lemma VaultRefinesStep(p: Primitives, c: Core, m: map<string, Bytes>, boot: Option<Credential>, step: Step)
    requires Lawful(p) && ValidStep(step) && KeyRefused(p, c, boot, step) && Refines(p, RESERVED, c.barrier, m, boot)
    ensures Refines(p, RESERVED, Next(p, c, step).barrier, StepMap(p, c, m, step), StepBoot(c, boot, step))
  {
    NotInited(p, c, m, boot);
    hide Lawful, Refines, ApplyOps, RememberOps, UnsealCore, InitCore, IssuedShares;
    match step
    case DoInit(config, input) =>
      if !Inited(c.barrier) && Validate(config) {
        InitRefines(p, c, config, input);
      } else {
        InitRefused(p, c, config, input);
      }
    case DoUnseal(key, post) =>
      UnsealRefines(p, c, m, boot, key, post);
    case DoSeal(pre) =>
      RefinesOps(p, c.barrier, m, boot, pre.ops);
      RefinesStep(p, RESERVED, ApplyOps(p, c.barrier, pre.ops), RememberOps(p, c.barrier, m, pre.ops), boot, Seal);
    case DoRequest(ops) =>
      RefinesOps(p, c.barrier, m, boot, ops);
  }

  lemma NotInited(p: Primitives, c: Core, m: map<string, Bytes>, boot: Option<Credential>)
    requires Refines(p, RESERVED, c.barrier, m, boot)
    ensures !Inited(c.barrier) ==> boot == None && m == map[]
  {}

  lemma InitRefused(p: Primitives, c: Core, config: SealConfig, input: InitInput)
    requires ValidInput(input, config) && (Inited(c.barrier) || !Validate(config))
    ensures InitCore(p, c, config, input).0 == c
  {}

  ghost function VaultMap(p: Primitives, c: Core, steps: seq<Step>): map<string, Bytes>
    requires forall i | 0 <= i < |steps| :: ValidStep(steps[i])
  {
    if steps == [] then map[]
    else
      var earlier := steps[..|steps| - 1];
      StepMap(p, RunSteps(p, c, earlier), VaultMap(p, c, earlier), steps[|steps| - 1])
  }

  ghost function VaultBoot(p: Primitives, c: Core, steps: seq<Step>): Option<Credential>
    requires forall i | 0 <= i < |steps| :: ValidStep(steps[i])
  {
    if steps == [] then None
    else
      var earlier := steps[..|steps| - 1];
      StepBoot(RunSteps(p, c, earlier), VaultBoot(p, c, earlier), steps[|steps| - 1])
  }

  ghost predicate KeysRefused(p: Primitives, c: Core, steps: seq<Step>)
    requires forall i | 0 <= i < |steps| :: ValidStep(steps[i])
  {
    forall i | 0 <= i < |steps| ::
      KeyRefused(p, RunSteps(p, c, steps[..i]), VaultBoot(p, c, steps[..i]), steps[i])
  }

  lemma FewerRefused(p: Primitives, c: Core, steps: seq<Step>, n: nat)
    requires n <= |steps| && (forall i | 0 <= i < |steps| :: ValidStep(steps[i])) && KeysRefused(p, c, steps)
    ensures KeysRefused(p, c, steps[..n])
  {
    hide KeyRefused, ValidStep, RunSteps, VaultBoot;
    assert forall i | 0 <= i < n :: steps[..n][i] == steps[i] && steps[..n][..i] == steps[..i];
  }

  lemma {:induction false} VaultRefinesRun(p: Primitives, c: Core, steps: seq<Step>)
    requires Lawful(p) && forall i | 0 <= i < |steps| :: ValidStep(steps[i])
    requires Refines(p, RESERVED, c.barrier, map[], None) && KeysRefused(p, c, steps)
    ensures Refines(p, RESERVED, RunSteps(p, c, steps).barrier, VaultMap(p, c, steps), VaultBoot(p, c, steps))
  {
    hide Lawful, Refines, Next, StepMap, StepBoot, KeyRefused, ValidStep;
    if steps != [] {
      var last := |steps| - 1;
      var earlier := steps[..last];
      FewerRefused(p, c, steps, last);
      VaultRefinesRun(p, c, earlier);
      VaultRefinesStep(p, RunSteps(p, c, earlier), VaultMap(p, c, earlier), VaultBoot(p, c, earlier), steps[last]);
    }
  }

  /**
    Over any run of initialisations, submissions, seals and requests, an open vault shows
    its clients exactly the values they last put and did not delete, and a vault that
    reports unsealed is open.
    */
  lemma VaultIsAMap(p: Primitives, c: Core, steps: seq<Step>)
    requires Lawful(p) && Fresh(c) && (forall k | k in c.barrier.entries :: k in RESERVED)
    requires forall i | 0 <= i < |steps| :: ValidStep(steps[i])
    requires KeysRefused(p, c, steps)
    ensures var c' := RunSteps(p, c, steps);
            && ShowsMap(p, RESERVED, c'.barrier, VaultMap(p, c, steps))
            && (!c'.sealed ==> !c'.barrier.sealed)
  {
    EveryRunIsSafe(p, c, steps);
    VaultRefinesRun(p, c, steps);
    hide Lawful, Refines, RunSteps, VaultMap, VaultBoot, ShowsMap;
    RefinedReads(p, RESERVED, RunSteps(p, c, steps).barrier, VaultMap(p, c, steps), VaultBoot(p, c, steps));
  }

  /** The shares an `init` hands out, none if it fails. */
  ghost function HandedOut(p: Primitives, c: Core, config: SealConfig, input: InitInput): seq<Bytes>
    requires |input.random| == |input.masterKey|
  {
    match InitCore(p, c, config, input).1
    case Success(shares) => shares
    case Failure(_) => []
  }

  /** Some sequence of the shares handed out opens the barrier again. */
  ghost predicate CanBeOpened(p: Primitives, c: Core, config: SealConfig, input: InitInput, post: Hook)
    requires |input.random| == |input.masterKey|
  {
    exists keys: seq<Bytes> ::
      && (forall i | 0 <= i < |keys| :: keys[i] in HandedOut(p, c, config, input))
      && !Submit(p, InitCore(p, c, config, input).0, keys, post).barrier.sealed
  }

  lemma {:induction false} FirstsOfDifferent(keys: seq<Bytes>)
    requires Different(keys)
    ensures Firsts(keys) == keys
  {
    if keys != [] {
      var last := |keys| - 1;
      FirstsOfDifferent(keys[..last]);
      assert keys == keys[..last] + [keys[last]];
    }
  }

  lemma IssuedAreDifferent(config: SealConfig, input: InitInput)
    requires ValidInput(input, config) && Usable(config)
    ensures IssuedShares(config, input).Success?
    ensures |IssuedShares(config, input).value| == config.secretShares
    ensures Different(IssuedShares(config, input).value)
  {
    if config.secretShares != 1 {
      forall i, j | 0 <= i < j < config.secretShares
        ensures Shamir.Issued(input.masterKey, input.random, config.secretShares)[i] !=
                Shamir.Issued(input.masterKey, input.random, config.secretShares)[j]
      {
        Shamir.IssuedDistinct(input.masterKey, input.random, config.secretShares, i, j);
      }
    }
  }

  /** With threshold 0 no submission ever opens the barrier. */
  lemma {:induction false} ThresholdZeroStaysSealed(p: Primitives, c: Core, config: SealConfig,
                                                    keys: seq<Bytes>, post: Hook)
    requires StoredConfig(p, c.barrier) == Success(config) && config.secretThreshold == 0
    requires c.barrier.sealed && c.pending == []
    ensures Submit(p, c, keys, post) == c
  {
    if keys != [] {
      ThresholdZeroStaysSealed(p, c, config, keys[..|keys| - 1], post);
    }
  }

  /** What an unusable configuration hands out: nothing, or one share that threshold 0 ignores. */
  lemma UnusableShares(config: SealConfig, input: InitInput)
    requires ValidInput(input, config) && Validate(config) && !Usable(config)
    ensures config.secretThreshold != 0 ==>
              IssuedShares(config, input).Failure? || IssuedShares(config, input).value == []
  {}

  lemma HandedOutAre(p: Primitives, c: Core, config: SealConfig, input: InitInput)
    requires Lawful(p) && Fresh(c) && Validate(config) && ValidInput(input, config)
    ensures HandedOut(p, c, config, input) ==
              if IssuedShares(config, input).Success? && input.setup.ok then IssuedShares(config, input).value else []
    ensures var c' := InitCore(p, c, config, input).0;
            && Installed(p, c', Credential(input.masterKey, input.dataKey), config)
            && c'.barrier.sealed && c'.pending == []
  {
    hide IssuedShares, InitCore, Lawful, Boots, StoredConfig;
    InitOutcome(p, c, config, input);
  }

  lemma UsableCanBeOpened(p: Primitives, c: Core, config: SealConfig, input: InitInput, post: Hook)
    requires Lawful(p) && Fresh(c) && Validate(config) && ValidInput(input, config) && input.setup.ok
    requires post.ok && ValidOps(post.ops) && Usable(config)
    ensures CanBeOpened(p, c, config, input, post)
  {
    hide IssuedShares, Lawful, UnsealCore, InitCore, HandedOut, Installed, Firsts;
    HandedOutAre(p, c, config, input);
    IssuedAreDifferent(config, input);
    var c' := InitCore(p, c, config, input).0;
    var shares := HandedOut(p, c, config, input);
    var n := config.secretThreshold - 1;
    var keys := shares[..n + 1];
    assert keys[..n] == shares[..n];
    FirstsOfDifferent(shares[..n]);
    InitThenUnseal(p, c', config, input, shares[..n], shares[n], post);
    assert !Submit(p, c', keys, post).barrier.sealed;
  }

  lemma UnusableStaysSealed(p: Primitives, c: Core, config: SealConfig, input: InitInput,
                            keys: seq<Bytes>, post: Hook)
    requires Lawful(p) && Fresh(c) && Validate(config) && ValidInput(input, config)
    requires !Usable(config) || !input.setup.ok
    requires forall i | 0 <= i < |keys| :: keys[i] in HandedOut(p, c, config, input)
    ensures Submit(p, InitCore(p, c, config, input).0, keys, post).barrier.sealed
  {
    HandedOutAre(p, c, config, input);
    if !Usable(config) {
      UnusableShares(config, input);
    }
    hide IssuedShares, Lawful, UnsealCore, InitCore, HandedOut, ValidInput, StoredConfig, Boots;
    if config.secretThreshold == 0 {
      ThresholdZeroStaysSealed(p, InitCore(p, c, config, input).0, config, keys, post);
    }
  }

  /**
    For every configuration that passes validation: the shares that `init` hands out can
    open the vault again if and only if the configuration is usable and the setup of
    modules succeeded. Otherwise the master key is lost.
    */
  lemma OpenableExactlyIfUsable(p: Primitives, c: Core, config: SealConfig, input: InitInput, post: Hook)
    requires Lawful(p) && Fresh(c) && Validate(config) && ValidInput(input, config)
    requires post.ok && ValidOps(post.ops)
    ensures CanBeOpened(p, c, config, input, post) <==> Usable(config) && input.setup.ok
  {
    hide Lawful, Submit, InitCore, HandedOut, Usable;
    if Usable(config) && input.setup.ok {
      UsableCanBeOpened(p, c, config, input, post);
    } else {
      forall keys: seq<Bytes> | forall i | 0 <= i < |keys| :: keys[i] in HandedOut(p, c, config, input)
        ensures Submit(p, InitCore(p, c, config, input).0, keys, post).barrier.sealed
      {
        UnusableStaysSealed(p, c, config, input, keys, post);
      }
    }
  }

  /**
    One share with threshold 0 passes validation, init succeeds and hands out the master
    key, and the vault ignores it: whatever is submitted, however often, it stays sealed.
    */
  lemma OneShareThresholdZero(p: Primitives, c: Core, input: InitInput, keys: seq<Bytes>, post: Hook)
    requires Lawful(p) && Fresh(c) && ValidInput(input, SealConfig(1, 0)) && input.setup.ok
    ensures var (c', r) := InitCore(p, c, SealConfig(1, 0), input);
            && r == Success([input.masterKey])
            && Submit(p, c', keys, post) == c' && c'.barrier.sealed
  {
    var config := SealConfig(1, 0);
    HandedOutAre(p, c, config, input);
    InitOutcome(p, c, config, input);
    assert IssuedShares(config, input) == Success([input.masterKey]);
    hide IssuedShares, Lawful, UnsealCore, InitCore, HandedOut, ValidInput, Boots;
    ThresholdZeroStaysSealed(p, InitCore(p, c, config, input).0, config, keys, post);
  }

  /** Threshold 0 is no empty case: there are random inputs for it. */
  lemma ThresholdZeroHasInputs() returns (input: InitInput)
    ensures ValidInput(input, SealConfig(1, 0)) && input.setup.ok
  {
    var key := seq(KEY_SIZE, i => 0);
    input := InitInput(key, key, seq(IV_SIZE, i => 0), seq(KEY_SIZE, i => []), Hook([], true), true);
  }
}
