/**
  The encrypting barrier of `src/storage/barrier_aes_gcm.rs`: byte framing, key handling
  and the storage calls, and the proof that it is a plain key-value map to its clients.
  Failures of the physical backend are left out; it is a map.
  */
module Barrier {
  import opened Wrappers
  import opened Platform
  import Sorting
  import Views

  const BARRIER_INIT_PATH := "barrier/init"

  const HEADER_SIZE := 5
  const KEY_EPOCH: bv8 := 1
  const AES_GCM_VERSION1: bv8 := 1
  const AES_GCM_VERSION2: bv8 := 2
  /** AES in Galois/counter mode is a stream cipher to OpenSSL. */
  const BLOCK_SIZE := 1
  const AES_BLOCK_SIZE := 16

  // ---- Framing.

  /** Epoch, version, nonce, ciphertext and tag. Version 1 does not bind the path. */
  function Framed(p: Primitives, version: bv8, key: Bytes, path: string, nonce: Bytes, plain: Bytes): Bytes {
    var (c, t) := p.seal(key, nonce, if version == AES_GCM_VERSION2 then path else "", plain);
    [0, 0, 0, KEY_EPOCH, version] + nonce + c + t
  }

  function EncryptResult(p: Primitives, key: Option<Bytes>, path: string, nonce: Bytes, plain: Bytes)
    : Result<Bytes, RvError>
  {
    if key.None? then Failure(ErrBarrierNotInit)
    else if |key.value| != KEY_SIZE then Failure(ErrOpenSsl)
    else Success(Framed(p, AES_GCM_VERSION2, key.value, path, nonce, plain))
  }

  method Encrypt(p: Primitives, key: Option<Bytes>, path: string, nonce: Bytes, plain: Bytes)
    returns (r: Result<Bytes, RvError>)
    requires Lawful(p) && |nonce| == IV_SIZE
    ensures r == EncryptResult(p, key, path, nonce, plain)
    ensures r.Success? <==> key.Some? && |key.value| == KEY_SIZE
    ensures r.Success? ==>
              && |r.value| >= 17 && r.value[..5] == [0, 0, 0, 1, 2] && r.value[5..17] == nonce
              && r.value[17..] == p.seal(key.value, nonce, path, plain).0 + p.seal(key.value, nonce, path, plain).1
  {
    if key.Some? {
      FramedBytes(p, AES_GCM_VERSION2, key.value, path, nonce, plain);
    }
    if key.None? {
      return Failure(ErrBarrierNotInit);
    }
    var size := HEADER_SIZE + IV_SIZE + |plain| + TAG_SIZE;
    var out := new bv8[size + BLOCK_SIZE](_ => 0);
    out[3] := KEY_EPOCH;
    out[4] := AES_GCM_VERSION2;
    assert out[..HEADER_SIZE] == [0, 0, 0, KEY_EPOCH, AES_GCM_VERSION2];
    CopyInto(out, HEADER_SIZE, nonce);
    if |key.value| != KEY_SIZE {
      return Failure(ErrOpenSsl);
    }
    var (c, t) := p.seal(key.value, nonce, path, plain);
    var count := |c|;
    CopyInto(out, HEADER_SIZE + IV_SIZE, c);
    CopyInto(out, HEADER_SIZE + IV_SIZE + count, t);
    return Success(out[..HEADER_SIZE + IV_SIZE + count + TAG_SIZE]);
  }

  /** Extend the filled front part of a buffer. */
  method CopyInto(out: array<bv8>, at: nat, bytes: Bytes)
    requires at + |bytes| <= out.Length
    modifies out
    ensures out[..at + |bytes|] == old(out[..at]) + bytes
  {
    forall i | 0 <= i < |bytes| {
      out[at + i] := bytes[i];
    }
    assert out[..at] == old(out[..at]);
    assert out[at..at + |bytes|] == bytes;
    assert out[..at + |bytes|] == out[..at] + out[at..at + |bytes|];
  }

  /** The first four bytes compare one by one, so a short input can still be refused. */
  function EpochCheck(blob: Bytes): Option<RvError> {
    if |blob| < 1 then Some(Panic) else if blob[0] != 0 then Some(ErrBarrierEpochMismatch)
    else if |blob| < 2 then Some(Panic) else if blob[1] != 0 then Some(ErrBarrierEpochMismatch)
    else if |blob| < 3 then Some(Panic) else if blob[2] != 0 then Some(ErrBarrierEpochMismatch)
    else if |blob| < 4 then Some(Panic) else if blob[3] != KEY_EPOCH then Some(ErrBarrierEpochMismatch)
    else None
  }

  function Decrypt(p: Primitives, key: Option<Bytes>, path: string, blob: Bytes): Result<Bytes, RvError> {
    if key.None? then
      Failure(ErrBarrierNotInit)
    else if EpochCheck(blob).Some? then
      Failure(EpochCheck(blob).value)
    else if |blob| < HEADER_SIZE + IV_SIZE then
      Failure(Panic)
    else if |key.value| != KEY_SIZE then
      Failure(ErrOpenSsl)
    else if blob[4] != AES_GCM_VERSION1 && blob[4] != AES_GCM_VERSION2 then
      Failure(ErrBarrierVersionMismatch)
    else if |blob| < HEADER_SIZE + IV_SIZE + TAG_SIZE then
      Failure(Panic)
    else
      var iv := blob[HEADER_SIZE..HEADER_SIZE + IV_SIZE];
      var raw := blob[HEADER_SIZE + IV_SIZE..|blob| - TAG_SIZE];
      var tag := blob[|blob| - TAG_SIZE..];
      match p.open(key.value, iv, if blob[4] == AES_GCM_VERSION2 then path else "", raw, tag)
      case Some(plain) => Success(plain)
      case None => Failure(ErrOpenSsl)
  }

  /**
    Decryption is the exact inverse of framing: a blob decrypts to a plaintext if and
    only if it is that plaintext's frame, under this key and, in version 2, this path.
    */
  lemma DecryptInvertsFraming(p: Primitives, key: Bytes, path: string, blob: Bytes, plain: Bytes)
    requires Lawful(p)
    ensures Decrypt(p, Some(key), path, blob) == Success(plain) <==>
            |key| == KEY_SIZE && exists version, nonce ::
              && (version == AES_GCM_VERSION1 || version == AES_GCM_VERSION2)
              && |nonce| == IV_SIZE
              && blob == Framed(p, version, key, path, nonce, plain)
  {
    if Decrypt(p, Some(key), path, blob) == Success(plain) {
      var nonce := blob[HEADER_SIZE..HEADER_SIZE + IV_SIZE];
      var rest := blob[HEADER_SIZE + IV_SIZE..];
      assert rest == blob[HEADER_SIZE + IV_SIZE..|blob| - TAG_SIZE] + blob[|blob| - TAG_SIZE..];
      assert blob[..HEADER_SIZE] == [0, 0, 0, KEY_EPOCH, blob[4]];
      assert blob == blob[..HEADER_SIZE] + nonce + rest;
      assert blob == Framed(p, blob[4], key, path, nonce, plain);
    }
    if |key| == KEY_SIZE {
      forall version, nonce |
        && (version == AES_GCM_VERSION1 || version == AES_GCM_VERSION2)
        && |nonce| == IV_SIZE
        && blob == Framed(p, version, key, path, nonce, plain)
        ensures Decrypt(p, Some(key), path, blob) == Success(plain)
      {
        DecryptFramed(p, version, key, path, nonce, plain);
      }
    }
  }

  lemma DecryptFramed(p: Primitives, version: bv8, key: Bytes, path: string, nonce: Bytes, plain: Bytes)
    requires Lawful(p) && |key| == KEY_SIZE && |nonce| == IV_SIZE
    requires version == AES_GCM_VERSION1 || version == AES_GCM_VERSION2
    ensures Decrypt(p, Some(key), path, Framed(p, version, key, path, nonce, plain)) == Success(plain)
  {
    hide Decrypt, Framed;
    DecryptOther(p, version, key, path, key, path, nonce, plain);
  }

  /** The bytes of a frame: epoch, version, nonce, and what the cipher makes of the plaintext. */
  lemma FramedBytes(p: Primitives, version: bv8, key: Bytes, path: string, nonce: Bytes, plain: Bytes)
    requires |nonce| == IV_SIZE
    ensures var blob := Framed(p, version, key, path, nonce, plain);
            var bound := p.seal(key, nonce, path, plain);
            var unbound := p.seal(key, nonce, "", plain);
            && |blob| >= 17 && blob[..5] == [0, 0, 0, 1, version] && blob[5..17] == nonce
            && (version == 2 ==> blob[17..] == bound.0 + bound.1)
            && (version != 2 ==> blob[17..] == unbound.0 + unbound.1)
  {
    var blob := Framed(p, version, key, path, nonce, plain);
    var (c, t) := p.seal(key, nonce, if version == 2 then path else "", plain);
    assert blob == ([0, 0, 0, 1, version] + nonce) + (c + t);
    assert blob[..5] == [0, 0, 0, 1, version];
  }

  /** What is refused before the cipher is asked, in the order of the checks. */
  lemma DecryptRefusals(p: Primitives, key: Option<Bytes>, path: string, blob: Bytes)
    ensures key.None? ==> Decrypt(p, key, path, blob) == Failure(ErrBarrierNotInit)
    ensures key.Some? && |blob| >= 4 && blob[..4] != [0, 0, 0, 1] ==>
              Decrypt(p, key, path, blob) == Failure(ErrBarrierEpochMismatch)
    ensures key.Some? && |blob| >= 17 && blob[..4] == [0, 0, 0, 1] ==>
              && (|key.value| != 32 ==> Decrypt(p, key, path, blob) == Failure(ErrOpenSsl))
              && (|key.value| == 32 && blob[4] != 1 && blob[4] != 2 ==>
                    Decrypt(p, key, path, blob) == Failure(ErrBarrierVersionMismatch))
  {
    if |blob| >= 4 {
      assert blob[..4] == [blob[0], blob[1], blob[2], blob[3]];
    }
  }

  /** Decrypting a frame under some key and path asks the cipher about exactly them. */
  lemma DecryptOther(p: Primitives, version: bv8, key: Bytes, path: string, key': Bytes, path': string, nonce: Bytes,
                     plain: Bytes)
    requires Lawful(p) && |key| == |key'| == KEY_SIZE && |nonce| == IV_SIZE
    requires version == AES_GCM_VERSION1 || version == AES_GCM_VERSION2
    ensures var bound := version == 2;
            var sealed := p.seal(key, nonce, if bound then path else "", plain);
            var answer := p.open(key', nonce, if bound then path' else "", sealed.0, sealed.1);
            Decrypt(p, Some(key'), path', Framed(p, version, key, path, nonce, plain)) ==
              if answer.Some? then Success(answer.value) else Failure(ErrOpenSsl)
  {
    var blob := Framed(p, version, key, path, nonce, plain);
    var sealed := p.seal(key, nonce, if version == 2 then path else "", plain);
    var c, t := sealed.0, sealed.1;
    assert blob[..HEADER_SIZE] == [0, 0, 0, KEY_EPOCH, version];
    assert blob[0] == 0 && blob[1] == 0 && blob[2] == 0 && blob[3] == KEY_EPOCH && blob[4] == version;
    assert blob[HEADER_SIZE..HEADER_SIZE + IV_SIZE] == nonce;
    assert blob[HEADER_SIZE + IV_SIZE..|blob| - TAG_SIZE] == c;
    assert blob[|blob| - TAG_SIZE..] == t;
  }

  /**
    The path is bound in version 2 and not in version 1: a frame made for one path opens
    for another exactly if the cipher accepts the other as additional data, and an old
    frame opens for any path.
    */
  lemma PathIsBound(p: Primitives, key: Bytes, path: string, other: string, nonce: Bytes, plain: Bytes)
    requires Lawful(p) && |key| == KEY_SIZE && |nonce| == IV_SIZE
    ensures var sealed := p.seal(key, nonce, path, plain);
            Decrypt(p, Some(key), other, EncryptResult(p, Some(key), path, nonce, plain).value).Failure? <==>
              p.open(key, nonce, other, sealed.0, sealed.1).None?
    ensures Decrypt(p, Some(key), other, Framed(p, 1, key, path, nonce, plain)) == Success(plain)
  {
    hide Decrypt, Framed;
    DecryptOther(p, AES_GCM_VERSION2, key, path, key, other, nonce, plain);
    DecryptOther(p, AES_GCM_VERSION1, key, path, key, other, nonce, plain);
  }

  /** With a cipher that tells the paths apart, what was encrypted for one fails for the others. */
  lemma OtherPathsFail(p: Primitives, paths: set<string>, key: Bytes, path: string, other: string, nonce: Bytes,
                       plain: Bytes)
    requires Lawful(p) && RefusesOtherData(p, paths) && path in paths && other in paths && path != other
    requires |key| == KEY_SIZE && |nonce| == IV_SIZE
    ensures Decrypt(p, Some(key), other, EncryptResult(p, Some(key), path, nonce, plain).value) == Failure(ErrOpenSsl)
  {
    hide Decrypt, Framed;
    DecryptOther(p, AES_GCM_VERSION2, key, path, key, other, nonce, plain);
  }

  // ---- The barrier as a state machine.

  datatype State = State(entries: map<string, Bytes>, sealed: bool, key: Option<Bytes>)

  predicate Inited(s: State) {
    BARRIER_INIT_PATH in s.entries
  }

  function InitStep(p: Primitives, s: State, kek: Bytes, dataKey: Bytes, nonce: Bytes): (State, Result<(), RvError>) {
    if |kek| < AES_BLOCK_SIZE || |kek| > 2 * AES_BLOCK_SIZE then
      (s, Failure(ErrBarrierKeyInvalid))
    else if Inited(s) then
      (s, Failure(ErrBarrierAlreadyInit))
    else
      match EncryptResult(p, Some(kek), BARRIER_INIT_PATH, nonce, p.encodeInit(BarrierInit(1, dataKey)))
      case Failure(e) => (s.(key := Some(kek)), Failure(e))
      case Success(v) => (s.(entries := s.entries[BARRIER_INIT_PATH := v], key := None), Success(()))
  }

  function UnsealStep(p: Primitives, s: State, kek: Bytes): (State, Result<(), RvError>) {
    if !s.sealed then
      (s, Success(()))
    else if !Inited(s) then
      (s, Failure(ErrBarrierNotInit))
    else
      var tried := s.(key := Some(kek));
      match Decrypt(p, Some(kek), BARRIER_INIT_PATH, s.entries[BARRIER_INIT_PATH])
      case Failure(e) => (tried, Failure(if e == Panic then Panic else ErrBarrierUnsealFailed))
      case Success(plain) =>
        match p.decodeInit(plain)
        case None => (tried, Failure(ErrSerde))
        case Some(record) => (s.(sealed := false, key := Some(record.key)), Success(()))
  }

  function SealStep(s: State): State {
    s.(sealed := true, key := None)
  }

  function GetStep(p: Primitives, s: State, path: string): Result<Option<Bytes>, RvError> {
    if s.sealed then Failure(ErrBarrierSealed)
    else if path !in s.entries then Success(None)
    else
      match Decrypt(p, s.key, path, s.entries[path])
      case Failure(e) => Failure(e)
      case Success(plain) => Success(Some(plain))
  }

  function PutStep(p: Primitives, s: State, path: string, value: Bytes, nonce: Bytes): (State, Result<(), RvError>) {
    if s.sealed then (s, Failure(ErrBarrierSealed))
    else
      match EncryptResult(p, s.key, path, nonce, value)
      case Failure(e) => (s, Failure(e))
      case Success(v) => (s.(entries := s.entries[path := v]), Success(()))
  }

  function DeleteStep(s: State, path: string): (State, Result<(), RvError>) {
    if s.sealed then (s, Failure(ErrBarrierSealed))
    else (s.(entries := s.entries - {path}), Success(()))
  }

  function ListStep(s: State, prefix: string): Result<set<string>, RvError> {
    if s.sealed then Failure(ErrBarrierSealed) else Success(Views.Names(s.entries.Keys, prefix))
  }

  /** `AESGCMBarrier` with the physical backend it writes to. */
  class AesGcmBarrier {
    const primitives: Primitives
    var entries: map<string, Bytes>
    var sealed: bool
    var key: Option<Bytes>

    constructor (primitives: Primitives, entries: map<string, Bytes>)
      ensures this.primitives == primitives && Now() == State(entries, true, None)
    {
      this.primitives := primitives;
      this.entries := entries;
      sealed := true;
      key := None;
    }

    ghost function Now(): State
      reads this
    {
      State(entries, sealed, key)
    }

    method Init(kek: Bytes, dataKey: Bytes, nonce: Bytes) returns (r: Result<(), RvError>)
      requires Lawful(primitives) && |nonce| == IV_SIZE
      modifies this
      ensures (Now(), r) == InitStep(primitives, old(Now()), kek, dataKey, nonce)
    {
      if |kek| < AES_BLOCK_SIZE || |kek| > 2 * AES_BLOCK_SIZE {
        return Failure(ErrBarrierKeyInvalid);
      }
      if BARRIER_INIT_PATH in entries {
        return Failure(ErrBarrierAlreadyInit);
      }
      var record := primitives.encodeInit(BarrierInit(1, dataKey));
      key := Some(kek);
      var value := Encrypt(primitives, key, BARRIER_INIT_PATH, nonce, record);
      if value.Failure? {
        return Failure(value.error);
      }
      entries := entries[BARRIER_INIT_PATH := value.value];
      key := None;
      return Success(());
    }

    method Unseal(kek: Bytes) returns (r: Result<(), RvError>)
      modifies this
      ensures (Now(), r) == UnsealStep(primitives, old(Now()), kek)
    {
      if !sealed {
        return Success(());
      }
      if BARRIER_INIT_PATH !in entries {
        return Failure(ErrBarrierNotInit);
      }
      key := Some(kek);
      var value := Decrypt(primitives, key, BARRIER_INIT_PATH, entries[BARRIER_INIT_PATH]);
      if value.Failure? {
        return Failure(if value.error == Panic then Panic else ErrBarrierUnsealFailed);
      }
      var record := primitives.decodeInit(value.value);
      if record.None? {
        return Failure(ErrSerde);
      }
      key := Some(record.value.key);
      sealed := false;
      return Success(());
    }

    method Seal()
      modifies this
      ensures Now() == SealStep(old(Now()))
    {
      key := None;
      sealed := true;
    }

    method List(prefix: string) returns (r: Result<seq<string>, RvError>)
      ensures match ListStep(Now(), prefix)
              case Failure(e) => r == Failure(e)
              case Success(names) =>
                r.Success? && Sorting.StrictlySorted(r.value) && forall n :: n in r.value <==> n in names
    {
      if sealed {
        return Failure(ErrBarrierSealed);
      }
      var names := Views.SortedNames(entries.Keys, prefix);
      return Success(names);
    }

    method Get(path: string) returns (r: Result<Option<Bytes>, RvError>)
      ensures r == GetStep(primitives, Now(), path)
    {
      if sealed {
        return Failure(ErrBarrierSealed);
      }
      if path !in entries {
        return Success(None);
      }
      var plain := Decrypt(primitives, key, path, entries[path]);
      if plain.Failure? {
        return Failure(plain.error);
      }
      return Success(Some(plain.value));
    }

    method Put(path: string, value: Bytes, nonce: Bytes) returns (r: Result<(), RvError>)
      requires Lawful(primitives) && |nonce| == IV_SIZE
      modifies this
      ensures (Now(), r) == PutStep(primitives, old(Now()), path, value, nonce)
    {
      if sealed {
        return Failure(ErrBarrierSealed);
      }
      var ciphertext := Encrypt(primitives, key, path, nonce, value);
      if ciphertext.Failure? {
        return Failure(ciphertext.error);
      }
      entries := entries[path := ciphertext.value];
      return Success(());
    }

    method Delete(path: string) returns (r: Result<(), RvError>)
      modifies this
      ensures (Now(), r) == DeleteStep(old(Now()), path)
    {
      if sealed {
        return Failure(ErrBarrierSealed);
      }
      entries := entries - {path};
      return Success(());
    }
  }

  // ---- Refinement of a key-value map.

  datatype Call =
    | Init(kek: Bytes, dataKey: Bytes, nonce: Bytes)
    | Unseal(kek: Bytes)
    | Seal
    | Put(path: string, value: Bytes, nonce: Bytes)
    | Delete(path: string)
    | Get(path: string)
    | List(prefix: string)

  function Apply(p: Primitives, s: State, call: Call): State {
    match call
    case Init(kek, dataKey, nonce) => InitStep(p, s, kek, dataKey, nonce).0
    case Unseal(kek) => UnsealStep(p, s, kek).0
    case Seal => SealStep(s)
    case Put(path, value, nonce) => PutStep(p, s, path, value, nonce).0
    case Delete(path) => DeleteStep(s, path).0
    case Get(_) => s
    case List(_) => s
  }

  /** The map a client remembers: what it put, and did not delete, while unsealed. */
  function Remember(s: State, m: map<string, Bytes>, call: Call): map<string, Bytes> {
    if s.sealed then m
    else
      match call
      case Put(path, value, _) => m[path := value]
      case Delete(path) => m - {path}
      case _ => m
  }

  function Run(p: Primitives, s: State, calls: seq<Call>): State {
    if calls == [] then s else Apply(p, Run(p, s, calls[..|calls| - 1]), calls[|calls| - 1])
  }

  function RunMap(p: Primitives, s: State, calls: seq<Call>): map<string, Bytes> {
    if calls == [] then map[]
    else
      var earlier := calls[..|calls| - 1];
      Remember(Run(p, s, earlier), RunMap(p, s, earlier), calls[|calls| - 1])
  }

  datatype Credential = Credential(kek: Bytes, dataKey: Bytes)

  ghost predicate Stored(p: Primitives, key: Bytes, path: string, plain: Bytes, blob: Bytes) {
    exists nonce :: |nonce| == IV_SIZE && blob == Framed(p, AES_GCM_VERSION2, key, path, nonce, plain)
  }

  /** The record under `barrier/init` holds the data key for the holder of the kek. */
  ghost predicate Boots(p: Primitives, entries: map<string, Bytes>, c: Credential) {
    && |c.kek| == KEY_SIZE && |c.dataKey| == KEY_SIZE
    && BARRIER_INIT_PATH in entries
    && Stored(p, c.kek, BARRIER_INIT_PATH, p.encodeInit(BarrierInit(1, c.dataKey)), entries[BARRIER_INIT_PATH])
  }

  /** The credential of the init that succeeded in a run. */
  function NextBoot(p: Primitives, s: State, boot: Option<Credential>, call: Call): Option<Credential> {
    if call.Init? && InitStep(p, s, call.kek, call.dataKey, call.nonce).1.Success?
    then Some(Credential(call.kek, call.dataKey))
    else boot
  }

  function RunBoot(p: Primitives, s: State, calls: seq<Call>): Option<Credential> {
    if calls == [] then None
    else
      var earlier := calls[..|calls| - 1];
      NextBoot(p, Run(p, s, earlier), RunBoot(p, s, earlier), calls[|calls| - 1])
  }

  /**
    Clients keep away from the reserved paths, random bytes have their lengths, and a
    wrong key that is tried in fact does not open the stored record.
    */
  ghost predicate Allowed(p: Primitives, reserved: set<string>, s: State, boot: Option<Credential>, call: Call) {
    match call
    case Put(path, _, nonce) => path !in reserved && |nonce| == IV_SIZE
    case Delete(path) => path !in reserved
    case Init(_, dataKey, nonce) => |dataKey| == KEY_SIZE && |nonce| == IV_SIZE
    case Unseal(kek) =>
      boot.Some? && kek != boot.value.kek && Inited(s) ==>
        Decrypt(p, Some(kek), BARRIER_INIT_PATH, s.entries[BARRIER_INIT_PATH]).Failure?
    case _ => true
  }

  ghost predicate AllowedRun(p: Primitives, reserved: set<string>, s: State, calls: seq<Call>) {
    forall i | 0 <= i < |calls| ::
      Allowed(p, reserved, Run(p, s, calls[..i]), RunBoot(p, s, calls[..i]), calls[i])
  }

  /** Every client entry is the frame of the remembered value under the data key. */
  ghost predicate Holds(p: Primitives, reserved: set<string>, entries: map<string, Bytes>, dataKey: Bytes,
                        m: map<string, Bytes>)
  {
    && (forall k | k in m :: k !in reserved)
    && forall k | k !in reserved ::
         (k in entries <==> k in m) && (k in m ==> Stored(p, dataKey, k, m[k], entries[k]))
  }

  ghost predicate Refines(p: Primitives, reserved: set<string>, s: State, m: map<string, Bytes>,
                          boot: Option<Credential>)
  {
    match boot
    case None => s.sealed && !Inited(s) && m == map[] && forall k | k in s.entries :: k in reserved
    case Some(c) =>
      && Boots(p, s.entries, c)
      && Holds(p, reserved, s.entries, c.dataKey, m)
      && (!s.sealed ==> s.key == Some(c.dataKey))
  }

  /** The master key opens the barrier and yields the data key written at init. */
  lemma MasterKeyUnseals(p: Primitives, s: State, c: Credential)
    requires Lawful(p) && Boots(p, s.entries, c) && s.sealed
    ensures UnsealStep(p, s, c.kek) == (s.(sealed := false, key := Some(c.dataKey)), Success(()))
  {
    hide Decrypt, Framed;
    var plain := p.encodeInit(BarrierInit(1, c.dataKey));
    var nonce :| |nonce| == IV_SIZE &&
      s.entries[BARRIER_INIT_PATH] == Framed(p, AES_GCM_VERSION2, c.kek, BARRIER_INIT_PATH, nonce, plain);
    DecryptFramed(p, AES_GCM_VERSION2, c.kek, BARRIER_INIT_PATH, nonce, plain);
  }

  lemma RefinesStep(p: Primitives, reserved: set<string>, s: State, m: map<string, Bytes>, boot: Option<Credential>,
                    call: Call)
    requires Lawful(p) && BARRIER_INIT_PATH in reserved
    requires Allowed(p, reserved, s, boot, call) && Refines(p, reserved, s, m, boot)
    ensures Refines(p, reserved, Apply(p, s, call), Remember(s, m, call), NextBoot(p, s, boot, call))
  {
    hide Decrypt, Framed;
    match call
    case Init(kek, dataKey, nonce) =>
      if InitStep(p, s, kek, dataKey, nonce).1.Success? {
        var s' := Apply(p, s, call);
        assert Stored(p, kek, BARRIER_INIT_PATH, p.encodeInit(BarrierInit(1, dataKey)), s'.entries[BARRIER_INIT_PATH]);
      }
    case Unseal(kek) =>
      if s.sealed && boot.Some? && kek == boot.value.kek {
        MasterKeyUnseals(p, s, boot.value);
      }
    case Put(path, value, nonce) =>
      if !s.sealed {
        assert Stored(p, boot.value.dataKey, path, value, Apply(p, s, call).entries[path]);
      }
    case _ =>
  }

  lemma {:induction false} RefinesRun(p: Primitives, reserved: set<string>, s: State, calls: seq<Call>)
    requires Lawful(p) && BARRIER_INIT_PATH in reserved
    requires Refines(p, reserved, s, map[], None) && AllowedRun(p, reserved, s, calls)
    ensures Refines(p, reserved, Run(p, s, calls), RunMap(p, s, calls), RunBoot(p, s, calls))
  {
    hide Refines, Allowed, Apply, Remember, NextBoot;
    if calls != [] {
      var last := |calls| - 1;
      var earlier := calls[..last];
      assert forall i | 0 <= i < last :: earlier[i] == calls[i] && earlier[..i] == calls[..i];
      RefinesRun(p, reserved, s, earlier);
      RefinesStep(p, reserved, Run(p, s, earlier), RunMap(p, s, earlier), RunBoot(p, s, earlier), calls[last]);
    }
  }

  /** What a client can see of a barrier is a given map. */
  ghost predicate ShowsMap(p: Primitives, reserved: set<string>, s: State, m: map<string, Bytes>) {
    if s.sealed then
      forall path :: GetStep(p, s, path) == Failure(ErrBarrierSealed) && ListStep(s, path) == Failure(ErrBarrierSealed)
    else
      && (forall path | path !in reserved ::
            GetStep(p, s, path) == Success(if path in m then Some(m[path]) else None))
      && m.Keys == s.entries.Keys - reserved
      && forall d :: ListStep(s, d) == Success(Views.Names(m.Keys + (s.entries.Keys * reserved), d))
  }

  lemma RefinedReads(p: Primitives, reserved: set<string>, s: State, m: map<string, Bytes>, boot: Option<Credential>)
    requires Lawful(p) && Refines(p, reserved, s, m, boot)
    ensures ShowsMap(p, reserved, s, m)
  {
    hide Decrypt, Framed;
    if !s.sealed {
      assert m.Keys + (s.entries.Keys * reserved) == s.entries.Keys;
      forall path | path !in reserved
        ensures GetStep(p, s, path) == Success(if path in m then Some(m[path]) else None)
      {
        if path in m {
          var nonce :| |nonce| == IV_SIZE &&
            s.entries[path] == Framed(p, AES_GCM_VERSION2, boot.value.dataKey, path, nonce, m[path]);
          DecryptFramed(p, AES_GCM_VERSION2, boot.value.dataKey, path, nonce, m[path]);
        }
      }
    }
  }

  /**
    Over any number of seal and unseal cycles, an unsealed barrier answers a read with
    the value last put and not deleted at that path, and lists exactly the paths that hold
    one, besides the reserved paths; a sealed one refuses both. The reserved paths are any
    set with `barrier/init` in it, and all that the backend holds at the start.
    */
  lemma BarrierIsAMap(p: Primitives, reserved: set<string>, s: State, calls: seq<Call>)
    requires Lawful(p) && BARRIER_INIT_PATH in reserved
    requires s.sealed && !Inited(s) && forall k | k in s.entries :: k in reserved
    requires AllowedRun(p, reserved, s, calls)
    ensures ShowsMap(p, reserved, Run(p, s, calls), RunMap(p, s, calls))
  {
    RefinesRun(p, reserved, s, calls);
    RefinedReads(p, reserved, Run(p, s, calls), RunMap(p, s, calls), RunBoot(p, s, calls));
  }

  /** What a storage call answers, if it is one. */
  function StorageError(p: Primitives, s: State, call: Call): Option<RvError> {
    match call
    case Get(path) => if GetStep(p, s, path).Failure? then Some(GetStep(p, s, path).error) else None
    case List(prefix) => if ListStep(s, prefix).Failure? then Some(ListStep(s, prefix).error) else None
    case Put(path, value, nonce) =>
      var r := PutStep(p, s, path, value, nonce).1;
      if r.Failure? then Some(r.error) else None
    case Delete(path) => if DeleteStep(s, path).1.Failure? then Some(DeleteStep(s, path).1.error) else None
    case _ => None
  }

  lemma SealedCall(p: Primitives, s: State, call: Call)
    requires s.sealed && (call.Get? || call.List? || call.Put? || call.Delete?)
    ensures Apply(p, s, call) == s && StorageError(p, s, call) == Some(ErrBarrierSealed)
  {
    hide Decrypt, EncryptResult;
  }

  /** While sealed, no sequence of storage calls changes anything, and each of them fails. */
  lemma {:induction false} SealedRefusesEverything(p: Primitives, s: State, calls: seq<Call>)
    requires s.sealed
    requires forall i | 0 <= i < |calls| ::
               calls[i].Get? || calls[i].List? || calls[i].Put? || calls[i].Delete?
    ensures Run(p, s, calls) == s
    ensures forall i | 0 <= i < |calls| ::
              StorageError(p, Run(p, s, calls[..i]), calls[i]) == Some(ErrBarrierSealed)
  {
    hide Apply, StorageError;
    if calls != [] {
      var last := |calls| - 1;
      var earlier := calls[..last];
      SealedRefusesEverything(p, s, earlier);
      SealedCall(p, s, calls[last]);
      forall i | 0 <= i < |calls|
        ensures StorageError(p, Run(p, s, calls[..i]), calls[i]) == Some(ErrBarrierSealed)
      {
        if i < last {
          assert earlier[..i] == calls[..i] && earlier[i] == calls[i];
        }
      }
    }
  }

  /**
    The condition on wrong keys can be met by a run that does try one: with a cipher that
    looks at half of the key, initialise, try a wrong key, then unseal with the right one.
    */
  lemma WrongKeysCanBeTried(kek: Bytes, wrong: Bytes, dataKey: Bytes, nonce: Bytes) returns (p: Primitives)
    requires |kek| == |wrong| == |dataKey| == KEY_SIZE && |nonce| == IV_SIZE
    requires Fingerprint(kek) != Fingerprint(wrong)
    ensures Lawful(p)
    ensures var s, calls := State(map[], true, None), [Init(kek, dataKey, nonce), Unseal(wrong), Unseal(kek)];
            AllowedRun(p, {BARRIER_INIT_PATH}, s, calls) && !Run(p, s, calls).sealed
  {
    p := LawsCanBeMet();
    var s := State(map[], true, None);
    var s1 := InitStep(p, s, kek, dataKey, nonce).0;
    var c := Credential(kek, dataKey);
    FirstInit(p, s, kek, dataKey, nonce);
    WrongUnseal(p, s1, c, wrong, nonce);
    MasterKeyUnseals(p, s1.(key := Some(wrong)), c);
    hide LawfulCipher, LawfulCodec, RefusesWrongKeys, InitStep, UnsealStep, Boots, Decrypt;
    RunSnoc(p, s, [], Init(kek, dataKey, nonce));
    RunSnoc(p, s, [Init(kek, dataKey, nonce)], Unseal(wrong));
    RunSnoc(p, s, [Init(kek, dataKey, nonce), Unseal(wrong)], Unseal(kek));
    var calls := [Init(kek, dataKey, nonce), Unseal(wrong), Unseal(kek)];
    hide Run, RunBoot;
    assert Run(p, s, calls[..0]) == s && RunBoot(p, s, calls[..0]) == None by {
      NoCalls(p, s);
    }
    assert calls[..1] == [Init(kek, dataKey, nonce)] && calls[..2] == [Init(kek, dataKey, nonce), Unseal(wrong)];
  }

  lemma NoCalls(p: Primitives, s: State)
    ensures Run(p, s, []) == s && RunBoot(p, s, []) == None
  {}

  lemma FirstInit(p: Primitives, s: State, kek: Bytes, dataKey: Bytes, nonce: Bytes)
    requires |kek| == |dataKey| == KEY_SIZE && |nonce| == IV_SIZE && s == State(map[], true, None)
    ensures var (s', r) := InitStep(p, s, kek, dataKey, nonce);
            && r.Success? && s'.sealed && s'.key.None? && Boots(p, s'.entries, Credential(kek, dataKey))
            && s'.entries[BARRIER_INIT_PATH] ==
               Framed(p, AES_GCM_VERSION2, kek, BARRIER_INIT_PATH, nonce, p.encodeInit(BarrierInit(1, dataKey)))
  {
    hide Framed;
  }

  lemma WrongUnseal(p: Primitives, s: State, c: Credential, wrong: Bytes, nonce: Bytes)
    requires Lawful(p) && RefusesWrongKeys(p) && |wrong| == KEY_SIZE && |nonce| == IV_SIZE
    requires Fingerprint(c.kek) != Fingerprint(wrong) && s.sealed && Boots(p, s.entries, c)
    requires s.entries[BARRIER_INIT_PATH] ==
             Framed(p, AES_GCM_VERSION2, c.kek, BARRIER_INIT_PATH, nonce, p.encodeInit(BarrierInit(1, c.dataKey)))
    ensures Decrypt(p, Some(wrong), BARRIER_INIT_PATH, s.entries[BARRIER_INIT_PATH]).Failure?
    ensures UnsealStep(p, s, wrong).0 == s.(key := Some(wrong))
  {
    WrongKeyFails(p, c.kek, wrong, nonce, p.encodeInit(BarrierInit(1, c.dataKey)));
    hide Decrypt, Framed, Lawful, RefusesWrongKeys, Stored;
  }

  lemma RunSnoc(p: Primitives, s: State, calls: seq<Call>, call: Call)
    ensures Run(p, s, calls + [call]) == Apply(p, Run(p, s, calls), call)
    ensures RunBoot(p, s, calls + [call]) == NextBoot(p, Run(p, s, calls), RunBoot(p, s, calls), call)
  {
    hide Apply, NextBoot;
    var all := calls + [call];
    assert all[..|all| - 1] == calls;
  }

  lemma WrongKeyFails(p: Primitives, kek: Bytes, wrong: Bytes, nonce: Bytes, plain: Bytes)
    requires Lawful(p) && RefusesWrongKeys(p) && |kek| == |wrong| == KEY_SIZE && |nonce| == IV_SIZE
    requires Fingerprint(kek) != Fingerprint(wrong)
    ensures Decrypt(p, Some(wrong), BARRIER_INIT_PATH,
                    Framed(p, AES_GCM_VERSION2, kek, BARRIER_INIT_PATH, nonce, plain)).Failure?
  {
    hide Decrypt, Framed;
    DecryptOther(p, AES_GCM_VERSION2, kek, BARRIER_INIT_PATH, wrong, BARRIER_INIT_PATH, nonce, plain);
  }

  /** What `init` of the barrier refuses, and what it leaves behind. */
  lemma InitAnswers(p: Primitives, s: State, kek: Bytes, dataKey: Bytes, nonce: Bytes)
    requires |nonce| == IV_SIZE
    ensures |kek| < 16 || |kek| > 32 ==> InitStep(p, s, kek, dataKey, nonce) == (s, Failure(ErrBarrierKeyInvalid))
    ensures 16 <= |kek| <= 32 && Inited(s) ==> InitStep(p, s, kek, dataKey, nonce) == (s, Failure(ErrBarrierAlreadyInit))
    ensures 16 <= |kek| < 32 && !Inited(s) ==>
              InitStep(p, s, kek, dataKey, nonce) == (s.(key := Some(kek)), Failure(ErrOpenSsl))
    ensures |kek| == 32 && !Inited(s) ==>
              var (s', r) := InitStep(p, s, kek, dataKey, nonce);
              && r == Success(()) && s'.sealed == s.sealed && s'.key == None
              && (forall k | k != "barrier/init" ::
                    (k in s'.entries <==> k in s.entries) && (k in s.entries ==> s'.entries[k] == s.entries[k]))
  {
    hide Framed;
  }

  /** What `unseal` of the barrier answers; a key that does not open the record stays behind. */
  lemma UnsealAnswers(p: Primitives, s: State, kek: Bytes)
    ensures !s.sealed ==> UnsealStep(p, s, kek) == (s, Success(()))
    ensures s.sealed && "barrier/init" !in s.entries ==> UnsealStep(p, s, kek) == (s, Failure(ErrBarrierNotInit))
    ensures s.sealed && "barrier/init" in s.entries ==>
              var plain := Decrypt(p, Some(kek), "barrier/init", s.entries["barrier/init"]);
              && (plain.Failure? && plain.error != Panic ==>
                    UnsealStep(p, s, kek) == (s.(key := Some(kek)), Failure(ErrBarrierUnsealFailed)))
              && (plain.Success? && p.decodeInit(plain.value).None? ==>
                    UnsealStep(p, s, kek) == (s.(key := Some(kek)), Failure(ErrSerde)))
              && (plain.Success? && p.decodeInit(plain.value).Some? ==>
                    UnsealStep(p, s, kek) ==
                      (s.(sealed := false, key := Some(p.decodeInit(plain.value).value.key)), Success(())))
  {
    hide Decrypt;
  }

  /** What an open barrier answers, and what it writes. */
  lemma OpenBarrierAnswers(p: Primitives, s: State, path: string, value: Bytes, nonce: Bytes)
    requires Lawful(p) && !s.sealed && s.key.Some? && |s.key.value| == KEY_SIZE && |nonce| == IV_SIZE
    ensures var (s', r) := PutStep(p, s, path, value, nonce);
            var sealed := p.seal(s.key.value, nonce, path, value);
            && r == Success(()) && s'.sealed == s.sealed && s'.key == s.key
            && s'.entries == s.entries[path := [0, 0, 0, 1, 2] + nonce + (sealed.0 + sealed.1)]
            && GetStep(p, s', path) == Success(Some(value))
    ensures var (s', r) := DeleteStep(s, path);
            && r == Success(()) && s'.sealed == s.sealed && s'.key == s.key
            && s'.entries == s.entries - {path} && GetStep(p, s', path) == Success(None)
  {
    FramedBytes(p, AES_GCM_VERSION2, s.key.value, path, nonce, value);
    DecryptFramed(p, AES_GCM_VERSION2, s.key.value, path, nonce, value);
    hide Decrypt, Framed, Lawful;
    var blob := Framed(p, AES_GCM_VERSION2, s.key.value, path, nonce, value);
    assert blob == blob[..5] + blob[5..17] + blob[17..];
  }

  /** An entry that is moved to another path in the backend is refused there. */
  lemma MovedEntryIsRefused(p: Primitives, paths: set<string>, s: State, path: string, other: string, value: Bytes,
                            nonce: Bytes)
    requires Lawful(p) && !s.sealed && s.key.Some? && |s.key.value| == KEY_SIZE && |nonce| == IV_SIZE
    requires RefusesOtherData(p, paths) && path in paths && other in paths && path != other
    ensures var s' := PutStep(p, s, path, value, nonce).0;
            && path in s'.entries
            && GetStep(p, s'.(entries := s'.entries[other := s'.entries[path]]), other) == Failure(ErrOpenSsl)
  {
    hide Decrypt, Framed;
    OtherPathsFail(p, paths, s.key.value, path, other, nonce, value);
  }
}
