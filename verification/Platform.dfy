/**
  What the vault takes from outside: AES-256-GCM (section 7 of NIST SP 800-38D) and the
  JSON encoding of two small records. The functions are parameters of the model; the laws
  below are all that is used of them.
  */
module Platform {
  import opened Wrappers

  type Bytes = seq<bv8>

  const KEY_SIZE := 32
  const IV_SIZE := 12
  const TAG_SIZE := 16

  datatype BarrierInit = BarrierInit(version: nat, key: Bytes)

  datatype SealConfig = SealConfig(secretShares: u8, secretThreshold: u8)

  datatype Primitives = Primitives(
    /** key, iv, additional data, plaintext to ciphertext and tag */
    seal: (Bytes, Bytes, string, Bytes) -> (Bytes, Bytes),
    /** key, iv, additional data, ciphertext, tag to plaintext */
    open: (Bytes, Bytes, string, Bytes, Bytes) -> Option<Bytes>,
    encodeInit: BarrierInit -> Bytes,
    decodeInit: Bytes -> Option<BarrierInit>,
    encodeConfig: SealConfig -> Bytes,
    decodeConfig: Bytes -> Option<SealConfig>)

  /** Sizes, decryption of what was encrypted, and nothing else decrypts. */
  ghost predicate LawfulCipher(p: Primitives) {
    && (forall k, iv, aad, m | |k| == KEY_SIZE && |iv| == IV_SIZE ::
          && |p.seal(k, iv, aad, m).0| == |m| && |p.seal(k, iv, aad, m).1| == TAG_SIZE
          && p.open(k, iv, aad, p.seal(k, iv, aad, m).0, p.seal(k, iv, aad, m).1) == Some(m))
    && (forall k, iv, aad, c, t | |k| == KEY_SIZE && |iv| == IV_SIZE ::
          p.open(k, iv, aad, c, t).Some? ==> p.seal(k, iv, aad, p.open(k, iv, aad, c, t).value) == (c, t))
  }

  ghost predicate LawfulCodec(p: Primitives) {
    && (forall b :: p.decodeInit(p.encodeInit(b)) == Some(b))
    && (forall c :: p.decodeConfig(p.encodeConfig(c)) == Some(c))
  }

  ghost predicate Lawful(p: Primitives) {
    LawfulCipher(p) && LawfulCodec(p)
  }

  // ---- The laws can be met.

  function Unary(n: nat): Bytes {
    if n == 0 then [0] else [1] + Unary(n - 1)
  }

  function Ones(b: Bytes): nat {
    if b == [] || b[0] == 0 then 0 else 1 + Ones(b[1..])
  }

  lemma {:induction false} OnesOfUnary(n: nat, rest: Bytes)
    ensures |Unary(n)| == n + 1 && Ones(Unary(n) + rest) == n
  {
    if n > 0 {
      OnesOfUnary(n - 1, rest);
      assert (Unary(n) + rest)[1..] == Unary(n - 1) + rest;
    }
  }

  function ReadInit(b: Bytes): Option<BarrierInit> {
    if Ones(b) < |b| then Some(BarrierInit(Ones(b), b[Ones(b) + 1..])) else None
  }

  function ReadConfig(b: Bytes): Option<SealConfig> {
    var n := Ones(b);
    if n <= 255 && 0 <= |b| - n - 1 <= 255 then Some(SealConfig(n, |b| - n - 1)) else None
  }

  /** Half of the key, as far as there is one. */
  function Fingerprint(key: Bytes): Bytes {
    if |key| >= TAG_SIZE then key[..TAG_SIZE] else seq(TAG_SIZE, i => 0)
  }

  /** No key that differs from the right one in its first half opens anything sealed. */
  ghost predicate RefusesWrongKeys(p: Primitives) {
    forall k, k', iv, aad, m | |k| == |k'| == KEY_SIZE && |iv| == IV_SIZE && Fingerprint(k) != Fingerprint(k') ::
      p.open(k', iv, aad, p.seal(k, iv, aad, m).0, p.seal(k, iv, aad, m).1) == None
  }

  /** There are functions with all the properties asked for, even if many wrong keys are tried. */
  lemma LawsCanBeMet() returns (p: Primitives)
    ensures Lawful(p) && RefusesWrongKeys(p)
  {
    p := Primitives(
      (k, iv, aad, m) => (m, Fingerprint(k)),
      (k, iv, aad, c, t) => if t == Fingerprint(k) then Some(c) else None,
      (b: BarrierInit) => Unary(b.version) + b.key,
      ReadInit,
      (c: SealConfig) => Unary(c.secretShares) + seq(c.secretThreshold, i => 0),
      ReadConfig);
    ReadersUndo();
  }

  lemma ReadersUndo()
    ensures forall b: BarrierInit :: ReadInit(Unary(b.version) + b.key) == Some(b)
    ensures forall c: SealConfig :: ReadConfig(Unary(c.secretShares) + seq(c.secretThreshold, i => 0)) == Some(c)
  {
    forall b: BarrierInit ensures ReadInit(Unary(b.version) + b.key) == Some(b) {
      OnesOfUnary(b.version, b.key);
      assert (Unary(b.version) + b.key)[b.version + 1..] == b.key;
    }
    forall c: SealConfig ensures ReadConfig(Unary(c.secretShares) + seq(c.secretThreshold, i => 0)) == Some(c) {
      OnesOfUnary(c.secretShares, seq(c.secretThreshold, i => 0));
    }
  }

  /**
    Nothing sealed with one of the given strings as additional data opens with another of
    them. A tag of 16 bytes cannot tell all strings apart, so this is about a set of them.
    */
  ghost predicate RefusesOtherData(p: Primitives, strings: set<string>) {
    forall k, iv, a, b, m | |k| == KEY_SIZE && |iv| == IV_SIZE && a in strings && b in strings && a != b ::
      p.open(k, iv, b, p.seal(k, iv, a, m).0, p.seal(k, iv, a, m).1) == None
  }

  function Mark(yes: bool): Bytes {
    seq(TAG_SIZE, i => if yes then 1 else 0)
  }

  lemma MarksDiffer()
    ensures Mark(true) != Mark(false)
  {
    assert Mark(true)[0] == 1 && Mark(false)[0] == 0;
  }

  /** Any two strings can be told apart. */
  lemma StringsCanBeToldApart(a: string, b: string) returns (p: Primitives)
    ensures Lawful(p) && RefusesOtherData(p, {a, b})
  {
    p := Primitives(
      (k, iv, aad, m) => (m, Mark(aad == a)),
      (k, iv, aad, c, t) => if t == Mark(aad == a) then Some(c) else None,
      (b: BarrierInit) => Unary(b.version) + b.key,
      ReadInit,
      (c: SealConfig) => Unary(c.secretShares) + seq(c.secretThreshold, i => 0),
      ReadConfig);
    ReadersUndo();
    MarksDiffer();
  }
}
