/** The packet pipeline as a symbolic sealed box. */
module Pipeline {
  import opened Numbers
  import opened Packet

  type Key = k: Bytes | |k| == KEY_SIZE witness Repeated(0, KEY_SIZE)

  function Repeated(b: byte, n: nat): (s: Bytes)
    ensures |s| == n
  {
    if n == 0 then [] else [b] + Repeated(b, n - 1)
  }

  /** The key every connection starts with. */
  function BootstrapKey(): Key {
    Repeated(0x42, KEY_SIZE)
  }

  lemma {:induction false} EveryByteRepeats(b: byte, n: nat, i: nat)
    requires i < n
    ensures Repeated(b, n)[i] == b
  {
    if i > 0 {
      EveryByteRepeats(b, n - 1, i - 1);
    }
  }

  lemma BootstrapKeyBytes()
    ensures |BootstrapKey()| == 32 && forall i :: 0 <= i < 32 ==> BootstrapKey()[i] == 0x42
  {
    forall i | 0 <= i < 32
      ensures BootstrapKey()[i] == 0x42
    {
      EveryByteRepeats(0x42, KEY_SIZE, i);
    }
  }

  /** Compression followed by authenticated encryption, and back. Either direction may fail. */
  datatype Cipher = Cipher(
    seal: (Key, Bytes, nat) -> Option<Bytes>,
    open: (Key, Bytes, nat) -> Option<Bytes>)

  predicate OpensSame(c: Cipher, k: Key, p: Bytes, n: nat) {
    c.seal(k, p, n).Some? ==> c.open(k, c.seal(k, p, n).value, n) == Some(p)
  }

  /** What was sealed opens again under the same key and nonce. */
  ghost predicate Inverts(c: Cipher) {
    forall k: Key, p: Bytes, n: nat :: OpensSame(c, k, p, n)
  }

  predicate OpensOnlySame(c: Cipher, k: Key, p: Bytes, n: nat, k': Key, n': nat) {
    c.seal(k, p, n).Some? && c.open(k', c.seal(k, p, n).value, n').Some? ==> k' == k && n' == n
  }

  /** ... and under no other. */
  ghost predicate Sealed(c: Cipher) {
    && Inverts(c)
    && (forall k: Key, p: Bytes, n: nat, k': Key, n': nat :: OpensOnlySame(c, k, p, n, k', n'))
  }

  lemma OpensExactly(c: Cipher, k: Key, p: Bytes, n: nat, k': Key, n': nat)
    requires Sealed(c) && c.seal(k, p, n).Some?
    ensures c.open(k', c.seal(k, p, n).value, n') == if k' == k && n' == n then Some(p) else None
  {
    assert OpensSame(c, k, p, n);
    assert OpensOnlySame(c, k, p, n, k', n');
  }

  // ---------- the pipeline is made of a compressor and a cipher ----------

  const AEAD_NONCE_SIZE := 12

  /** Compression, which may fail, and its inverse. */
  datatype Compressor = Compressor(compress: Bytes -> Option<Bytes>, decompress: Bytes -> Option<Bytes>)

  /** Authenticated encryption of a payload in place, under a key and a nonce of twelve bytes. */
  datatype Aead = Aead(
    encrypt: (Key, Bytes, Bytes) -> Option<Bytes>,
    decrypt: (Key, Bytes, Bytes) -> Option<Bytes>)

  /** The eight bytes of the packet's nonce, and four zeroes. */
  function NonceBytes(nonce: nat): (b: Bytes)
    ensures |b| == AEAD_NONCE_SIZE
  {
    ToBytes(nonce, 8) + [0, 0, 0, 0]
  }

  predicate InNonceRange(nonce: nat) {
    nonce < 0x1_0000_0000_0000_0000
  }

  function Process(comp: Compressor, aead: Aead, key: Key, plaintext: Bytes, nonce: nat): Option<Bytes> {
    if !InNonceRange(nonce) then None  // no u64 has this value
    else
      var payload := comp.compress(plaintext);
      if payload.None? then None else aead.encrypt(key, NonceBytes(nonce), payload.value)
  }

  function InverseProcess(comp: Compressor, aead: Aead, key: Key, ciphertext: Bytes, nonce: nat): Option<Bytes> {
    if !InNonceRange(nonce) then None
    else
      var payload := aead.decrypt(key, NonceBytes(nonce), ciphertext);
      if payload.None? then None else comp.decompress(payload.value)
  }

  function Secure(comp: Compressor, aead: Aead): Cipher {
    Cipher((key, plaintext, nonce) => Process(comp, aead, key, plaintext, nonce),
           (key, ciphertext, nonce) => InverseProcess(comp, aead, key, ciphertext, nonce))
  }

  predicate Restores(comp: Compressor, p: Bytes) {
    comp.compress(p).Some? ==> comp.decompress(comp.compress(p).value) == Some(p)
  }

  ghost predicate Lossless(comp: Compressor) {
    forall p: Bytes :: Restores(comp, p)
  }

  predicate Authenticates(aead: Aead, k: Key, n: Bytes, p: Bytes, k': Key, n': Bytes) {
    aead.encrypt(k, n, p).Some? ==>
      aead.decrypt(k', n', aead.encrypt(k, n, p).value) == if k' == k && n' == n then Some(p) else None
  }

  /** A ciphertext decrypts under its own key and twelve nonce bytes and under no others. */
  ghost predicate Authentic(aead: Aead) {
    forall k: Key, n: Bytes, p: Bytes, k': Key, n': Bytes :: Authenticates(aead, k, n, p, k', n')
  }

  lemma NonceBytesDiffer(m: nat, n: nat)
    requires InNonceRange(m) && InNonceRange(n)
    ensures NonceBytes(m) == NonceBytes(n) <==> m == n
  {
    Ranges();
    NumberRoundTrip(m, 8);
    NumberRoundTrip(n, 8);
    assert NonceBytes(m)[..8] == ToBytes(m, 8) && NonceBytes(n)[..8] == ToBytes(n, 8);
  }

  lemma SecureOpens(comp: Compressor, aead: Aead, k: Key, p: Bytes, n: nat, k': Key, n': nat)
    requires Lossless(comp) && Authentic(aead)
    ensures OpensSame(Secure(comp, aead), k, p, n) && OpensOnlySame(Secure(comp, aead), k, p, n, k', n')
  {
    if Process(comp, aead, k, p, n).Some? {
      var payload := comp.compress(p).value;
      assert Restores(comp, p);
      assert Authenticates(aead, k, NonceBytes(n), payload, k, NonceBytes(n));
      assert Authenticates(aead, k, NonceBytes(n), payload, k', NonceBytes(n'));
      if InNonceRange(n') {
        NonceBytesDiffer(n, n');
      }
    }
  }

  /**
    Compressing, padding the nonce and encrypting keeps both laws: the pipeline opens what it sealed
    under the same key and nonce and under no other, for every nonce there is.
   */
  lemma SecureIsSealed(comp: Compressor, aead: Aead)
    requires Lossless(comp) && Authentic(aead)
    ensures Sealed(Secure(comp, aead))
  {
    var c := Secure(comp, aead);
    forall k: Key, p: Bytes, n: nat
      ensures OpensSame(c, k, p, n)
    {
      SecureOpens(comp, aead, k, p, n, k, n);
    }
    forall k: Key, p: Bytes, n: nat, k': Key, n': nat
      ensures OpensOnlySame(c, k, p, n, k', n')
    {
      SecureOpens(comp, aead, k, p, n, k', n');
    }
  }

  // ---------- the laws can be met ----------

  function Keep(b: Bytes): Option<Bytes> {
    Some(b)
  }

  function LabelledEncrypt(k: Key, n: Bytes, p: Bytes): Option<Bytes> {
    if |n| == AEAD_NONCE_SIZE then Some(k + n + p) else None
  }

  function LabelledDecrypt(k: Key, n: Bytes, b: Bytes): Option<Bytes> {
    if |b| >= KEY_SIZE + AEAD_NONCE_SIZE && b[..KEY_SIZE] == k && b[KEY_SIZE..KEY_SIZE + AEAD_NONCE_SIZE] == n
    then Some(b[KEY_SIZE + AEAD_NONCE_SIZE..])
    else None
  }

  /** A pipeline that compresses nothing and carries its key and nonce as labels obeys them. */
  const LABELLED := Secure(Compressor(Keep, Keep), Aead(LabelledEncrypt, LabelledDecrypt))

  lemma LabelledIsSealed()
    ensures Sealed(LABELLED)
  {
    var comp, aead := Compressor(Keep, Keep), Aead(LabelledEncrypt, LabelledDecrypt);
    assert forall p: Bytes :: Restores(comp, p);
    forall k: Key, n: Bytes, p: Bytes, k': Key, n': Bytes
      ensures Authenticates(aead, k, n, p, k', n')
    {
      if |n| == AEAD_NONCE_SIZE {
        var b := LabelledEncrypt(k, n, p).value;
        assert b[..KEY_SIZE] == k && b[KEY_SIZE..KEY_SIZE + AEAD_NONCE_SIZE] == n;
        assert b[KEY_SIZE + AEAD_NONCE_SIZE..] == p;
      }
    }
    SecureIsSealed(comp, aead);
  }
}
