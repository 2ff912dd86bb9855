/** Media encryption (backend/app/channels/wechat.py, _encrypt_aes_128_ecb and
    _decrypt_aes_128_ecb): the padding of RFC 5652 section 6.3 around a block cipher in ECB
    mode (NIST SP 800-38A section 6.1). The block cipher itself is any bijection on blocks. */
module WechatCipher {
  import opened Options
  import opened TextCodecs

  const BLOCK: nat := 16

  datatype Error = BadKey | BadLength | BadPadding | NegativeSize

  /** What AES under one key does to a block, and back. */
  datatype BlockCipher = BlockCipher(seal: seq<Byte> -> seq<Byte>, open: seq<Byte> -> seq<Byte>)

  ghost predicate Bijective(c: BlockCipher) {
    forall b :: |b| == BLOCK ==>
      |c.seal(b)| == BLOCK && c.open(c.seal(b)) == b && |c.open(b)| == BLOCK && c.seal(c.open(b)) == b
  }

  type BlockPermutation = c: BlockCipher | Bijective(c) witness BlockCipher(b => b, b => b)

  function PadLength(size: nat): (n: nat)
    ensures 1 <= n <= BLOCK && (size + n) % BLOCK == 0
  {
    BLOCK - size % BLOCK
  }

  function Padded(content: seq<Byte>): (r: seq<Byte>)
    ensures |r| % BLOCK == 0 && r != []
  {
    var n := PadLength(|content|);
    content + seq(n, i => n)
  }

  /** Takes the padding off if the last bytes all say how many they are. */
  function Unpadded(bytes: seq<Byte>): Result<seq<Byte>, Error> {
    if bytes == [] then Err(BadPadding)
    else
      var n := bytes[|bytes| - 1];
      if 1 <= n <= BLOCK && n <= |bytes| && forall i :: |bytes| - n <= i < |bytes| ==> bytes[i] == n
      then Ok(bytes[..|bytes| - n])
      else Err(BadPadding)
  }

  function Blockwise(f: seq<Byte> -> seq<Byte>, bytes: seq<Byte>): seq<Byte>
    requires |bytes| % BLOCK == 0
  {
    if bytes == [] then [] else f(bytes[..BLOCK]) + Blockwise(f, bytes[BLOCK..])
  }

  /** `key` selects the block cipher; keys of the wrong size are refused. */
  function Encrypt(aes: seq<Byte> -> BlockPermutation, content: seq<Byte>, key: seq<Byte>): Result<seq<Byte>, Error> {
    if |key| != BLOCK then Err(BadKey) else Ok(Blockwise(aes(key).seal, Padded(content)))
  }

  function Decrypt(aes: seq<Byte> -> BlockPermutation, content: seq<Byte>, key: seq<Byte>): Result<seq<Byte>, Error> {
    if |key| != BLOCK then Err(BadKey)
    else if |content| % BLOCK != 0 then Err(BadLength)
    else Unpadded(Blockwise(aes(key).open, content))
  }

  function EncryptedSize(plainSize: int): Result<int, Error> {
    if plainSize < 0 then Err(NegativeSize) else Ok((plainSize / BLOCK + 1) * BLOCK)
  }

  /** The size fields of an upload request. */
  datatype UploadSizes = UploadSizes(rawSize: int, fileSize: int)

  function UploadSizesOf(plain: seq<Byte>): UploadSizes {
    UploadSizes(|plain|, EncryptedSize(|plain|).value)
  }

  // ------------------------------------------------------------------ proofs

  lemma {:induction false} BlockwiseInverse(f: seq<Byte> -> seq<Byte>, g: seq<Byte> -> seq<Byte>, bytes: seq<Byte>)
    requires |bytes| % BLOCK == 0
    requires forall b :: |b| == BLOCK ==> |f(b)| == BLOCK && g(f(b)) == b
    ensures |Blockwise(f, bytes)| == |bytes|
    ensures Blockwise(g, Blockwise(f, bytes)) == bytes
  {
    if bytes != [] {
      var head, rest := bytes[..BLOCK], bytes[BLOCK..];
      BlockwiseInverse(f, g, rest);
      var sealed := Blockwise(f, bytes);
      assert sealed == f(head) + Blockwise(f, rest);
      assert sealed[..BLOCK] == f(head) && sealed[BLOCK..] == Blockwise(f, rest);
      assert bytes == head + rest;
    }
  }

  lemma PadUnpadded(bytes: seq<Byte>)
    requires |bytes| % BLOCK == 0 && Unpadded(bytes).Ok?
    ensures Padded(Unpadded(bytes).value) == bytes
  {
    var content := Unpadded(bytes).value;
    var n := bytes[|bytes| - 1];
    assert (|bytes| - n) % BLOCK == if n == BLOCK then 0 else BLOCK - n;
    assert PadLength(|content|) == n;
  }

  lemma OpenSealed(c: BlockPermutation, plain: seq<Byte>)
    ensures var sealed := Blockwise(c.seal, Padded(plain));
      |sealed| % BLOCK == 0 && Unpadded(Blockwise(c.open, sealed)) == Ok(plain)
  {
    BlockwiseInverse(c.seal, c.open, Padded(plain));
  }

  lemma SealOpened(c: BlockPermutation, cipher: seq<Byte>)
    requires |cipher| % BLOCK == 0 && Unpadded(Blockwise(c.open, cipher)).Ok?
    ensures Blockwise(c.seal, Padded(Unpadded(Blockwise(c.open, cipher)).value)) == cipher
  {
    BlockwiseInverse(c.open, c.seal, cipher);
    PadUnpadded(Blockwise(c.open, cipher));
  }

  /** Decryption accepts exactly the ciphertexts encryption produces, and inverts it: for every
      content and every key, one succeeds with the other's input. */
  lemma DecryptInvertsEncrypt(aes: seq<Byte> -> BlockPermutation, key: seq<Byte>, plain: seq<Byte>, cipher: seq<Byte>)
    ensures Decrypt(aes, cipher, key) == Ok(plain) <==> Encrypt(aes, plain, key) == Ok(cipher)
  {
    if |key| == BLOCK {
      OpenSealed(aes(key), plain);
      if Decrypt(aes, cipher, key).Ok? { SealOpened(aes(key), cipher); }
    }
  }

  lemma {:induction false} BlockwiseAt(f: seq<Byte> -> seq<Byte>, bytes: seq<Byte>, k: nat)
    requires |bytes| % 16 == 0 && 16 * k < |bytes| && forall b :: |b| == 16 ==> |f(b)| == 16
    ensures |Blockwise(f, bytes)| == |bytes|
    ensures Blockwise(f, bytes)[16 * k..16 * k + 16] == f(bytes[16 * k..16 * k + 16])
  {
    var head, rest := bytes[..16], bytes[16..];
    if k > 0 {
      BlockwiseAt(f, rest, k - 1);
      assert bytes[16 * k..16 * k + 16] == rest[16 * (k - 1)..16 * (k - 1) + 16];
      assert Blockwise(f, bytes)[16 * k..16 * k + 16] == Blockwise(f, rest)[16 * (k - 1)..16 * (k - 1) + 16];
    } else if rest != [] {
      BlockwiseAt(f, rest, 0);
    }
  }

  /** What is encrypted, block by block, is the content with 1 to 16 bytes of padding that say how many. */
  lemma CipherBlocks(aes: seq<Byte> -> BlockPermutation, key: seq<Byte>, plain: seq<Byte>, k: nat)
    requires |key| == 16 && 16 * k < |Padded(plain)|
    ensures var padded := Padded(plain);
      && |padded| % 16 == 0 && 1 <= |padded| - |plain| <= 16 && padded[..|plain|] == plain
      && (forall i :: |plain| <= i < |padded| ==> padded[i] == |padded| - |plain|)
    ensures Encrypt(aes, plain, key).Ok? && |Encrypt(aes, plain, key).value| == |Padded(plain)|
    ensures Encrypt(aes, plain, key).value[16 * k..16 * k + 16] == aes(key).seal(Padded(plain)[16 * k..16 * k + 16])
  {
    BlockwiseAt(aes(key).seal, Padded(plain), k);
  }

  /** The file size declared for an upload is the length of the ciphertext; a negative size is refused. */
  lemma DeclaredSizeIsCiphertextLength(aes: seq<Byte> -> BlockPermutation, key: seq<Byte>, plain: seq<Byte>, size: int)
    ensures Encrypt(aes, plain, key).Ok? <==> |key| == 16
    ensures |key| == 16 ==> |Encrypt(aes, plain, key).value| == UploadSizesOf(plain).fileSize
    ensures UploadSizesOf(plain).rawSize == |plain|
    ensures EncryptedSize(size) == Err(NegativeSize) <==> size < 0
  {
    BlockwiseInverse(aes(key).seal, aes(key).open, Padded(plain));
  }
}
