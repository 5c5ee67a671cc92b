/** The binary v2 vault format (crypto.rs): a 70-byte header, authenticated with the
    ciphertext, and the ciphertext. */
module VaultCodec {
  import opened Bytes

  /** "RPVAULT" and a zero byte. */
  const BINARY_MAGIC: seq<Byte> := [0x52, 0x50, 0x56, 0x41, 0x55, 0x4C, 0x54, 0x00]
  const VAULT_FORMAT_VERSION := 2
  const BINARY_HEADER_LEN := 70
  const TAG_LEN := 16

  const U32_LIMIT := 0x1_0000_0000
  const U64_LIMIT := 0x1_0000_0000_0000_0000

  type U32 = x: int | 0 <= x < U32_LIMIT
  type Salt = s: seq<Byte> | |s| == 16 witness seq(16, _ => 0)
  type Nonce = s: seq<Byte> | |s| == 24 witness seq(24, _ => 0)

  datatype KdfParams = KdfParams(mCostKib: U32, tCost: U32, parallelism: U32)

  datatype EncryptedVault = EncryptedVault(params: KdfParams, salt: Salt, nonce: Nonce, ciphertext: seq<Byte>)

  /** The limits of `KdfParams::argon2`: its own upper bounds, and the lower bounds of
      section 3.1 of RFC 9106, which `Params::new` enforces. */
  predicate Supported(params: KdfParams) {
    && params.mCostKib <= 256 * 1024 && params.tCost <= 10 && params.parallelism <= 16
    && params.parallelism >= 1 && params.tCost >= 1 && params.mCostKib >= 8 * params.parallelism
  }

  // ------------------------------------------------------- little-endian numbers

  function Pow256(width: nat): (p: nat)
    ensures p >= 1
  {
    if width == 0 then 1 else 256 * Pow256(width - 1)
  }

  /** `to_le_bytes`. */
  function ToLittleEndian(n: nat, width: nat): (bytes: seq<Byte>)
    ensures |bytes| == width
  {
    if width == 0 then [] else [n % 256] + ToLittleEndian(n / 256, width - 1)
  }

  /** `from_le_bytes`. */
  function FromLittleEndian(bytes: seq<Byte>): (n: nat)
    ensures n < Pow256(|bytes|)
  {
    if bytes == [] then 0 else bytes[0] + 256 * FromLittleEndian(bytes[1..])
  }

  lemma {:induction false} NumberRoundTrip(n: nat, width: nat)
    requires n < Pow256(width)
    ensures FromLittleEndian(ToLittleEndian(n, width)) == n
  {
    if width > 0 {
      NumberRoundTrip(n / 256, width - 1);
    }
  }

  lemma Digits(low: Byte, high: nat)
    ensures (low + 256 * high) % 256 == low && (low + 256 * high) / 256 == high
  {
  }

  lemma {:induction false} BytesRoundTrip(bytes: seq<Byte>)
    ensures ToLittleEndian(FromLittleEndian(bytes), |bytes|) == bytes
  {
    if bytes != [] {
      BytesRoundTrip(bytes[1..]);
      var n, width := FromLittleEndian(bytes), |bytes| - 1;
      Digits(bytes[0], FromLittleEndian(bytes[1..]));
      assert ToLittleEndian(n, |bytes|) == [n % 256] + ToLittleEndian(n / 256, width);
      assert [bytes[0]] + bytes[1..] == bytes;
    }
  }

  lemma Widths()
    ensures Pow256(2) == 0x1_0000 && Pow256(4) == U32_LIMIT && Pow256(8) == U64_LIMIT
  {
    assert Pow256(2) == 256 * Pow256(1) && Pow256(1) == 256;
    assert Pow256(4) == 256 * Pow256(3) && Pow256(3) == 256 * Pow256(2);
    assert Pow256(6) == 256 * Pow256(5) && Pow256(5) == 256 * Pow256(4);
    assert Pow256(8) == 256 * Pow256(7) && Pow256(7) == 256 * Pow256(6);
  }

  // ------------------------------------------------------------------- the header

  /** The header without its last field. */
  function Preamble(params: KdfParams, salt: Salt, nonce: Nonce): (bytes: seq<Byte>)
    ensures |bytes| == 62
  {
    BINARY_MAGIC + (ToLittleEndian(VAULT_FORMAT_VERSION, 2) + (ToLittleEndian(params.mCostKib, 4)
    + (ToLittleEndian(params.tCost, 4) + (ToLittleEndian(params.parallelism, 4) + (salt + nonce)))))
  }

  function Header(params: KdfParams, salt: Salt, nonce: Nonce, ciphertextLen: nat): (bytes: seq<Byte>)
    ensures |bytes| == BINARY_HEADER_LEN
  {
    Preamble(params, salt, nonce) + ToLittleEndian(ciphertextLen, 8)
  }

  /** `binary_header`. */
  method BinaryHeader(params: KdfParams, salt: Salt, nonce: Nonce, ciphertextLen: nat) returns (header: seq<Byte>)
    ensures header == Header(params, salt, nonce, ciphertextLen)
  {
    header := BINARY_MAGIC;
    header := header + ToLittleEndian(VAULT_FORMAT_VERSION, 2);
    ghost var start := header;
    var values := [params.mCostKib, params.tCost, params.parallelism];
    ghost var encoded: seq<Byte> := [];
    for i := 0 to |values|
      invariant header == start + encoded
      invariant encoded == Numbers(values[..i])
    {
      header := header + ToLittleEndian(values[i], 4);
      NumbersSnoc(values[..i], values[i]);
      assert values[..i] + [values[i]] == values[..i + 1];
      encoded := encoded + ToLittleEndian(values[i], 4);
    }
    assert values[..3] == values;
    ThreeNumbers(params.mCostKib, params.tCost, params.parallelism);
    header := header + salt;
    header := header + nonce;
    header := header + ToLittleEndian(ciphertextLen, 8);
    FieldOrder(BINARY_MAGIC, ToLittleEndian(VAULT_FORMAT_VERSION, 2), ToLittleEndian(params.mCostKib, 4),
               ToLittleEndian(params.tCost, 4), ToLittleEndian(params.parallelism, 4), salt, nonce);
  }

  lemma FieldOrder(a: seq<Byte>, b: seq<Byte>, c: seq<Byte>, d: seq<Byte>, e: seq<Byte>, f: seq<Byte>, g: seq<Byte>)
    ensures ((a + b) + (c + (d + (e + []))) + f) + g == a + (b + (c + (d + (e + (f + g)))))
  {
  }

  function Numbers(values: seq<U32>): seq<Byte> {
    if values == [] then [] else ToLittleEndian(values[0], 4) + Numbers(values[1..])
  }

  lemma ThreeNumbers(a: U32, b: U32, c: U32)
    ensures Numbers([a, b, c]) == ToLittleEndian(a, 4) + (ToLittleEndian(b, 4) + (ToLittleEndian(c, 4) + []))
  {
    assert [a, b, c][1..] == [b, c] && [b, c][1..] == [c] && [c][1..] == [];
    assert Numbers([c]) == ToLittleEndian(c, 4) + [];
    assert Numbers([b, c]) == ToLittleEndian(b, 4) + Numbers([c]);
  }

  lemma {:induction false} NumbersSnoc(values: seq<U32>, last: U32)
    ensures Numbers(values + [last]) == Numbers(values) + ToLittleEndian(last, 4)
  {
    if values == [] {
      assert [last][1..] == [];
    } else {
      assert (values + [last])[1..] == values[1..] + [last];
      NumbersSnoc(values[1..], last);
    }
  }

  // ------------------------------------------------------------- encode and decode

  /** `encode_vault`. */
  function Encode(vault: EncryptedVault): seq<Byte> {
    Header(vault.params, vault.salt, vault.nonce, |vault.ciphertext|) + vault.ciphertext
  }

  datatype DecodeError = NotBinaryVault | WrongVersionOrTruncated | UnsupportedKdf | LengthMismatch
  datatype Decoded = Ok(vault: EncryptedVault) | Err(error: DecodeError)

  /** `from_le_bytes` of the bytes from `at` on. */
  function NumberAt(bytes: seq<Byte>, at: nat, width: nat): (n: nat)
    requires at + width <= |bytes|
    ensures n < Pow256(width)
    decreases width
  {
    if width == 0 then 0 else bytes[at] + 256 * NumberAt(bytes, at + 1, width - 1)
  }

  lemma {:induction false} NumberAtSlice(bytes: seq<Byte>, at: nat, width: nat)
    requires at + width <= |bytes|
    ensures NumberAt(bytes, at, width) == FromLittleEndian(bytes[at..at + width])
    decreases width
  {
    if width > 0 {
      NumberAtSlice(bytes, at + 1, width - 1);
      assert bytes[at..at + width][1..] == bytes[at + 1..at + width];
    }
  }

  function ReadU32(bytes: seq<Byte>, at: nat): (n: U32)
    requires at + 4 <= |bytes|
  {
    Widths();
    NumberAt(bytes, at, 4)
  }

  lemma FieldValues(bytes: seq<Byte>)
    requires |bytes| >= BINARY_HEADER_LEN
    ensures NumberAt(bytes, 8, 2) == FromLittleEndian(bytes[8..10])
    ensures ReadU32(bytes, 10) == FromLittleEndian(bytes[10..14]) && ReadU32(bytes, 14) == FromLittleEndian(bytes[14..18])
    ensures ReadU32(bytes, 18) == FromLittleEndian(bytes[18..22])
    ensures NumberAt(bytes, 62, 8) == FromLittleEndian(bytes[62..70])
  {
    NumberAtSlice(bytes, 8, 2);
    NumberAtSlice(bytes, 10, 4);
    NumberAtSlice(bytes, 14, 4);
    NumberAtSlice(bytes, 18, 4);
    NumberAtSlice(bytes, 62, 8);
  }

  /** `decode_vault`. */
  function Decode(bytes: seq<Byte>): Decoded {
    if !(BINARY_MAGIC <= bytes) then Err(NotBinaryVault)
    else if |bytes| < BINARY_HEADER_LEN + 16 || NumberAt(bytes, 8, 2) != VAULT_FORMAT_VERSION then
      Err(WrongVersionOrTruncated)
    else
      var params := KdfParams(ReadU32(bytes, 10), ReadU32(bytes, 14), ReadU32(bytes, 18));
      if !Supported(params) then Err(UnsupportedKdf)
      else if NumberAt(bytes, 62, 8) != |bytes| - BINARY_HEADER_LEN then Err(LengthMismatch)
      else Ok(EncryptedVault(params, bytes[22..38], bytes[38..62], bytes[BINARY_HEADER_LEN..]))
  }

  // ------------------------------------------------------------------ round trips

  lemma PreambleParts(params: KdfParams, salt: Salt, nonce: Nonce, rest: seq<Byte>)
    ensures var bytes := Preamble(params, salt, nonce) + rest;
            && BINARY_MAGIC <= bytes
            && bytes[8..10] == ToLittleEndian(VAULT_FORMAT_VERSION, 2)
            && bytes[10..14] == ToLittleEndian(params.mCostKib, 4)
            && bytes[14..18] == ToLittleEndian(params.tCost, 4)
            && bytes[18..22] == ToLittleEndian(params.parallelism, 4)
            && bytes[22..38] == salt
            && bytes[38..62] == nonce
  {
    var v, m := ToLittleEndian(VAULT_FORMAT_VERSION, 2), ToLittleEndian(params.mCostKib, 4);
    var t, p := ToLittleEndian(params.tCost, 4), ToLittleEndian(params.parallelism, 4);
    FieldsAt(BINARY_MAGIC, v, m, t, p, salt, nonce, rest);
  }

  lemma FieldsAt(a: seq<Byte>, b: seq<Byte>, c: seq<Byte>, d: seq<Byte>, e: seq<Byte>,
                 f: seq<Byte>, g: seq<Byte>, rest: seq<Byte>)
    requires |a| == 8 && |b| == 2 && |c| == 4 && |d| == 4 && |e| == 4 && |f| == 16 && |g| == 24
    ensures var s := (a + (b + (c + (d + (e + (f + g)))))) + rest;
            && a <= s && s[8..10] == b && s[10..14] == c && s[14..18] == d && s[18..22] == e
            && s[22..38] == f && s[38..62] == g
  {
    var s := (a + (b + (c + (d + (e + (f + g)))))) + rest;
    assert forall i :: 0 <= i < 8 ==> s[i] == a[i];
    assert forall i :: 0 <= i < 2 ==> s[8 + i] == b[i];
    assert forall i :: 0 <= i < 4 ==> s[10 + i] == c[i];
    assert forall i :: 0 <= i < 4 ==> s[14 + i] == d[i];
    assert forall i :: 0 <= i < 4 ==> s[18 + i] == e[i];
    assert forall i :: 0 <= i < 16 ==> s[22 + i] == f[i];
    assert forall i :: 0 <= i < 24 ==> s[38 + i] == g[i];
  }

  lemma FieldsJoin(s: seq<Byte>)
    requires |s| == 62
    ensures s == s[..8] + (s[8..10] + (s[10..14] + (s[14..18] + (s[18..22] + (s[22..38] + s[38..62])))))
  {
    assert s[22..] == s[22..38] + s[38..62];
    assert s[18..] == s[18..22] + s[22..];
    assert s[14..] == s[14..18] + s[18..];
    assert s[10..] == s[10..14] + s[14..];
    assert s[8..] == s[8..10] + s[10..];
    assert s == s[..8] + s[8..];
  }

  predicate WellFormed(vault: EncryptedVault) {
    Supported(vault.params) && TAG_LEN <= |vault.ciphertext| < U64_LIMIT
  }

  /** Decoding an encoded vault gives the vault back. */
  lemma DecodeEncode(vault: EncryptedVault)
    requires WellFormed(vault)
    ensures Decode(Encode(vault)) == Ok(vault)
  {
    var bytes, pre := Encode(vault), Preamble(vault.params, vault.salt, vault.nonce);
    var length := ToLittleEndian(|vault.ciphertext|, 8);
    assert bytes == pre + (length + vault.ciphertext);
    PreambleParts(vault.params, vault.salt, vault.nonce, length + vault.ciphertext);
    assert bytes[62..70] == length && bytes[70..] == vault.ciphertext;
    FieldValues(bytes);
    Widths();
    NumberRoundTrip(VAULT_FORMAT_VERSION, 2);
    NumberRoundTrip(vault.params.mCostKib, 4);
    NumberRoundTrip(vault.params.tCost, 4);
    NumberRoundTrip(vault.params.parallelism, 4);
    NumberRoundTrip(|vault.ciphertext|, 8);
  }

  /** What is decoded is well formed: the length field has eight bytes. */
  lemma DecodedIsWellFormed(bytes: seq<Byte>)
    requires Decode(bytes).Ok?
    ensures WellFormed(Decode(bytes).vault)
  {
    Widths();
  }

  lemma FieldsOf(s: seq<Byte>, from: nat, to: nat)
    requires from <= to <= 62 <= |s|
    ensures s[..62][from..to] == s[from..to]
  {
  }

  /** The fields of a string, printed again one after the other, are its first 62 bytes. */
  lemma PreambleOf(bytes: seq<Byte>)
    requires Decode(bytes).Ok?
    ensures var vault := Decode(bytes).vault;
            Preamble(vault.params, vault.salt, vault.nonce) == bytes[..62]
  {
    var pre := bytes[..62];
    FieldsJoin(pre);
    FieldValues(bytes);
    FieldsOf(bytes, 8, 10);
    FieldsOf(bytes, 10, 14);
    FieldsOf(bytes, 14, 18);
    FieldsOf(bytes, 18, 22);
    FieldsOf(bytes, 22, 38);
    FieldsOf(bytes, 38, 62);
    BytesRoundTrip(bytes[8..10]);
    BytesRoundTrip(bytes[10..14]);
    BytesRoundTrip(bytes[14..18]);
    BytesRoundTrip(bytes[18..22]);
    assert pre[..8] == BINARY_MAGIC;
  }

  /** Every accepted byte string is the encoding of what it decodes to. */
  lemma EncodeDecode(bytes: seq<Byte>)
    requires Decode(bytes).Ok?
    ensures Encode(Decode(bytes).vault) == bytes
    ensures WellFormed(Decode(bytes).vault)
  {
    PreambleOf(bytes);
    DecodedIsWellFormed(bytes);
    FieldValues(bytes);
    BytesRoundTrip(bytes[62..70]);
    assert bytes[..62] + bytes[62..70] + bytes[70..] == bytes;
  }

  /** The reader accepts exactly the encodings of well-formed vaults, each as that vault. */
  lemma DecodeExactly(bytes: seq<Byte>, vault: EncryptedVault)
    ensures Decode(bytes) == Ok(vault) <==> WellFormed(vault) && bytes == Encode(vault)
  {
    if Decode(bytes) == Ok(vault) {
      EncodeDecode(bytes);
    }
    if WellFormed(vault) && bytes == Encode(vault) {
      DecodeEncode(vault);
    }
  }

  /** The header authenticated before sealing (from the plaintext length and the tag
      length) is the first 70 bytes of the file and the header rebuilt on reading. */
  lemma AuthenticatedHeader(vault: EncryptedVault, plaintextLen: nat)
    requires WellFormed(vault) && |vault.ciphertext| == plaintextLen + TAG_LEN
    ensures var sealed := Header(vault.params, vault.salt, vault.nonce, plaintextLen + TAG_LEN);
            var read := Decode(Encode(vault));
            && sealed == Encode(vault)[..BINARY_HEADER_LEN]
            && read.Ok?
            && sealed == Header(read.vault.params, read.vault.salt, read.vault.nonce, |read.vault.ciphertext|)
  {
    DecodeEncode(vault);
    var header := Header(vault.params, vault.salt, vault.nonce, |vault.ciphertext|);
    assert (header + vault.ciphertext)[..BINARY_HEADER_LEN] == header;
  }

  /** The number after `i` bytes have been taken off. */
  function Shifted(n: nat, i: nat): nat {
    if i == 0 then n else Shifted(n / 256, i - 1)
  }

  /** Little-endian: the lowest byte first. */
  lemma {:induction false} DigitAt(n: nat, width: nat, i: nat)
    requires i < width
    ensures ToLittleEndian(n, width)[i] == Shifted(n, i) % 256
    decreases i
  {
    if i > 0 {
      DigitAt(n / 256, width - 1, i - 1);
    }
  }

  /** The fields of a vault file, byte for byte. */
  lemma FileLayout(vault: EncryptedVault)
    ensures var bytes := Encode(vault);
            && |bytes| == 70 + |vault.ciphertext|
            && bytes[..8] == [0x52, 0x50, 0x56, 0x41, 0x55, 0x4C, 0x54, 0x00]
            && bytes[8..10] == [2, 0]
            && bytes[10..14] == ToLittleEndian(vault.params.mCostKib, 4)
            && bytes[14..18] == ToLittleEndian(vault.params.tCost, 4)
            && bytes[18..22] == ToLittleEndian(vault.params.parallelism, 4)
            && bytes[22..38] == vault.salt && bytes[38..62] == vault.nonce
            && bytes[62..70] == ToLittleEndian(|vault.ciphertext|, 8) && bytes[70..] == vault.ciphertext
  {
    var pre, length := Preamble(vault.params, vault.salt, vault.nonce), ToLittleEndian(|vault.ciphertext|, 8);
    assert Encode(vault) == pre + (length + vault.ciphertext);
    PreambleParts(vault.params, vault.salt, vault.nonce, length + vault.ciphertext);
    assert (pre + (length + vault.ciphertext))[62..70] == length;
    assert (pre + (length + vault.ciphertext))[70..] == vault.ciphertext;
    assert ToLittleEndian(2, 2) == [2, 0] by {
      assert ToLittleEndian(0, 1) == [0] + ToLittleEndian(0, 0);
      assert ToLittleEndian(2, 2) == [2] + ToLittleEndian(0, 1);
    }
  }
}
