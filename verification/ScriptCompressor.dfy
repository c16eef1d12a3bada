/** CScriptCompressor: the compact form of scripts, with six special codes for the standard payment scripts. */
module ScriptCompressor {
  import opened Basics
  import opened Arithmetic
  import opened VarInt

  const OP_DUP: byte := 0x76
  const OP_EQUAL: byte := 0x87
  const OP_EQUALVERIFY: byte := 0x88
  const OP_HASH160: byte := 0xa9
  const OP_CHECKSIG: byte := 0xac
  const SPECIAL_SCRIPTS := 6
  /** The number of values of an unsigned int. */
  const UINT: nat := 0x1_0000_0000

  /** The curve operations on public keys: full validity, and recovering the 65-byte form from the 33-byte form. */
  datatype Curve = Curve(valid: seq<byte> -> bool, decompress: seq<byte> -> Option<seq<byte>>)

  /** The 33-byte form: parity of y, and x. */
  function ShortKey(key: seq<byte>): seq<byte>
    requires |key| == 65
  {
    [2 + key[64] % 2] + key[1..33]
  }

  /** Decompression yields 65-byte keys and recovers a valid key from its x and the parity of its y. */
  ghost predicate Recovers(curve: Curve) {
    && (forall v :: curve.decompress(v).Some? ==> |curve.decompress(v).value| == 65)
    && forall key :: |key| == 65 && key[0] == 4 && curve.valid(key) ==> curve.decompress(ShortKey(key)) == Some(key)
  }

  // ----- The payment scripts

  function PayToKeyHash(h: seq<byte>): Script {
    [OP_DUP, OP_HASH160, 20] + h + [OP_EQUALVERIFY, OP_CHECKSIG]
  }

  function PayToScriptHash(h: seq<byte>): Script {
    [OP_HASH160, 20] + h + [OP_EQUAL]
  }

  function PayToPubKey(key: seq<byte>): Script
    requires |key| < 256
  {
    [|key| as byte] + key + [OP_CHECKSIG]
  }

  /** The compact form of a script that has one. */
  ghost predicate CompressesTo(script: Script, out: seq<byte>, curve: Curve) {
    || (exists h :: |h| == 20 && script == PayToKeyHash(h) && out == [0] + h)
    || (exists h :: |h| == 20 && script == PayToScriptHash(h) && out == [1] + h)
    || (exists key :: |key| == 33 && key[0] in {2, 3} && script == PayToPubKey(key) && out == key)
    || (exists key ::
          && |key| == 65 && key[0] == 4 && curve.valid(key) && script == PayToPubKey(key)
          && out == [4 + key[64] % 2] + key[1..33])
  }

  /** The script that a special code and its payload stand for; nothing when the key cannot be recovered. */
  function Expanded(nSize: nat, payload: seq<byte>, curve: Curve): Option<Script>
    requires nSize < SPECIAL_SCRIPTS ==> |payload| == SpecialSize(nSize)
  {
    if nSize >= SPECIAL_SCRIPTS then None
    else if nSize == 0 then Some(PayToKeyHash(payload))
    else if nSize == 1 then Some(PayToScriptHash(payload))
    else if nSize <= 3 then Some(PayToPubKey([nSize as byte] + payload))
    else
      match curve.decompress([(nSize - 2) as byte] + payload)
      case Some(key) => if |key| == 65 then Some(PayToPubKey(key)) else None
      case None => None
  }

  function SpecialSize(nSize: nat): nat {
    if nSize <= 1 then 20 else if nSize <= 5 then 32 else 0
  }

  // ----- The code

  predicate IsToKeyID(script: Script) {
    |script| == 25 && script[0] == OP_DUP && script[1] == OP_HASH160 && script[2] == 20 &&
        script[23] == OP_EQUALVERIFY && script[24] == OP_CHECKSIG
  }

  predicate IsToScriptID(script: Script) {
    |script| == 23 && script[0] == OP_HASH160 && script[1] == 20 && script[22] == OP_EQUAL
  }

  /** The public key a script pays to, with the tests of IsToPubKey. */
  function PubKeyOf(script: Script, curve: Curve): Option<seq<byte>> {
    if |script| == 35 && script[0] == 33 && script[34] == OP_CHECKSIG && (script[1] == 2 || script[1] == 3)
      then Some(script[1..34])
    else if |script| == 67 && script[0] == 65 && script[66] == OP_CHECKSIG && script[1] == 4 &&
        curve.valid(script[1..66]) then Some(script[1..66])
    else None
  }

  lemma {:induction false} KeyHashScripts(script: Script)
    ensures IsToKeyID(script) ==> script == PayToKeyHash(script[3..23])
    ensures forall h :: |h| == 20 && script == PayToKeyHash(h) ==> IsToKeyID(script) && h == script[3..23]
  {
  }

  lemma {:induction false} ScriptHashScripts(script: Script)
    ensures IsToScriptID(script) ==> script == PayToScriptHash(script[2..22])
    ensures forall h :: |h| == 20 && script == PayToScriptHash(h) ==> IsToScriptID(script) && h == script[2..22]
  {
  }

  lemma {:induction false} PubKeyScripts(script: Script, curve: Curve)
    ensures PubKeyOf(script, curve).Some? ==> script == PayToPubKey(PubKeyOf(script, curve).value)
    ensures forall key :: |key| == 33 && key[0] in {2, 3} && script == PayToPubKey(key) ==>
            PubKeyOf(script, curve) == Some(key)
    ensures forall key :: |key| == 65 && key[0] == 4 && curve.valid(key) && script == PayToPubKey(key) ==>
            PubKeyOf(script, curve) == Some(key)
  {
  }

  /** What the tests of the code decide about a compact form. */
  lemma {:induction false} CompressesIff(script: Script, out: seq<byte>, curve: Curve)
    ensures CompressesTo(script, out, curve) <==>
            || (IsToKeyID(script) && out == [0] + script[3..23])
            || (IsToScriptID(script) && out == [1] + script[2..22])
            || (PubKeyOf(script, curve) == Some(out) && |out| == 33)
            || (PubKeyOf(script, curve).Some? && |PubKeyOf(script, curve).value| == 65 &&
                var key := PubKeyOf(script, curve).value; out == [4 + key[64] % 2] + key[1..33])
  {
    KeyHashScripts(script);
    ScriptHashScripts(script);
    PubKeyScripts(script, curve);
    PubKeySizes(script, curve);
    hide PayToKeyHash, PayToScriptHash, PayToPubKey, IsToKeyID, IsToScriptID, PubKeyOf;
    var key := PubKeyOf(script, curve);
    if IsToKeyID(script) {
      assert |script[3..23]| == 20;
    }
    if IsToScriptID(script) {
      assert |script[2..22]| == 20;
    }
  }

  lemma {:induction false} PubKeySizes(script: Script, curve: Curve)
    ensures IsToKeyID(script) ==> |script| == 25
    ensures IsToScriptID(script) ==> |script| == 23
    ensures var key := PubKeyOf(script, curve);
            key.Some? ==> || (|key.value| == 33 && key.value[0] in {2, 3})
                          || (|key.value| == 65 && key.value[0] == 4 && curve.valid(key.value))
  {
  }

  /** The compact forms byte by byte: a code and the payload that the standard script carries. */
  lemma {:induction false} CompactFormsAre(script: Script, out: seq<byte>, curve: Curve)
    ensures CompressesTo(script, out, curve) <==>
            || (|script| == 25 && script[0] == 0x76 && script[1] == 0xa9 && script[2] == 20 &&
                script[23] == 0x88 && script[24] == 0xac && out == [0] + script[3..23])
            || (|script| == 23 && script[0] == 0xa9 && script[1] == 20 && script[22] == 0x87 &&
                out == [1] + script[2..22])
            || (|script| == 35 && script[0] == 33 && script[1] in {2, 3} && script[34] == 0xac && out == script[1..34])
            || (|script| == 67 && script[0] == 65 && script[1] == 4 && script[66] == 0xac &&
                curve.valid(script[1..66]) && out == [4 + script[65] % 2] + script[2..34])
  {
    hide CompressesTo;
    CompressesIff(script, out, curve);
    if |script| == 67 {
      SliceOfSlice(script, 1, 66, 1, 33);
      assert script[1..66][64] == script[65];
    }
  }

  lemma {:induction false} SliceOfSlice(s: seq<byte>, a: nat, b: nat, c: nat, d: nat)
    requires a <= b <= |s| && c <= d <= b - a
    ensures s[a..b][c..d] == s[a + c..a + d]
  {
    forall i | 0 <= i < d - c ensures s[a..b][c..d][i] == s[a + c..a + d][i] {
    }
  }

  class ScriptCompressor {
    var script: Script
    const curve: Curve

    constructor (script: Script, curve: Curve)
      ensures this.script == script && this.curve == curve
    {
      this.script, this.curve := script, curve;
    }

    method Compress() returns (out: Option<seq<byte>>)
      ensures out.Some? ==> CompressesTo(script, out.value, curve)
      ensures out == None ==> forall bytes :: !CompressesTo(script, bytes, curve)
    {
      hide CompressesTo, IsToKeyID, IsToScriptID, PubKeyOf;
      PubKeySizes(script, curve);
      forall bytes {
        CompressesIff(script, bytes, curve);
      }
      if IsToKeyID(script) {
        return Some([0] + script[3..23]);
      }
      if IsToScriptID(script) {
        return Some([1] + script[2..22]);
      }
      var key := PubKeyOf(script, curve);
      if key.Some? {
        if key.value[0] == 2 || key.value[0] == 3 {
          assert [key.value[0]] + key.value[1..33] == key.value;
          return Some([key.value[0]] + key.value[1..33]);
        }
        return Some([4 + key.value[64] % 2] + key.value[1..33]);
      }
      return None;
    }

    method Decompress(nSize: nat, payload: seq<byte>) returns (ok: bool)
      requires nSize < SPECIAL_SCRIPTS ==> |payload| == SpecialSize(nSize)
      requires Recovers(curve)
      modifies this`script
      ensures ok <==> Expanded(nSize, payload, curve).Some?
      ensures script == if ok then Expanded(nSize, payload, curve).value else old(script)
    {
      if nSize == 0 {
        script := [OP_DUP, OP_HASH160, 20] + payload + [OP_EQUALVERIFY, OP_CHECKSIG];
      } else if nSize == 1 {
        script := [OP_HASH160, 20] + payload + [OP_EQUAL];
      } else if nSize == 2 || nSize == 3 {
        script := [33, nSize as byte] + payload + [OP_CHECKSIG];
        assert script == PayToPubKey([nSize as byte] + payload);
      } else if nSize == 4 || nSize == 5 {
        var key := curve.decompress([(nSize - 2) as byte] + payload);
        if key == None {
          return false;
        }
        assert |key.value| == 65;
        script := [65] + key.value + [OP_CHECKSIG];
      } else {
        return false;
      }
      return true;
    }

    method GetSerializeSize() returns (n: nat)
      ensures exists bytes :: SerializesTo(script, bytes, curve) && n == |bytes| % UINT
    {
      hide CompressesTo, Encoding;
      var compr := Compress();
      if compr.Some? {
        assert SerializesTo(script, compr.value, curve);
        return |compr.value| % UINT;
      }
      var nSize := (|script| + SPECIAL_SCRIPTS) % UINT;
      n := GetSizeOfVarInt(nSize);
      assert SerializesTo(script, Encoding(nSize) + script, curve);
      return (|script| + n) % UINT;
    }

    method Serialize(s: seq<byte>) returns (written: seq<byte>)
      ensures exists bytes :: SerializesTo(script, bytes, curve) && written == s + bytes
    {
      var compr := Compress();
      if compr.Some? {
        assert SerializesTo(script, compr.value, curve);
        return s + compr.value;
      }
      var nSize := (|script| + SPECIAL_SCRIPTS) % UINT;
      UintBits();
      written := WriteVarInt(s, nSize, 32);
      written := written + script;
      assert SerializesTo(script, Encoding(nSize) + script, curve);
      assert written == s + (Encoding(nSize) + script);
    }

    /** Reads a script from a stream and says what is left of the stream; nothing when the stream ends too early. */
    method Unserialize(s: seq<byte>) returns (left: Option<seq<byte>>)
      requires Recovers(curve)
      modifies this`script
      ensures left.Some? ==> UnserializesTo(s, old(script), curve, script, left.value)
      ensures left == None ==> forall after, rest :: !UnserializesTo(s, old(script), curve, after, rest)
      ensures left == None ==> script == old(script) || ResizedFor(s, old(script), script)
    {
      var size := ReadVarInt(s, UINT);
      if size == None {
        NothingToRead(s);
        return None;
      }
      var nSize, rest := size.value.0, size.value.1;
      SizeIsUnique(s, nSize, rest);
      if nSize < SPECIAL_SCRIPTS {
        var special := GetSpecialSize(nSize);
        if |rest| < special {
          return None;
        }
        var decompressed := Decompress(nSize, rest[..special]);
        return Some(rest[special..]);
      }
      script := Resized(script, nSize - SPECIAL_SCRIPTS);
      if |rest| < nSize - SPECIAL_SCRIPTS {
        return None;
      }
      script := rest[..nSize - SPECIAL_SCRIPTS];
      return Some(rest[nSize - SPECIAL_SCRIPTS..]);
    }
  }

  /** The payload length: one byte less than every compact form with this code, and nothing for other codes. */
  method GetSpecialSize(nSize: nat) returns (size: nat)
    ensures size == SpecialSize(nSize)
    ensures forall script, out, curve :: CompressesTo(script, out, curve) && out != [] && out[0] as int == nSize ==>
            |out| == 1 + size
    ensures size == 0 <==> nSize >= SPECIAL_SCRIPTS
  {
    forall script, out, curve | CompressesTo(script, out, curve) && out != [] && out[0] as int == nSize
      ensures |out| == 1 + SpecialSize(nSize) {
      CodeTellsLength(script, out, curve);
    }
    if nSize == 0 || nSize == 1 {
      return 20;
    }
    if nSize == 2 || nSize == 3 || nSize == 4 || nSize == 5 {
      return 32;
    }
    return 0;
  }

  // ----- What is written and what is read

  ghost predicate SerializesTo(script: Script, bytes: seq<byte>, curve: Curve) {
    || CompressesTo(script, bytes, curve)
    || ((forall out :: !CompressesTo(script, out, curve)) &&
        bytes == Encoding((|script| + SPECIAL_SCRIPTS) % UINT) + script)
  }

  function Resized(s: Script, n: nat): Script {
    if n <= |s| then s[..n] else s + seq(n - |s|, i => 0)
  }

  /** The script has the length that the stream announced and then failed to deliver. */
  ghost predicate ResizedFor(s: seq<byte>, before: Script, after: Script) {
    exists nSize: nat, rest :: Reads(s, UINT, nSize, rest) && nSize >= SPECIAL_SCRIPTS &&
        after == Resized(before, nSize - SPECIAL_SCRIPTS)
  }

  lemma {:induction false} CodeTellsLength(script: Script, out: seq<byte>, curve: Curve)
    requires CompressesTo(script, out, curve)
    ensures out != [] && out[0] as int < SPECIAL_SCRIPTS && |out| == 1 + SpecialSize(out[0] as int)
  {
  }

  /** What is made of a size and the bytes after it. */
  ghost predicate Takes(nSize: nat, rest: seq<byte>, before: Script, curve: Curve, after: Script, left: seq<byte>) {
    if nSize < SPECIAL_SCRIPTS then
      && |rest| >= SpecialSize(nSize) && left == rest[SpecialSize(nSize)..]
      && after ==
           (match Expanded(nSize, rest[..SpecialSize(nSize)], curve) case Some(script) => script case None => before)
    else
      && |rest| >= nSize - SPECIAL_SCRIPTS && left == rest[nSize - SPECIAL_SCRIPTS..] &&
           after == rest[..nSize - SPECIAL_SCRIPTS]
  }

  ghost predicate UnserializesTo(s: seq<byte>, before: Script, curve: Curve, after: Script, left: seq<byte>) {
    exists nSize: nat, rest :: Reads(s, UINT, nSize, rest) && Takes(nSize, rest, before, curve, after, left)
  }

  lemma {:induction false} UintBits()
    ensures Power(2, 32) == UINT && IsModulus(UINT)
  {
    Power2Step(32);
    Power2Step(25);
    Power2Step(18);
    Power2Step(11);
    assert Power(2, 4) == 2 * Power(2, 3) && Power(2, 3) == 2 * Power(2, 2) && Power(2, 2) == 2 * Power(2, 1) &&
           Power(2, 1) == 2 * Power(2, 0);
  }

  lemma {:induction false} NothingToRead(s: seq<byte>)
    requires AllContinue(s)
    ensures forall n: nat, rest :: !Reads(s, UINT, n, rest)
  {
  }

  lemma {:induction false} SizeIsUnique(s: seq<byte>, nSize: nat, rest: seq<byte>)
    requires Reads(s, UINT, nSize, rest)
    ensures forall n: nat, r :: Reads(s, UINT, n, r) ==> n == nSize && r == rest
  {
    var k :| 0 < k <= |s| && WellFormed(s[..k]) && nSize == Denotes(s[..k]) % UINT && rest == s[k..];
    forall n: nat, r | Reads(s, UINT, n, r) ensures n == nSize && r == rest {
      var j :| 0 < j <= |s| && WellFormed(s[..j]) && n == Denotes(s[..j]) % UINT && r == s[j..];
      OnePrefix(s, j, k);
    }
  }

  ghost predicate IsCompact(script: Script, out: seq<byte>, curve: Curve) {
    && out != [] && out[0] as int < SPECIAL_SCRIPTS && |out| == 1 + SpecialSize(out[0] as int)
    && Expanded(out[0] as int, out[1..], curve) == Some(script)
  }

  lemma {:induction false} HashFormsExpand(h: seq<byte>, curve: Curve)
    requires |h| == 20
    ensures IsCompact(PayToKeyHash(h), [0] + h, curve) && IsCompact(PayToScriptHash(h), [1] + h, curve)
  {
    assert ([0] + h)[1..] == h && ([1] + h)[1..] == h;
  }

  lemma {:induction false} ShortKeyFormExpands(key: seq<byte>, curve: Curve)
    requires |key| == 33 && key[0] in {2, 3}
    ensures IsCompact(PayToPubKey(key), key, curve)
  {
    assert [key[0]] + key[1..] == key;
  }

  lemma {:induction false} LongKeyFormExpands(key: seq<byte>, curve: Curve)
    requires Recovers(curve) && |key| == 65 && key[0] == 4 && curve.valid(key)
    ensures IsCompact(PayToPubKey(key), [4 + key[64] % 2] + key[1..33], curve)
  {
    var out := [4 + key[64] % 2] + key[1..33];
    assert out[1..] == key[1..33];
    assert [((out[0] as int) - 2) as byte] + out[1..] == ShortKey(key);
  }

  /** A compact form begins with its special code, and the code and the payload stand for the script. */
  lemma {:induction false} CompactFormExpands(script: Script, out: seq<byte>, curve: Curve)
    requires CompressesTo(script, out, curve) && Recovers(curve)
    ensures out != [] && out[0] as int < SPECIAL_SCRIPTS && |out| == 1 + SpecialSize(out[0] as int)
    ensures Expanded(out[0] as int, out[1..], curve) == Some(script)
  {
    if h :|
      |h| == 20 && ((script == PayToKeyHash(h) && out == [0] + h) || (script == PayToScriptHash(h) && out == [1] + h)) {
      HashFormsExpand(h, curve);
    } else if key :| |key| == 33 && key[0] in {2, 3} && script == PayToPubKey(key) && out == key {
      ShortKeyFormExpands(key, curve);
    } else {
      var key :| |key| == 65 && key[0] == 4 && curve.valid(key) && script == PayToPubKey(key) &&
          out == [4 + key[64] % 2] + key[1..33];
      LongKeyFormExpands(key, curve);
    }
  }

  /** Reading what was written gives the script back and leaves whatever follows, exactly when the length with
      the special codes added fits an unsigned int. */
  lemma {:induction false} UnserializeInvertsSerialize(script: Script, bytes: seq<byte>, tail: seq<byte>,
                                                       before: Script, curve: Curve)
    requires Recovers(curve) && SerializesTo(script, bytes, curve)
    ensures UnserializesTo(bytes + tail, before, curve, script, tail) <==> |script| + SPECIAL_SCRIPTS < UINT
    ensures |script| + SPECIAL_SCRIPTS < UINT ==>
              forall after, left :: UnserializesTo(bytes + tail, before, curve, after, left) ==>
                  after == script && left == tail
  {
    hide CompressesTo, UnserializesTo, Takes, Recovers, Encoding;
    if CompressesTo(script, bytes, curve) {
      CompactFormExpands(script, bytes, curve);
      CompactReads(bytes, tail);
      assert (bytes[1..] + tail)[..|bytes| - 1] == bytes[1..] && (bytes[1..] + tail)[|bytes| - 1..] == tail;
      CompactTakes(script, bytes[0] as int, bytes[1..] + tail, tail, before, curve);
      UnserializesAsTaken(bytes + tail, bytes[0] as int, bytes[1..] + tail, before, curve);
    } else {
      var nSize := (|script| + SPECIAL_SCRIPTS) % UINT;
      assert bytes + tail == Encoding(nSize) + (script + tail);
      RawReads(nSize, script + tail);
      RawTakes(script, tail, before, curve, nSize);
      UnserializesAsTaken(bytes + tail, nSize, script + tail, before, curve);
    }
  }

  lemma {:induction false} UnserializesAsTaken(s: seq<byte>, nSize: nat, rest: seq<byte>, before: Script, curve: Curve)
    requires Reads(s, UINT, nSize, rest)
    ensures forall after, left :: UnserializesTo(s, before, curve, after, left) <==>
            Takes(nSize, rest, before, curve, after, left)
  {
    SizeIsUnique(s, nSize, rest);
    hide Reads, Takes;
  }

  lemma {:induction false} CompactTakes(script: Script, code: nat, rest: seq<byte>, tail: seq<byte>, before: Script,
                                        curve: Curve)
    requires code < SPECIAL_SCRIPTS && |rest| == SpecialSize(code) + |tail| && rest[SpecialSize(code)..] == tail
    requires Expanded(code, rest[..SpecialSize(code)], curve) == Some(script)
    ensures forall after, left :: Takes(code, rest, before, curve, after, left) <==> after == script && left == tail
  {
  }

  lemma {:induction false} CompactReads(bytes: seq<byte>, tail: seq<byte>)
    requires bytes != [] && bytes[0] as int < SPECIAL_SCRIPTS
    ensures Reads(bytes + tail, UINT, bytes[0] as int, bytes[1..] + tail)
  {
    var code := bytes[0] as int;
    assert Encoding(code) == [bytes[0]];
    assert bytes + tail == Encoding(code) + (bytes[1..] + tail);
    RawReads(code, bytes[1..] + tail);
  }

  lemma {:induction false} RawReads(nSize: nat, rest: seq<byte>)
    requires nSize < UINT
    ensures Reads(Encoding(nSize) + rest, UINT, nSize, rest)
  {
    SmallRemainder(nSize, UINT);
    ReadInvertsWrite(nSize, rest, UINT, nSize, rest);
  }

  lemma {:induction false} RawTakes(script: Script, tail: seq<byte>, before: Script, curve: Curve, nSize: nat)
    requires nSize == (|script| + SPECIAL_SCRIPTS) % UINT
    ensures Takes(nSize, script + tail, before, curve, script, tail) <==> |script| + SPECIAL_SCRIPTS < UINT
    ensures |script| + SPECIAL_SCRIPTS < UINT ==>
              forall after, left :: Takes(nSize, script + tail, before, curve, after, left) ==>
                  after == script && left == tail
  {
  }
}
