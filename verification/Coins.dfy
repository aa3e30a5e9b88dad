/** The record kept of a transaction's unspent outputs, `CCoins`: its bit mask, its compact form
    in bytes, and reading that form back. */
module Coins {
  import opened Basics
  import opened Amount
  import VarInt

  // Outputs

  /** `CTxOut`; a value of -1 marks a spent output. */
  datatype TxOut = TxOut(value: int, script: seq<Byte>)

  const NULL_OUT := TxOut(-1, [])

  predicate IsNull(out: TxOut) {
    out.value == -1
  }

  /** What the elliptic curve library answers: whether an uncompressed public key is valid, and the
      uncompressed form of a compressed one. */
  datatype Curve = Curve(valid: seq<Byte> -> bool, expand: seq<Byte> -> Option<seq<Byte>>)

  /** The compressed form of a public key: the parity of its second coordinate and the first. */
  function Compressed(key: seq<Byte>): seq<Byte>
    requires |key| == 65
  {
    [2 + key[64] % 2] + key[1..33]
  }

  /** Valid keys survive compression. */
  ghost predicate CurveOk(curve: Curve) {
    forall key: seq<Byte> :: |key| == 65 && key[0] == 4 && curve.valid(key) ==>
        curve.expand(Compressed(key)) == Some(key)
  }

  // Scripts

  const OP_DUP: Byte := 0x76
  const OP_HASH160: Byte := 0xa9
  const OP_EQUAL: Byte := 0x87
  const OP_EQUALVERIFY: Byte := 0x88
  const OP_CHECKSIG: Byte := 0xac
  const SPECIAL_SCRIPTS := 6

  predicate IsToKeyId(s: seq<Byte>) {
    |s| == 25 && s[0] == OP_DUP && s[1] == OP_HASH160 && s[2] == 20 && s[23] == OP_EQUALVERIFY && s[24] == OP_CHECKSIG
  }

  predicate IsToScriptId(s: seq<Byte>) {
    |s| == 23 && s[0] == OP_HASH160 && s[1] == 20 && s[22] == OP_EQUAL
  }

  predicate IsToCompressedKey(s: seq<Byte>) {
    |s| == 35 && s[0] == 33 && s[34] == OP_CHECKSIG && (s[1] == 2 || s[1] == 3)
  }

  predicate IsToKey(s: seq<Byte>, curve: Curve) {
    |s| == 67 && s[0] == 65 && s[66] == OP_CHECKSIG && s[1] == 4 && curve.valid(s[1..66])
  }

  /** `Compress`: a type byte and the part of the script that varies. */
  function CompressScript(s: seq<Byte>, curve: Curve): Option<seq<Byte>> {
    if IsToKeyId(s) then Some([0] + s[3..23])
    else if IsToScriptId(s) then Some([1] + s[2..22])
    else if IsToCompressedKey(s) then Some([s[1]] + s[2..34])
    else if IsToKey(s, curve) then Some([4 + s[65] % 2] + s[2..34])
    else None
  }

  /** `GetSpecialSize`. */
  function SpecialSize(kind: nat): nat {
    if kind <= 1 then 20 else if kind <= 5 then 32 else 0
  }

  /** `Decompress`; a key that cannot be expanded leaves the script as it was, empty. */
  function DecompressScript(kind: nat, data: seq<Byte>, curve: Curve): seq<Byte>
    requires kind < SPECIAL_SCRIPTS && |data| == SpecialSize(kind)
  {
    if kind == 0 then [OP_DUP, OP_HASH160, 20] + data + [OP_EQUALVERIFY, OP_CHECKSIG]
    else if kind == 1 then [OP_HASH160, 20] + data + [OP_EQUAL]
    else if kind <= 3 then [33, kind] + data + [OP_CHECKSIG]
    else
      match curve.expand([kind - 2] + data)
      case None => []
      case Some(key) => [65] + key + [OP_CHECKSIG]
  }

  function EncodeScript(s: seq<Byte>, curve: Curve): seq<Byte> {
    match CompressScript(s, curve)
    case Some(special) => special
    case None => VarInt.Encode(|s| + SPECIAL_SCRIPTS) + s
  }

  lemma SmallEncode(kind: Byte)
    requires kind < 128
    ensures VarInt.Encode(kind) == [kind]
  {
    assert VarInt.Lead(0) == [];
  }

  /** A special script is a kind below six, in one byte, and data of the size that goes with it. */
  lemma SpecialOk(s: seq<Byte>, curve: Curve)
    requires CurveOk(curve) && CompressScript(s, curve).Some?
    ensures var out := CompressScript(s, curve).value;
            && |out| >= 1 && out[0] < SPECIAL_SCRIPTS && |out| == 1 + SpecialSize(out[0])
            && DecompressScript(out[0], out[1..], curve) == s
  {
    var out := CompressScript(s, curve).value;
    var kind, data := out[0], out[1..];
    if IsToKeyId(s) {
      assert s == [s[0], s[1], s[2]] + s[3..23] + [s[23], s[24]];
    } else if IsToScriptId(s) {
      assert s == [s[0], s[1]] + s[2..22] + [s[22]];
    } else if IsToCompressedKey(s) {
      assert s == [s[0], s[1]] + s[2..34] + [s[34]];
    } else {
      var key := s[1..66];
      assert forall i :: 0 <= i < 32 ==> key[1..33][i] == s[2..34][i];
      assert key[64] == s[65] && key[1..33] == s[2..34];
      assert curve.expand(Compressed(key)) == Some(key);
      assert [kind - 2] + data == Compressed(key);
      assert s == [s[0]] + key + [s[66]];
    }
  }

  /** Reading a script. */
  method ReadScript(input: seq<Byte>, curve: Curve) returns (ok: bool, s: seq<Byte>, rest: seq<Byte>)
    requires CurveOk(curve)
    ensures forall t, tail :: input == EncodeScript(t, curve) + tail ==> ok && s == t && rest == tail
  {
    var kind;
    s := [];
    ok, kind, rest := VarInt.Read(input);
    ghost var before := rest;
    forall t, tail | input == EncodeScript(t, curve) + tail
      ensures ok && ScriptParts(t, tail, curve, kind, rest)
    {
      ScriptStart(t, tail, curve, ok, kind, rest, input);
    }
    if !ok {
      return;
    }
    var size := if kind < SPECIAL_SCRIPTS then SpecialSize(kind) else kind - SPECIAL_SCRIPTS;
    if |rest| < size {
      return false, s, rest;
    }
    s := if kind < SPECIAL_SCRIPTS then DecompressScript(kind, rest[..size], curve) else rest[..size];
    rest := rest[size..];
    forall t, tail | input == EncodeScript(t, curve) + tail
      ensures s == t && rest == tail
    {
      assert ScriptParts(t, tail, curve, kind, before);
    }
  }

  /** What is left to read of a script once its kind or size is known. */
  ghost predicate ScriptParts(t: seq<Byte>, tail: seq<Byte>, curve: Curve, kind: nat, rest: seq<Byte>) {
    var size := if kind < SPECIAL_SCRIPTS then SpecialSize(kind) else kind - SPECIAL_SCRIPTS;
    && |rest| >= size
    && rest[size..] == tail
    && t == if kind < SPECIAL_SCRIPTS then DecompressScript(kind, rest[..size], curve) else rest[..size]
  }

  lemma ScriptStart(t: seq<Byte>, tail: seq<Byte>, curve: Curve, ok: bool, kind: nat, rest: seq<Byte>, input: seq<Byte>)
    requires CurveOk(curve) && input == EncodeScript(t, curve) + tail
    requires ok ==> input == VarInt.Encode(kind) + rest
    requires !ok ==> forall m: nat, more: seq<Byte> :: input != VarInt.Encode(m) + more
    ensures ok && ScriptParts(t, tail, curve, kind, rest)
  {
    if CompressScript(t, curve).Some? {
      var out := CompressScript(t, curve).value;
      SpecialOk(t, curve);
      SmallEncode(out[0]);
      hide CompressScript, DecompressScript, CurveOk, VarInt.Encode;
      assert out == [out[0]] + out[1..];
      Associates([out[0]], out[1..], tail);
      VarInt.PrefixFree(out[0], out[1..] + tail, kind, rest);
      assert rest[..|out| - 1] == out[1..] && rest[|out| - 1..] == tail;
    } else {
      hide CompressScript, DecompressScript, CurveOk, VarInt.Encode;
      Associates(VarInt.Encode(|t| + SPECIAL_SCRIPTS), t, tail);
      VarInt.PrefixFree(|t| + SPECIAL_SCRIPTS, t + tail, kind, rest);
      assert rest[..|t|] == t && rest[|t|..] == tail;
    }
  }

  // Outputs in bytes

  /** A 64-bit pattern as a signed number. */
  function Signed(n: nat): int {
    if n < TWO_64 / 2 then n else n - TWO_64
  }

  function EncodeOut(out: TxOut, curve: Curve): seq<Byte> {
    VarInt.Encode(Compress(out.value % TWO_64) % TWO_64) + EncodeScript(out.script, curve)
  }

  /** An output as it is read back. */
  function Restored(out: TxOut): TxOut {
    TxOut(Signed(Decompress(Compress(out.value % TWO_64) % TWO_64) % TWO_64), out.script)
  }

  /** The value is a signed 64-bit number. */
  predicate Representable(out: TxOut) {
    -TWO_64 <= 2 * out.value < TWO_64
  }

  /** Exactly the outputs whose compact amount fits survive. */
  lemma RestoredIff(out: TxOut)
    requires Representable(out)
    ensures Restored(out) == out <==> CompactFits(out.value % TWO_64)
  {
    hide Compress, Decompress;
    var n := out.value % TWO_64;
    CompactFitsIff(n);
    DecompressCompress(n);
    Fits(n);
    if CompactFits(n) {
      Fits(Compress(n));
    } else {
      WrappedIsLost(n);
    }
  }

  method WriteOut(out: TxOut, curve: Curve) returns (bytes: seq<Byte>)
    ensures bytes == EncodeOut(out, curve)
  {
    var x := CompressAmount(out.value % TWO_64);
    bytes := VarInt.Write(x);
    var special := CompressScript(out.script, curve);
    if special.Some? {
      bytes := bytes + special.value;
    } else {
      var size := VarInt.Write(|out.script| + SPECIAL_SCRIPTS);
      bytes := bytes + (size + out.script);
    }
  }

  method ReadOut(input: seq<Byte>, curve: Curve) returns (ok: bool, out: TxOut, rest: seq<Byte>)
    requires CurveOk(curve)
    ensures forall o, tail :: input == EncodeOut(o, curve) + tail ==> ok && out == Restored(o) && rest == tail
  {
    var x;
    out := NULL_OUT;
    ok, x, rest := VarInt.Read(input);
    forall o, tail | input == EncodeOut(o, curve) + tail
      ensures ok && x == Compress(o.value % TWO_64) % TWO_64 && rest == EncodeScript(o.script, curve) + tail
    {
      OutStart(o, tail, curve, ok, x, rest, input);
    }
    if !ok {
      return;
    }
    var value := DecompressAmount(x % TWO_64);
    var script;
    ok, script, rest := ReadScript(rest, curve);
    out := TxOut(Signed(value), script);
    forall o, tail | input == EncodeOut(o, curve) + tail
      ensures ok && out == Restored(o) && rest == tail
    {
      hide Compress, Decompress;
      Fits(x);
    }
  }

  lemma OutStart(o: TxOut, tail: seq<Byte>, curve: Curve, ok: bool, x: nat, rest: seq<Byte>, input: seq<Byte>)
    requires input == EncodeOut(o, curve) + tail
    requires ok ==> input == VarInt.Encode(x) + rest
    requires !ok ==> forall m: nat, more: seq<Byte> :: input != VarInt.Encode(m) + more
    ensures ok && x == Compress(o.value % TWO_64) % TWO_64 && rest == EncodeScript(o.script, curve) + tail
  {
    hide Compress, EncodeScript;
    var y := Compress(o.value % TWO_64) % TWO_64;
    assert input == VarInt.Encode(y) + (EncodeScript(o.script, curve) + tail);
    VarInt.PrefixFree(y, EncodeScript(o.script, curve) + tail, x, rest);
  }

  // The bit mask

  /** Output `k` is there and unspent. */
  predicate Unspent(vout: seq<TxOut>, k: nat) {
    k < |vout| && !IsNull(vout[k])
  }

  /** The output for which bit `p` of mask byte `b` stands is there and unspent. */
  predicate Masked(vout: seq<TxOut>, b: nat, p: nat) {
    Unspent(vout, 2 + b * 8 + p)
  }

  /** The first `i` bits of mask byte `b`. */
  function MaskBits(vout: seq<TxOut>, b: nat, i: nat): nat {
    if i == 0 then 0 else WithBit(MaskBits(vout, b, i - 1), i - 1, Masked(vout, b, i - 1))
  }

  lemma {:induction false} MaskBitsOk(vout: seq<TxOut>, b: nat, i: nat)
    ensures MaskBits(vout, b, i) < Pow2(i)
    ensures forall p :: 0 <= p < i ==> Bit(MaskBits(vout, b, i), p) == Masked(vout, b, p)
    ensures MaskBits(vout, b, i) != 0 <==> exists p :: 0 <= p < i && Masked(vout, b, p)
  {
    if i > 0 {
      var m, on := MaskBits(vout, b, i - 1), Masked(vout, b, i - 1);
      MaskBitsOk(vout, b, i - 1);
      WithBitSets(m, i - 1, on);
      forall p | 0 <= p < i - 1
        ensures Bit(MaskBits(vout, b, i), p) == Masked(vout, b, p)
      {
        WithBitKeeps(m, i - 1, on, p);
      }
    }
  }

  function MaskByte(vout: seq<TxOut>, b: nat): (r: Byte) {
    MaskByteBelow(vout, b);
    MaskBits(vout, b, 8)
  }

  lemma MaskByteBelow(vout: seq<TxOut>, b: nat)
    ensures MaskBits(vout, b, 8) < 256
  {
    MaskBitsOk(vout, b, 8);
    assert Pow2(2) == 4 && Pow2(4) == 16 && Pow2(6) == 64 && Pow2(8) == 256;
  }

  /** How many mask bytes the outputs would fill. */
  function Groups(vout: seq<TxOut>): nat {
    if |vout| <= 2 then 0 else (|vout| + 5) / 8
  }

  /** The mask bytes up to the last one that is not zero, among the first `g`. */
  function MaskSize(vout: seq<TxOut>, g: nat): (r: nat)
    ensures r <= g
    ensures r > 0 ==> MaskByte(vout, r - 1) != 0
    ensures forall b :: r <= b < g ==> MaskByte(vout, b) == 0
  {
    if g == 0 then 0 else if MaskByte(vout, g - 1) != 0 then g else MaskSize(vout, g - 1)
  }

  /** How many of the first `g` mask bytes are not zero. */
  function NonZero(vout: seq<TxOut>, g: nat): nat {
    if g == 0 then 0 else NonZero(vout, g - 1) + if MaskByte(vout, g - 1) != 0 then 1 else 0
  }

  lemma {:induction false} NonZeroAfter(vout: seq<TxOut>, a: nat, b: nat)
    requires a <= b
    ensures NonZero(vout, a) <= NonZero(vout, b)
    ensures (forall k :: a <= k < b ==> MaskByte(vout, k) == 0) ==> NonZero(vout, a) == NonZero(vout, b)
    decreases b
  {
    if a < b {
      NonZeroAfter(vout, a, b - 1);
    }
  }

  /** The inner loop of `CalcMaskSize`. */
  method GroupUsed(vout: seq<TxOut>, b: nat) returns (used: bool)
    ensures used <==> MaskByte(vout, b) != 0
  {
    used := false;
    var i := 0;
    while i < 8 && 2 + b * 8 + i < |vout|
      invariant 0 <= i <= 8 && (used <==> exists p :: 0 <= p < i && Masked(vout, b, p))
    {
      assert Masked(vout, b, i) == !IsNull(vout[2 + b * 8 + i]);
      if !IsNull(vout[2 + b * 8 + i]) {
        used := true;
      }
      i := i + 1;
    }
    MaskBitsOk(vout, b, 8);
  }

  /** `CalcMaskSize`. */
  method CalcMaskSize(vout: seq<TxOut>) returns (bytes: nat, nonZero: nat)
    ensures bytes == MaskSize(vout, Groups(vout)) && nonZero == NonZero(vout, Groups(vout))
  {
    bytes, nonZero := 0, 0;
    var b := 0;
    while 2 + b * 8 < |vout|
      invariant 0 <= b <= Groups(vout)
      invariant bytes == MaskSize(vout, b) && nonZero == NonZero(vout, b)
    {
      var used := GroupUsed(vout, b);
      if used {
        bytes, nonZero := b + 1, nonZero + 1;
      }
      b := b + 1;
    }
  }

  // Cleaning up

  /** Without the spent outputs at the end. */
  function Cleaned(vout: seq<TxOut>): (r: seq<TxOut>)
    ensures r == [] || !IsNull(r[|r| - 1])
  {
    if vout != [] && IsNull(vout[|vout| - 1]) then Cleaned(vout[..|vout| - 1]) else vout
  }

  function OutAt(vout: seq<TxOut>, k: nat): TxOut {
    if k < |vout| then vout[k] else NULL_OUT
  }

  /** Lists that differ only in empty outputs at the end clean up to the same. */
  lemma {:induction false} CleanedSame(a: seq<TxOut>, b: seq<TxOut>)
    requires forall k :: 0 <= k ==> OutAt(a, k) == OutAt(b, k)
    ensures Cleaned(a) == Cleaned(b)
    decreases |a| + |b|
  {
    if |a| > |b| {
      CleanedLess(a, b);
    } else if |a| < |b| {
      CleanedLess(b, a);
    } else {
      forall k | 0 <= k < |a|
        ensures a[k] == b[k]
      {
        assert OutAt(a, k) == OutAt(b, k);
      }
      assert a == b;
    }
  }

  lemma {:induction false} CleanedLess(a: seq<TxOut>, b: seq<TxOut>)
    requires |a| > |b| && forall k :: 0 <= k ==> OutAt(a, k) == OutAt(b, k)
    ensures Cleaned(a) == Cleaned(b)
    decreases |a| + |b|, 0
  {
    var most := a[..|a| - 1];
    assert OutAt(a, |a| - 1) == OutAt(b, |a| - 1);
    forall k | 0 <= k
      ensures OutAt(most, k) == OutAt(b, k)
    {
      assert OutAt(a, k) == OutAt(b, k);
    }
    CleanedSame(most, b);
  }

  /** Cleaning up takes spent outputs away and nothing else. */
  lemma {:induction false} CleanedPrefix(vout: seq<TxOut>)
    ensures Cleaned(vout) <= vout
    ensures forall k :: |Cleaned(vout)| <= k < |vout| ==> IsNull(vout[k])
  {
    if vout != [] && IsNull(vout[|vout| - 1]) {
      CleanedPrefix(vout[..|vout| - 1]);
    }
  }

  // The whole record in bytes

  datatype Record = Record(coinBase: bool, vout: seq<TxOut>, height: int, version: int)

  /** No output is unspent; such records are not written. */
  ghost predicate IsPruned(vout: seq<TxOut>) {
    forall k :: 0 <= k ==> !Unspent(vout, k)
  }

  /** The header code: coinbase flag, the first two outputs, and the number of mask bytes that are not
      zero, less one if neither of the first two outputs is unspent. */
  function Code(c: Record): int {
    var first, second := Unspent(c.vout, 0), Unspent(c.vout, 1);
    8 * (NonZero(c.vout, Groups(c.vout)) - if first || second then 0 else 1)
    + (if c.coinBase then 1 else 0) + (if first then 2 else 0) + (if second then 4 else 0)
  }

  function Mask(vout: seq<TxOut>, size: nat): seq<Byte> {
    seq(size, b requires 0 <= b < size => MaskByte(vout, b))
  }

  /** The unspent outputs from `k` on. */
  function EncodeOuts(vout: seq<TxOut>, k: nat, curve: Curve): seq<Byte>
    requires k <= |vout|
    decreases |vout| - k
  {
    if k == |vout| then [] else (if IsNull(vout[k]) then [] else EncodeOut(vout[k], curve)) + EncodeOuts(vout, k + 1,
        curve)
  }

  function Encoded(c: Record, curve: Curve): seq<Byte> {
    VarInt.EncodeSigned(c.version)
    + (VarInt.EncodeSigned(Code(c))
       + (Mask(c.vout, MaskSize(c.vout, Groups(c.vout)))
          + (EncodeOuts(c.vout, 0, curve)
             + VarInt.EncodeSigned(c.height))))
  }

  lemma {:induction false} SomeGroup(vout: seq<TxOut>, k: nat)
    requires k >= 2 && Unspent(vout, k)
    ensures (k - 2) / 8 < MaskSize(vout, Groups(vout)) && NonZero(vout, Groups(vout)) > 0
  {
    var b, p, g := (k - 2) / 8, (k - 2) % 8, Groups(vout);
    assert Masked(vout, b, p);
    MaskBitsOk(vout, b, 8);
    assert b < g;
    NonZeroAfter(vout, b + 1, g);
  }

  lemma CodeBits(n: int, flag: nat, first: nat, second: nat)
    requires n >= 0 && flag <= 1 && first <= 1 && second <= 1
    ensures var code := 8 * n + flag + 2 * first + 4 * second;
            && code % 2 == flag && code / 2 % 2 == first && code / 4 % 2 == second && code / 8 == n
            && (code / 2 % 4 != 0 <==> first == 1 || second == 1)
  {
  }

  lemma CodeOk(c: Record)
    requires !IsPruned(c.vout)
    ensures Code(c) >= 0
    ensures Code(c) % 2 == (if c.coinBase then 1 else 0)
    ensures Code(c) / 2 % 2 == (if Unspent(c.vout, 0) then 1 else 0)
    ensures Code(c) / 4 % 2 == (if Unspent(c.vout, 1) then 1 else 0)
    ensures Code(c) / 8 + (if Code(c) / 2 % 4 != 0 then 0 else 1) == NonZero(c.vout, Groups(c.vout))
  {
    var k :| 0 <= k && Unspent(c.vout, k);
    if k >= 2 {
      SomeGroup(c.vout, k);
    }
    var first, second := Unspent(c.vout, 0), Unspent(c.vout, 1);
    var n := NonZero(c.vout, Groups(c.vout)) - if first || second then 0 else 1;
    hide NonZero, Groups, Unspent;
    CodeBits(n, if c.coinBase then 1 else 0, if first then 1 else 0, if second then 1 else 0);
  }

  /** The mask byte loop of `Serialize`; every bit is set once, so or-ing it in is adding it. */
  method WriteMaskByte(vout: seq<TxOut>, b: nat) returns (byte: nat)
    ensures byte == MaskByte(vout, b)
  {
    byte := 0;
    var i := 0;
    while i < 8 && 2 + b * 8 + i < |vout|
      invariant 0 <= i <= 8 && byte == MaskBits(vout, b, i)
    {
      if !IsNull(vout[2 + b * 8 + i]) {
        byte := byte + Pow2(i);
      }
      i := i + 1;
    }
    NoMoreBits(vout, b, i);
  }

  lemma {:induction false} NoMoreBits(vout: seq<TxOut>, b: nat, i: nat)
    requires i <= 8 && (i < 8 ==> 2 + b * 8 + i >= |vout|)
    ensures MaskBits(vout, b, 8) == MaskBits(vout, b, i)
    decreases 8 - i
  {
    if i < 8 {
      NoMoreBits(vout, b, i + 1);
      assert !Masked(vout, b, i);
    }
  }

  /** The loop of `Serialize` over the outputs. */
  method WriteOuts(vout: seq<TxOut>, curve: Curve) returns (bytes: seq<Byte>)
    ensures bytes == EncodeOuts(vout, 0, curve)
  {
    bytes := [];
    hide EncodeOut;
    for i := 0 to |vout|
      invariant bytes + EncodeOuts(vout, i, curve) == EncodeOuts(vout, 0, curve)
    {
      var more := [];
      if !IsNull(vout[i]) {
        more := WriteOut(vout[i], curve);
      }
      assert bytes + (more + EncodeOuts(vout, i + 1, curve)) == (bytes + more) + EncodeOuts(vout, i + 1, curve);
      bytes := bytes + more;
    }
  }

  lemma MaskNext(vout: seq<TxOut>, b: nat)
    ensures Mask(vout, b + 1) == Mask(vout, b) + [MaskByte(vout, b)]
  {
  }

  /** The loop of `Serialize` over the mask bytes. */
  method WriteMask(vout: seq<TxOut>, size: nat) returns (mask: seq<Byte>)
    ensures mask == Mask(vout, size)
  {
    mask := [];
    hide MaskByte;
    for b := 0 to size
      invariant mask == Mask(vout, b)
    {
      var byte := WriteMaskByte(vout, b);
      MaskNext(vout, b);
      mask := mask + [byte];
    }
  }

  /** `Serialize`; the source asserts that some output is unspent. */
  method Serialize(c: Record, curve: Curve) returns (bytes: seq<Byte>)
    requires !IsPruned(c.vout)
    ensures bytes == Encoded(c, curve)
  {
    var size, nonZero := CalcMaskSize(c.vout);
    var first, second := Unspent(c.vout, 0), Unspent(c.vout, 1);
    CodeOk(c);
    var code := 8 * (nonZero - (if first || second then 0 else 1)) + (if c.coinBase then 1 else 0)
                + (if first then 2 else 0) + (if second then 4 else 0);
    assert code == Code(c);
    hide *;
    SerializedParts(c, curve);
    var version := VarInt.Write(c.version);
    var header := VarInt.Write(code);
    var mask := WriteMask(c.vout, size);
    var outs := WriteOuts(c.vout, curve);
    var height := VarInt.Write(c.height);
    bytes := version + (header + (mask + (outs + height)));
  }

  /** `GetSerializeSize`. */
  method GetSerializeSize(c: Record, curve: Curve) returns (size: nat)
    requires !IsPruned(c.vout)
    ensures size == |Encoded(c, curve)|
  {
    var maskSize, nonZero := CalcMaskSize(c.vout);
    var first, second := Unspent(c.vout, 0), Unspent(c.vout, 1);
    CodeOk(c);
    var code := 8 * (nonZero - (if first || second then 0 else 1)) + (if c.coinBase then 1 else 0)
                + (if first then 2 else 0) + (if second then 4 else 0);
    size := VarInt.Size(c.version);
    var part := VarInt.Size(code);
    size := size + part + maskSize;
    part := OutsSize(c.vout, curve);
    size := size + part;
    part := VarInt.Size(c.height);
    size := size + part;
  }

  method OutsSize(vout: seq<TxOut>, curve: Curve) returns (size: nat)
    ensures size == |EncodeOuts(vout, 0, curve)|
  {
    size := 0;
    for i := 0 to |vout|
      invariant size + |EncodeOuts(vout, i, curve)| == |EncodeOuts(vout, 0, curve)|
    {
      if !IsNull(vout[i]) {
        var part := OutSize(vout[i], curve);
        size := size + part;
      }
    }
  }

  method OutSize(out: TxOut, curve: Curve) returns (size: nat)
    ensures size == |EncodeOut(out, curve)|
  {
    var x := CompressAmount(out.value % TWO_64);
    size := VarInt.Size(x);
    var special := CompressScript(out.script, curve);
    if special.Some? {
      size := size + |special.value|;
    } else {
      var part := VarInt.Size(|out.script| + SPECIAL_SCRIPTS);
      size := size + |out.script| + part;
    }
  }

  // Reading

  /** What a written signed integer is read back as. */
  function ReadAs(n: int): nat {
    if n < 0 then n % 128 else n
  }

  lemma SignedIs(n: int)
    ensures VarInt.EncodeSigned(n) == VarInt.Encode(ReadAs(n))
  {
    assert VarInt.Lead(0) == [];
  }

  /** Read one integer of a stream that goes on. */
  method ReadInt(input: seq<Byte>, ghost valid: bool, ghost n: int, ghost tail: seq<Byte>)
    returns (ok: bool, m: nat, rest: seq<Byte>)
    requires valid ==> input == VarInt.EncodeSigned(n) + tail
    ensures valid ==> ok && m == ReadAs(n) && rest == tail
  {
    ok, m, rest := VarInt.Read(input);
    if valid {
      SignedIs(n);
      hide *;
      if ok {
        VarInt.PrefixFree(ReadAs(n), tail, m, rest);
      }
    }
  }

  function Flags(vout: seq<TxOut>, n: nat): seq<bool> {
    seq(n, k requires 0 <= k < n => Unspent(vout, k))
  }

  /** The eight flags of one mask byte. */
  method AddFlags(avail: seq<bool>, byte: nat) returns (more: seq<bool>)
    ensures |more| == |avail| + 8 && more[..|avail|] == avail
    ensures forall p :: 0 <= p < 8 ==> more[|avail| + p] == Bit(byte, p)
  {
    more := avail;
    for p := 0 to 8
      invariant |more| == |avail| + p && more[..|avail|] == avail
      invariant forall q :: 0 <= q < p ==> more[|avail| + q] == Bit(byte, q)
    {
      more := more + [Bit(byte, p)];
    }
  }

  lemma FlagsNext(vout: seq<TxOut>, b: nat, more: seq<bool>)
    requires |more| == 2 + 8 * (b + 1) && more[..2 + 8 * b] == Flags(vout, 2 + 8 * b)
    requires forall p :: 0 <= p < 8 ==> more[2 + 8 * b + p] == Bit(MaskByte(vout, b), p)
    ensures more == Flags(vout, 2 + 8 * (b + 1))
  {
    MaskBitsOk(vout, b, 8);
    forall k | 0 <= k < |more|
      ensures more[k] == Unspent(vout, k)
    {
      if k < 2 + 8 * b {
        assert more[k] == more[..2 + 8 * b][k];
      } else {
        var p := k - 2 - 8 * b;
        assert more[2 + 8 * b + p] == Bit(MaskByte(vout, b), p) == Masked(vout, b, p);
      }
    }
  }

  /** The mask still to be read after `b` bytes. */
  ghost predicate MaskLeft(vout: seq<TxOut>, size: nat, b: nat, left: nat, rest: seq<Byte>, tail: seq<Byte>) {
    && b <= size
    && rest == Mask(vout, size)[b..] + tail
    && left == NonZero(vout, size) - NonZero(vout, b)
    && (size > 0 ==> MaskByte(vout, size - 1) != 0)
  }

  lemma MaskLeftNext(vout: seq<TxOut>, size: nat, b: nat, left: nat, rest: seq<Byte>, tail: seq<Byte>)
    requires MaskLeft(vout, size, b, left, rest, tail)
    ensures left > 0 <==> b < size
    ensures b == size ==> rest == tail
    ensures b < size ==> rest != [] && rest[0] == MaskByte(vout, b)
    ensures b < size ==> MaskLeft(vout, size, b + 1, left - (if rest[0] != 0 then 1 else 0), rest[1..], tail)
  {
    if b < size {
      NonZeroAfter(vout, b, size - 1);
      NonZeroAfter(vout, b + 1, size);
      assert Mask(vout, size)[b..] == [MaskByte(vout, b)] + Mask(vout, size)[b + 1..];
      assert rest[1..] == Mask(vout, size)[b + 1..] + tail;
    } else {
      assert Mask(vout, size)[b..] == [];
    }
  }

  /** The loop of `Unserialize` over the mask: it ends with the last byte that is not zero. */
  method ReadMask(input: seq<Byte>, first: seq<bool>, count: nat, ghost valid: bool, ghost vout: seq<TxOut>,
                  ghost size: nat, ghost tail: seq<Byte>)
    returns (ok: bool, avail: seq<bool>, rest: seq<Byte>)
    requires valid ==> first == Flags(vout, 2) && MaskLeft(vout, size, 0, count, input, tail)
    ensures valid ==> ok && avail == Flags(vout, 2 + 8 * size) && rest == tail
  {
    ok, avail, rest := true, first, input;
    var left := count;
    ghost var b := 0;
    hide MaskLeft, Flags, MaskByte;
    if valid {
      MaskLeftNext(vout, size, b, left, rest, tail);
    }
    while left > 0
      invariant valid ==> avail == Flags(vout, 2 + 8 * b) && (left > 0 <==> b < size)
      invariant valid ==> MaskLeft(vout, size, b, left, rest, tail)
      decreases |rest|
    {
      if valid {
        MaskLeftNext(vout, size, b, left, rest, tail);
      }
      if rest == [] {
        return false, avail, rest;
      }
      var byte := rest[0];
      avail := AddFlags(avail, byte);
      if valid {
        FlagsSize(vout, 2 + 8 * b);
        FlagsNext(vout, b, avail);
      }
      rest := rest[1..];
      if byte != 0 {
        left := left - 1;
      }
      b := b + 1;
      if valid {
        MaskLeftNext(vout, size, b, left, rest, tail);
      }
    }
    if valid {
      MaskLeftNext(vout, size, b, left, rest, tail);
      MaskLeftBound(vout, size, b, left, rest, tail);
    }
  }

  lemma FlagsSize(vout: seq<TxOut>, n: nat)
    ensures |Flags(vout, n)| == n
  {
  }

  lemma MaskLeftBound(vout: seq<TxOut>, size: nat, b: nat, left: nat, rest: seq<Byte>, tail: seq<Byte>)
    requires MaskLeft(vout, size, b, left, rest, tail)
    ensures b <= size
  {
  }

  /** The flags tell all unspent outputs. */
  ghost predicate FlagsTell(vout: seq<TxOut>, avail: seq<bool>) {
    && avail == Flags(vout, |avail|)
    && (forall k :: |avail| <= k < |vout| ==> IsNull(vout[k]))
  }

  /** What is read at place `k`. */
  function RestoredAt(vout: seq<TxOut>, k: nat): TxOut {
    if Unspent(vout, k) then Restored(vout[k]) else NULL_OUT
  }

  function RestoredOuts(vout: seq<TxOut>): seq<TxOut> {
    seq(|vout|, k requires 0 <= k < |vout| => RestoredAt(vout, k))
  }

  ghost function OutsFrom(vout: seq<TxOut>, k: nat, curve: Curve): seq<Byte> {
    if k <= |vout| then EncodeOuts(vout, k, curve) else []
  }

  lemma OutsStep(vout: seq<TxOut>, avail: seq<bool>, k: nat, curve: Curve)
    requires FlagsTell(vout, avail) && k < |avail|
    ensures avail[k] ==> Unspent(vout, k)
    ensures avail[k] ==> OutsFrom(vout, k, curve) == EncodeOut(vout[k], curve) + OutsFrom(vout, k + 1, curve)
    ensures !avail[k] ==> OutsFrom(vout, k, curve) == OutsFrom(vout, k + 1, curve) && !Unspent(vout, k)
  {
    assert avail[k] == Unspent(vout, k);
    hide EncodeOut;
    if k < |vout| && IsNull(vout[k]) {
      assert EncodeOuts(vout, k, curve) == [] + EncodeOuts(vout, k + 1, curve);
    }
  }

  lemma {:induction false} OutsEnd(vout: seq<TxOut>, avail: seq<bool>, k: nat, curve: Curve)
    requires FlagsTell(vout, avail) && k >= |avail|
    ensures OutsFrom(vout, k, curve) == []
    decreases |vout| - k
  {
    if k < |vout| {
      OutsEnd(vout, avail, k + 1, curve);
    }
  }

  /** The loop of `Unserialize` over the outputs. */
  method ReadOuts(input: seq<Byte>, avail: seq<bool>, curve: Curve, ghost valid: bool, ghost vout: seq<TxOut>,
                  ghost tail: seq<Byte>)
    returns (ok: bool, outs: seq<TxOut>, rest: seq<Byte>)
    requires CurveOk(curve)
    requires valid ==> FlagsTell(vout, avail) && input == EncodeOuts(vout, 0, curve) + tail
    ensures valid ==> ok && rest == tail && |outs| == |avail| && forall k :: 0 <= k < |outs| ==>
            outs[k] == RestoredAt(vout, k)
  {
    ok, outs, rest := true, [], input;
    hide FlagsTell, EncodeOut, EncodeOuts, Restored, IsNull;
    if valid {
      OutsFromStart(vout, curve);
    }
    for i := 0 to |avail|
      invariant |outs| == i
      invariant valid ==> rest == OutsFrom(vout, i, curve) + tail
      invariant valid ==> forall k :: 0 <= k < i ==> outs[k] == RestoredAt(vout, k)
    {
      if valid {
        OutsStep(vout, avail, i, curve);
      }
      var out := NULL_OUT;
      if avail[i] {
        assert valid ==> rest == EncodeOut(vout[i], curve) + (OutsFrom(vout, i + 1, curve) + tail);
        ok, out, rest := ReadOut(rest, curve);
        if !ok {
          return;
        }
      }
      outs := outs + [out];
    }
    if valid {
      OutsEnd(vout, avail, |avail|, curve);
    }
  }

  lemma OutsFromStart(vout: seq<TxOut>, curve: Curve)
    ensures OutsFrom(vout, 0, curve) == EncodeOuts(vout, 0, curve)
  {
  }

  /** `Cleanup`. */
  method Cleanup(vout: seq<TxOut>) returns (clean: seq<TxOut>)
    ensures clean == Cleaned(vout)
  {
    clean := vout;
    while |clean| > 0 && IsNull(clean[|clean| - 1])
      invariant Cleaned(clean) == Cleaned(vout)
    {
      clean := clean[..|clean| - 1];
    }
  }

  /** The mask reaches all unspent outputs. */
  lemma MaskReaches(c: Record)
    requires !IsPruned(c.vout)
    ensures FlagsTell(c.vout, Flags(c.vout, 2 + 8 * MaskSize(c.vout, Groups(c.vout))))
    ensures NonZero(c.vout, MaskSize(c.vout, Groups(c.vout))) == NonZero(c.vout, Groups(c.vout))
  {
    var size := MaskSize(c.vout, Groups(c.vout));
    NonZeroAfter(c.vout, size, Groups(c.vout));
    forall k | 2 + 8 * size <= k < |c.vout|
      ensures IsNull(c.vout[k])
    {
      if !IsNull(c.vout[k]) {
        SomeGroup(c.vout, k);
        assert false;
      }
    }
  }

  /** `Unserialize`. */
  method Unserialize(input: seq<Byte>, curve: Curve, ghost valid: bool, ghost c: Record) returns (r: Option<Record>)
    requires CurveOk(curve)
    requires valid ==> !IsPruned(c.vout) && input == Encoded(c, curve)
    ensures valid ==> r == Some(Record(c.coinBase, Cleaned(RestoredOuts(c.vout)), ReadAs(c.height), ReadAs(c.version)))
  {
    ghost var size := MaskSize(c.vout, Groups(c.vout));
    ghost var outsPart := EncodeOuts(c.vout, 0, curve) + VarInt.EncodeSigned(c.height);
    ghost var maskPart := Mask(c.vout, size) + outsPart;
    if valid {
      CodeOk(c);
      MaskReaches(c);
      SerializedParts(c, curve);
    }
    hide *;
    var ok, version, code, rest;
    ok, version, rest := ReadInt(input, valid, c.version, VarInt.EncodeSigned(Code(c)) + maskPart);
    if !ok {
      return None;
    }
    ok, code, rest := ReadInt(rest, valid, Code(c), maskPart);
    if !ok {
      return None;
    }
    var count := code / 8 + if code / 2 % 4 != 0 then 0 else 1;
    var first := [code / 2 % 2 == 1, code / 4 % 2 == 1];
    if valid {
      HeaderRead(c, code, first, count, rest, size, outsPart);
    }
    var avail;
    ok, avail, rest := ReadMask(rest, first, count, valid, c.vout, size, outsPart);
    if !ok {
      return None;
    }
    var outs;
    ok, outs, rest := ReadOuts(rest, avail, curve, valid, c.vout, VarInt.EncodeSigned(c.height));
    if !ok {
      return None;
    }
    var height;
    if valid {
      NothingAfter(VarInt.EncodeSigned(c.height));
    }
    ok, height, rest := ReadInt(rest, valid, c.height, []);
    if !ok {
      return None;
    }
    var clean := Cleanup(outs);
    if valid {
      OutsCleaned(c, size, outs);
    }
    return Some(Record(code % 2 == 1, clean, height, version));
  }

  lemma NothingAfter(xs: seq<Byte>)
    ensures xs == xs + []
  {
  }

  lemma SerializedParts(c: Record, curve: Curve)
    ensures Encoded(c, curve)
            == VarInt.EncodeSigned(c.version)
               + (VarInt.EncodeSigned(Code(c))
                  + (Mask(c.vout, MaskSize(c.vout, Groups(c.vout)))
                     + (EncodeOuts(c.vout, 0, curve) + VarInt.EncodeSigned(c.height))))
  {
  }

  lemma HeaderRead(c: Record, code: nat, first: seq<bool>, count: nat, rest: seq<Byte>, size: nat, tail: seq<Byte>)
    requires !IsPruned(c.vout) && code == ReadAs(Code(c)) && size == MaskSize(c.vout, Groups(c.vout))
    requires first == [code / 2 % 2 == 1, code / 4 % 2 == 1] && count == code / 8 + if code / 2 % 4 != 0 then 0 else 1
    requires rest == Mask(c.vout, size) + tail
    ensures code == Code(c) && (code % 2 == 1) == c.coinBase
    ensures first == Flags(c.vout, 2) && MaskLeft(c.vout, size, 0, count, rest, tail)
  {
    CodeOk(c);
    MaskReaches(c);
    hide Code, Mask, MaskSize, NonZero, MaskByte;
    assert Mask(c.vout, size)[0..] == Mask(c.vout, size);
    NonZeroNone(c.vout);
    LastMasked(c.vout, Groups(c.vout));
  }

  lemma NonZeroNone(vout: seq<TxOut>)
    ensures NonZero(vout, 0) == 0
  {
  }

  lemma LastMasked(vout: seq<TxOut>, g: nat)
    ensures var size := MaskSize(vout, g); size > 0 ==> MaskByte(vout, size - 1) != 0
  {
  }

  lemma OutsCleaned(c: Record, size: nat, outs: seq<TxOut>)
    requires !IsPruned(c.vout) && size == MaskSize(c.vout, Groups(c.vout))
    requires |outs| == |Flags(c.vout, 2 + 8 * size)| && forall k :: 0 <= k < |outs| ==> outs[k] == RestoredAt(c.vout, k)
    ensures Cleaned(outs) == Cleaned(RestoredOuts(c.vout))
  {
    MaskReaches(c);
    hide MaskSize, Groups, Cleaned, Restored;
    forall k | 0 <= k
      ensures OutAt(outs, k) == OutAt(RestoredOuts(c.vout), k)
    {
    }
    CleanedSame(outs, RestoredOuts(c.vout));
  }

  // The main result

  /** A spent output carries nothing else, or the amount of another has a compact form that fits. */
  predicate OutSurvives(out: TxOut) {
    if IsNull(out) then out == NULL_OUT else CompactFits(out.value % TWO_64)
  }

  ghost predicate Survives(vout: seq<TxOut>) {
    forall k :: 0 <= k < |vout| ==> OutSurvives(vout[k])
  }

  lemma {:induction false} CleanedTwice(vout: seq<TxOut>)
    ensures Cleaned(Cleaned(vout)) == Cleaned(vout)
  {
  }

  /** One output that is kept comes back exactly if it survives. */
  lemma KeptIff(vout: seq<TxOut>, k: nat)
    requires k < |vout| && Representable(vout[k])
    ensures RestoredAt(vout, k) == vout[k] <==> OutSurvives(vout[k])
  {
    RestoredIff(vout[k]);
  }

  lemma SurvivorsBack(vout: seq<TxOut>)
    requires forall k :: 0 <= k < |vout| ==> Representable(vout[k])
    requires Survives(Cleaned(vout))
    ensures Cleaned(RestoredOuts(vout)) == Cleaned(vout)
  {
    hide OutSurvives, Restored;
    var kept, back := Cleaned(vout), RestoredOuts(vout);
    CleanedPrefix(vout);
    forall k | 0 <= k
      ensures OutAt(back, k) == OutAt(kept, k)
    {
      if k < |kept| {
        KeptIff(vout, k);
        assert OutSurvives(kept[k]);
      }
    }
    CleanedSame(back, kept);
    CleanedTwice(vout);
  }

  lemma OnlySurvivorsBack(vout: seq<TxOut>)
    requires forall k :: 0 <= k < |vout| ==> Representable(vout[k])
    requires Cleaned(RestoredOuts(vout)) == Cleaned(vout)
    ensures Survives(Cleaned(vout))
  {
    hide OutSurvives, Restored;
    var kept, back := Cleaned(vout), RestoredOuts(vout);
    CleanedPrefix(vout);
    CleanedPrefix(back);
    forall k | 0 <= k < |kept|
      ensures OutSurvives(kept[k])
    {
      KeptIff(vout, k);
      assert back[k] == kept[k];
    }
  }

  /** Written and read back, a record is the same but for spent outputs at the end, exactly if its
      version and its height are not negative and its outputs survive. */
  method WriteAndRead(c: Record, curve: Curve) returns (r: Option<Record>, size: nat, bytes: seq<Byte>)
    requires CurveOk(curve) && !IsPruned(c.vout)
    requires forall k :: 0 <= k < |c.vout| ==> Representable(c.vout[k])
    ensures r.Some? && size == |bytes|
    ensures r.value == c.(vout := Cleaned(c.vout)) <==> c.version >= 0 && c.height >= 0 && Survives(Cleaned(c.vout))
    ensures r.value == c <==> c.version >= 0 && c.height >= 0 && Survives(c.vout) && Cleaned(c.vout) == c.vout
  {
    hide CurveOk, IsPruned, RestoredOuts, Cleaned, Survives, Representable, Encoded;
    size := GetSerializeSize(c, curve);
    bytes := Serialize(c, curve);
    r := Unserialize(bytes, curve, true, c);
    CleanedTwice(RestoredOuts(c.vout));
    if Survives(Cleaned(c.vout)) {
      SurvivorsBack(c.vout);
    } else if Cleaned(RestoredOuts(c.vout)) == Cleaned(c.vout) {
      OnlySurvivorsBack(c.vout);
    }
  }

  /** A transaction of version -1 does not come back as such. */
  method VersionLost(curve: Curve) returns (c: Record, r: Option<Record>)
    requires CurveOk(curve)
    ensures c.version == -1 && r.Some? && r.value != c && r.value.version != -1
  {
    c := Record(false, [TxOut(10, [])], 1, -1);
    assert Unspent(c.vout, 0);
    var bytes := Serialize(c, curve);
    hide Encoded;
    r := Unserialize(bytes, curve, true, c);
  }
}
