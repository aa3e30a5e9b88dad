/** Base 58 text for byte strings, with and without a checksum. */
module Base58 {
  import opened Basics

  // Positional notation, most significant digit first

  ghost predicate Below(ds: seq<nat>, base: nat) {
    forall i :: 0 <= i < |ds| ==> ds[i] < base
  }

  function Value(base: nat, ds: seq<nat>): nat {
    if ds == [] then 0 else Value(base, ds[..|ds| - 1]) * base + ds[|ds| - 1]
  }

  /** The digits of a number, without leading zeros; none for zero. */
  function Digits(base: nat, n: nat): seq<nat>
    requires base >= 2
  {
    if n == 0 then []
    else
      Smaller(base, n);
      Digits(base, n / base) + [n % base]
  }

  lemma Smaller(base: nat, n: nat)
    requires base >= 2 && n > 0
    ensures n / base < n
  {
    assert n == n / base * base + n % base;
  }

  lemma {:induction false} DigitsValue(base: nat, n: nat)
    requires base >= 2
    ensures Value(base, Digits(base, n)) == n && Below(Digits(base, n), base)
    ensures n > 0 ==> Digits(base, n) != [] && Digits(base, n)[0] != 0
    decreases n
  {
    if n > 0 {
      Smaller(base, n);
      Bounds(base, n);
      var q, d := n / base, n % base;
      DigitsValue(base, q);
      DigitsLast(base, n, q, d);
      if q == 0 {
        SmallRemainder(base, n);
      }
    }
  }

  lemma DigitsLast(base: nat, n: nat, q: nat, d: nat)
    requires base >= 2 && n > 0 && q == n / base && d == n % base
    ensures Digits(base, n) == Digits(base, q) + [d]
    ensures Value(base, Digits(base, n)) == Value(base, Digits(base, q)) * base + d
  {
    var ds := Digits(base, n);
    assert ds[..|ds| - 1] == Digits(base, q);
  }

  lemma SmallRemainder(base: nat, n: nat)
    requires base >= 2 && n / base == 0
    ensures n % base == n
  {
    assert n == n / base * base + n % base;
  }

  lemma Divided(base: nat, q: nat, d: nat)
    requires base >= 2 && d < base
    ensures (q * base + d) / base == q && (q * base + d) % base == d
  {
    var q' := (q * base + d) / base;
    Bounds(base, q * base + d);
    if q' < q {
      Times(q' + 1, q, base);
      assert false;
    } else if q < q' {
      Times(q + 1, q', base);
      assert false;
    }
  }

  lemma Bounds(base: nat, n: nat)
    requires base >= 2
    ensures n / base * base + n % base == n && n % base < base
  {
  }

  lemma Times(a: nat, b: nat, c: nat)
    requires a <= b
    ensures a * c <= b * c
    ensures a >= 1 ==> a * c == (a - 1) * c + c
  {
  }

  /** Digits without a leading zero are the digits of their value. */
  lemma {:induction false} ValueDigits(base: nat, ds: seq<nat>)
    requires base >= 2 && Below(ds, base) && (ds != [] ==> ds[0] != 0)
    ensures Digits(base, Value(base, ds)) == ds
    ensures ds != [] ==> Value(base, ds) > 0
    decreases |ds|
  {
    if ds == [] {
      assert Digits(base, 0) == [];
    } else {
      var most, last := ds[..|ds| - 1], ds[|ds| - 1];
      ValueDigits(base, most);
      var q, n := Value(base, most), Value(base, ds);
      Divided(base, q, last);
      if most != [] {
        Times(1, q, base);
      }
      DigitsLast(base, n, q, last);
      assert ds == most + [last];
    }
  }

  // Changing the base, keeping leading zeros

  function Leading(ds: seq<nat>): (k: nat)
    ensures k <= |ds| && forall i :: 0 <= i < k ==> ds[i] == 0
    ensures k < |ds| ==> ds[k] != 0
  {
    if ds == [] || ds[0] != 0 then 0 else 1 + Leading(ds[1..])
  }

  function Zeros(k: nat): seq<nat> {
    seq(k, _ => 0)
  }

  /** The same number in another base, with as many leading zeros. */
  function Convert(from: nat, to: nat, ds: seq<nat>): seq<nat>
    requires to >= 2
  {
    Zeros(Leading(ds)) + Digits(to, Value(from, ds))
  }

  lemma {:induction false} LeadingZeros(k: nat, ds: seq<nat>)
    requires ds != [] ==> ds[0] != 0
    ensures Leading(Zeros(k) + ds) == k
    decreases k
  {
    if k > 0 {
      LeadingZeros(k - 1, ds);
      assert (Zeros(k) + ds)[1..] == Zeros(k - 1) + ds;
    } else {
      assert Zeros(k) + ds == ds;
    }
  }

  lemma {:induction false} ValueOfPadded(base: nat, k: nat, ds: seq<nat>)
    ensures Value(base, Zeros(k) + ds) == Value(base, ds)
    decreases |ds|, k
  {
    var all := Zeros(k) + ds;
    if ds != [] {
      assert all[..|all| - 1] == Zeros(k) + ds[..|ds| - 1];
      ValueOfPadded(base, k, ds[..|ds| - 1]);
    } else if k > 0 {
      assert all[..|all| - 1] == Zeros(k - 1) + [];
      ValueOfPadded(base, k - 1, []);
    }
  }

  /** Converting there and back gives the same digits. */
  lemma ConvertBack(a: nat, b: nat, ds: seq<nat>)
    requires a >= 2 && b >= 2 && Below(ds, a)
    ensures Convert(b, a, Convert(a, b, ds)) == ds
    ensures Below(Convert(a, b, ds), b)
  {
    var k, n := Leading(ds), Value(a, ds);
    var rest := ds[k..];
    assert ds == Zeros(k) + rest;
    ValueOfPadded(a, k, rest);
    ValueDigits(a, rest);
    DigitsValue(b, n);
    if n == 0 {
      assert Digits(b, n) == [];
    }
    LeadingZeros(k, Digits(b, n));
    ValueOfPadded(b, k, Digits(b, n));
  }

  // Letters

  /** The digit signs, in order: 1 to 9, A to Z without I and O, a to z without l. */
  function Letter(d: nat): char
    requires d < 58
  {
    if d < 9 then Shift('1', d)
    else if d < 17 then Shift('A', d - 9)
    else if d < 22 then Shift('J', d - 17)
    else if d < 33 then Shift('P', d - 22)
    else if d < 44 then Shift('a', d - 33)
    else Shift('m', d - 44)
  }

  function Shift(c: char, k: nat): char
    requires c < '~' && k < 20
  {
    (c as int + k) as char
  }

  predicate IsLetter(c: char) {
    exists d :: 0 <= d < 58 && Letter(d) == c
  }

  /** `strchr` in the alphabet. */
  function DigitOf(c: char): (r: Option<nat>)
    ensures r.Some? ==> r.value < 58 && Letter(r.value) == c
    ensures r.Some? <==> IsLetter(c)
  {
    Search(c, 0)
  }

  function Search(c: char, from: nat): (r: Option<nat>)
    requires from <= 58 && forall i :: 0 <= i < from ==> Letter(i) != c
    ensures r.Some? ==> r.value < 58 && Letter(r.value) == c
    ensures r.Some? <==> IsLetter(c)
    decreases 58 - from
  {
    if from == 58 then None else if Letter(from) == c then Some(from) else Search(c, from + 1)
  }

  lemma LettersDiffer(i: nat, j: nat)
    requires i < j < 58
    ensures Letter(i) < Letter(j)
  {
  }

  lemma DigitOfLetter(d: nat)
    requires d < 58
    ensures DigitOf(Letter(d)) == Some(d)
  {
    assert IsLetter(Letter(d));
    var e := DigitOf(Letter(d)).value;
    if e < d {
      LettersDiffer(e, d);
    } else if d < e {
      LettersDiffer(d, e);
    }
  }

  function Spelled(ds: seq<nat>): string
    requires Below(ds, 58)
  {
    seq(|ds|, i requires 0 <= i < |ds| => Letter(ds[i]))
  }

  /** The digits a text spells. */
  function Read(text: string): (ds: seq<nat>)
    requires forall i :: 0 <= i < |text| ==> IsLetter(text[i])
    ensures |ds| == |text|
  {
    seq(|text|, i requires 0 <= i < |text| => DigitOf(text[i]).value)
  }

  lemma ReadSpelled(ds: seq<nat>)
    requires Below(ds, 58)
    ensures forall i :: 0 <= i < |ds| ==> IsLetter(Spelled(ds)[i])
    ensures Read(Spelled(ds)) == ds
  {
    forall i | 0 <= i < |ds|
      ensures IsLetter(Spelled(ds)[i]) && DigitOf(Spelled(ds)[i]) == Some(ds[i])
    {
      DigitOfLetter(ds[i]);
    }
  }

  lemma SpelledRead(text: string)
    requires forall i :: 0 <= i < |text| ==> IsLetter(text[i])
    ensures Below(Read(text), 58) && Spelled(Read(text)) == text
  {
  }

  // Bignums as byte vectors: little endian, with a sign in the top bit of the last byte

  /** `setvch`. */
  function FromVector(vch: seq<Byte>): int {
    if vch != [] && vch[|vch| - 1] >= 128 then 0 - Value(256, Reversed(vch[|vch| - 1 := vch[|vch| - 1] - 128]))
    else Value(256, Reversed(vch))
  }

  /** `getvch` of a number that is not negative: a zero byte keeps the top bit free. */
  function ToVector(n: nat): (vch: seq<nat>) {
    var ds := Digits(256, n);
    Reversed(if ds != [] && ds[0] >= 128 then [0] + ds else ds)
  }

  lemma FromPadded(bytes: seq<Byte>)
    ensures FromVector(Reversed(bytes) + [0]) == Value(256, bytes)
  {
    var vch: seq<Byte> := Reversed(bytes) + [0];
    assert Reversed(vch) == Zeros(1) + bytes;
    ValueOfPadded(256, 1, bytes);
  }

  lemma ReversedTwice(ds: seq<nat>)
    ensures Reversed(Reversed(ds)) == ds
  {
  }

  /** Removing the sign byte leaves the digits. */
  lemma TrimmedVector(n: nat)
    ensures var vch := ToVector(n);
            var trimmed := if |vch| >= 2 && vch[|vch| - 1] == 0 && vch[|vch| - 2] >= 128 then vch[..|vch| - 1] else vch;
            Reversed(trimmed) == Digits(256, n)
  {
    var ds, vch := Digits(256, n), ToVector(n);
    DigitsValue(256, n);
    hide Digits, Value;
    if ds != [] && ds[0] >= 128 {
      assert vch[|vch| - 1] == 0 && vch[|vch| - 2] == ds[0];
      assert vch[..|vch| - 1] == Reversed(ds);
      ReversedTwice(ds);
    } else {
      assert ds != [] ==> vch[|vch| - 1] == ds[0];
      ReversedTwice(ds);
    }
  }

  // Encoding

  /** `text` spells `done` back to front. */
  ghost predicate Writes(text: string, done: seq<nat>) {
    Below(done, 58) && text == Reversed(Spelled(done))
  }

  lemma WriteNext(text: string, done: seq<nat>, d: nat)
    requires Writes(text, done) && d < 58
    ensures Writes(text + [Letter(d)], [d] + done)
  {
    var more := [d] + done;
    assert Spelled(more) == [Letter(d)] + Spelled(done);
  }

  /** The division loop of `EncodeBase58`. */
  method WriteDigits(n: nat) returns (text: string)
    ensures Writes(text, Digits(58, n))
  {
    text := "";
    var bn := n;
    ghost var done: seq<nat> := [];
    assert Writes(text, done);
    hide Writes;
    while bn > 0
      invariant Digits(58, n) == Digits(58, bn) + done && Writes(text, done)
    {
      WriteNext(text, done, bn % 58);
      DigitsLast(58, bn, bn / 58, bn % 58);
      text := text + [Letter(bn % 58)];
      done := [bn % 58] + done;
      bn := bn / 58;
    }
  }

  lemma ZerosNext(i: nat, done: seq<nat>)
    ensures Zeros(i + 1) + done == [0] + (Zeros(i) + done)
  {
  }

  lemma ZerosNone(done: seq<nat>)
    ensures Zeros(0) + done == done
  {
  }

  /** The loop of `EncodeBase58` that adds the leading zeros. */
  method WriteZeros(bytes: seq<Byte>, digits: string, ghost done: seq<nat>) returns (text: string)
    requires Writes(digits, done)
    ensures Writes(text, Zeros(Leading(bytes)) + done)
  {
    hide Writes, Zeros, Leading;
    text := digits;
    var i := 0;
    ZerosNone(done);
    while i < |bytes| && bytes[i] == 0
      invariant 0 <= i <= Leading(bytes) && Writes(text, Zeros(i) + done)
    {
      WriteNext(text, Zeros(i) + done, 0);
      ZerosNext(i, done);
      text := text + [Letter(0)];
      i := i + 1;
    }
  }

  /** `EncodeBase58`. */
  method EncodeBase58(bytes: seq<Byte>) returns (text: string)
    ensures Below(Convert(256, 58, bytes), 58)
    ensures text == Spelled(Convert(256, 58, bytes))
  {
    FromPadded(bytes);
    var digits := WriteDigits(FromVector(Reversed(bytes) + [0]));
    var backwards := WriteZeros(bytes, digits, Digits(58, Value(256, bytes)));
    text := Reversed(backwards);
  }

  // Decoding

  predicate IsSpace(c: char) {
    c == ' ' || c == '\t' || c == '\n' || c == '\U{0B}' || c == '\U{0C}' || c == '\r'
  }

  /** Spaces up to `a`, letters up to `b`, and spaces to the end. */
  ghost predicate Framed(text: string, a: nat, b: nat) {
    && a <= b <= |text|
    && (forall i :: 0 <= i < a ==> IsSpace(text[i]))
    && (forall i :: a <= i < b ==> IsLetter(text[i]))
    && (forall i :: b <= i < |text| ==> IsSpace(text[i]))
    && (a == |text| || !IsSpace(text[a]))
  }

  lemma LettersAreNoSpaces(c: char)
    ensures IsSpace(c) || c == '\0' ==> !IsLetter(c)
  {
  }

  lemma ReadNext(text: string, a: nat, b: nat)
    requires a <= b < |text| && forall i :: a <= i < b + 1 ==> IsLetter(text[i])
    ensures Value(58, Read(text[a..b + 1])) == Value(58, Read(text[a..b])) * 58 + DigitOf(text[b]).value
  {
    var more, last := Read(text[a..b + 1]), DigitOf(text[b]).value;
    hide DigitOf, Value;
    assert more[..b - a] == Read(text[a..b]) && more[b - a] == last;
    ValueNext(58, more, b - a);
    assert more[..b - a + 1] == more;
  }

  lemma ValueNext(base: nat, ds: seq<nat>, k: nat)
    requires k < |ds|
    ensures Value(base, ds[..k + 1]) == Value(base, ds[..k]) * base + ds[k]
  {
    assert ds[..k + 1][..k] == ds[..k];
  }

  lemma ReadNothing(text: string)
    ensures forall a :: 0 <= a <= |text| ==> Value(58, Read(text[a..a])) == 0
  {
    forall a | 0 <= a <= |text|
      ensures Value(58, Read(text[a..a])) == 0
    {
      assert text[a..a] == [];
    }
  }

  /** The parsing loop: the letters between the spaces, as a number. */
  method Parse(text: string) returns (ok: bool, a: nat, b: nat, bn: nat)
    ensures ok <==> exists i: nat, j: nat :: Framed(text, i, j)
    ensures ok ==> Framed(text, a, b) && bn == Value(58, Read(text[a..b]))
  {
    hide Value, Read, DigitOf;
    ReadNothing(text);
    a, bn := 0, 0;
    while a < |text| && IsSpace(text[a])
      invariant a <= |text| && forall i :: 0 <= i < a ==> IsSpace(text[i])
    {
      a := a + 1;
    }
    b := a;
    while b < |text| && DigitOf(text[b]).Some?
      invariant a <= b <= |text| && forall i :: a <= i < b ==> IsLetter(text[i])
      invariant bn == Value(58, Read(text[a..b]))
    {
      ReadNext(text, a, b);
      bn := bn * 58 + DigitOf(text[b]).value;
      b := b + 1;
    }
    var end := b;
    while end < |text| && IsSpace(text[end])
      invariant b <= end <= |text| && forall i :: b <= i < end ==> IsSpace(text[i])
    {
      end := end + 1;
    }
    ok := end == |text|;
    if ok {
      assert Framed(text, a, b);
    } else {
      NotFramed(text, a, b, end);
    }
  }

  lemma NotFramed(text: string, a: nat, b: nat, end: nat)
    requires a <= b <= end < |text|
    requires forall i :: 0 <= i < a ==> IsSpace(text[i])
    requires a < |text| && !IsSpace(text[a])
    requires forall i :: a <= i < b ==> IsLetter(text[i])
    requires !IsLetter(text[b]) && (forall i :: b <= i < end ==> IsSpace(text[i])) && !IsSpace(text[end])
    ensures !exists i: nat, j: nat :: Framed(text, i, j)
  {
    forall k | 0 <= k < |text| && IsSpace(text[k])
      ensures !IsLetter(text[k])
    {
      LettersAreNoSpaces(text[k]);
    }
  }

  /** `DecodeBase58` of a C string, given without its terminating zero. */
  method DecodeBase58(text: string) returns (r: Option<seq<nat>>, ghost a: nat, ghost b: nat)
    requires '\0' !in text
    ensures r.Some? <==> exists i: nat, j: nat :: Framed(text, i, j)
    ensures r.Some? ==> Framed(text, a, b) && r.value == Convert(58, 256, Read(text[a..b]))
  {
    var ok, from, to, bn := Parse(text);
    a, b := from, to;
    if !ok {
      return None, a, b;
    }
    var vch := ToVector(bn);
    TrimmedVector(bn);
    if |vch| >= 2 && vch[|vch| - 1] == 0 && vch[|vch| - 2] >= 128 {
      vch := vch[..|vch| - 1];
    }
    var zeros := LeadingOnes(text, from, to);
    return Some(Zeros(zeros) + Reversed(vch)), a, b;
  }

  /** The loop that counts the leading zero digits of the text. */
  method LeadingOnes(text: string, a: nat, b: nat) returns (zeros: nat)
    requires Framed(text, a, b)
    ensures zeros == Leading(Read(text[a..b]))
  {
    var p := a;
    ghost var ds := Read(text[a..b]);
    DigitOfLetter(0);
    while p < |text| && text[p] == Letter(0)
      invariant a <= p <= a + Leading(ds)
    {
      assert IsLetter(text[p]);
      LettersAreNoSpaces(text[p]);
      assert p < b;
      assert ds[p - a] == 0;
      p := p + 1;
    }
    assert p < b ==> text[a..b][p - a] == text[p] && ds[p - a] != 0;
    zeros := p - a;
  }

  // Round trips

  ghost predicate AllLetters(text: string) {
    forall i :: 0 <= i < |text| ==> IsLetter(text[i])
  }

  lemma FramedOnce(text: string, a: nat, b: nat, c: nat, d: nat)
    requires Framed(text, a, b) && Framed(text, c, d)
    ensures a == c && b == d
  {
    forall k | 0 <= k < |text|
      ensures IsSpace(text[k]) ==> !IsLetter(text[k])
    {
      LettersAreNoSpaces(text[k]);
    }
    assert b < |text| ==> IsSpace(text[b]);
    assert d < |text| ==> IsSpace(text[d]);
  }

  lemma LettersFramed(text: string)
    requires AllLetters(text)
    ensures '\0' !in text && Framed(text, 0, |text|)
    ensures forall a: nat, b: nat :: Framed(text, a, b) ==> a == 0 && b == |text|
  {
    forall i | 0 <= i < |text|
      ensures !IsSpace(text[i]) && text[i] != '\0'
    {
      LettersAreNoSpaces(text[i]);
    }
    forall a: nat, b: nat | Framed(text, a, b)
      ensures a == 0 && b == |text|
    {
      FramedOnce(text, a, b, 0, |text|);
    }
  }

  /** Every byte string comes back, leading zeros and all. */
  method EncodeDecode(bytes: seq<Byte>) returns (r: Option<seq<nat>>)
    ensures r == Some(bytes)
  {
    var text := EncodeBase58(bytes);
    var ds := Convert(256, 58, bytes);
    ConvertBack(256, 58, bytes);
    ReadSpelled(ds);
    LettersFramed(text);
    ghost var a, b;
    r, a, b := DecodeBase58(text);
    assert text[0..|text|] == text;
  }

  /** Every text over the alphabet comes back. */
  method DecodeEncode(text: string) returns (again: string)
    requires AllLetters(text)
    ensures again == text
  {
    LettersFramed(text);
    var r, _, _ := DecodeBase58(text);
    assert text[0..|text|] == text;
    SpelledRead(text);
    ConvertBack(58, 256, Read(text));
    var bytes: seq<Byte> := AsBytes(r.value);
    again := EncodeBase58(bytes);
  }

  function AsBytes(xs: seq<nat>): (r: seq<Byte>)
    requires Below(xs, 256)
    ensures r == xs
  {
    seq(|xs|, i requires 0 <= i < |xs| => xs[i])
  }

  // With a checksum: the first four bytes of a hash

  type Checksum = seq<nat> -> seq<nat>

  ghost predicate IsChecksum(check: Checksum) {
    forall xs :: |check(xs)| == 4 && Below(check(xs), 256)
  }

  /** `EncodeBase58Check`. */
  method EncodeBase58Check(bytes: seq<Byte>, check: Checksum) returns (text: string)
    requires IsChecksum(check)
    ensures Below(Convert(256, 58, bytes + check(bytes)), 58)
    ensures text == Spelled(Convert(256, 58, bytes + check(bytes)))
  {
    var sum := check(bytes);
    assert Below(sum, 256);
    text := EncodeBase58(bytes + AsBytes(sum));
  }

  /** `DecodeBase58Check`. */
  method DecodeBase58Check(text: string, check: Checksum) returns (r: Option<seq<nat>>, ghost a: nat, ghost b: nat)
    requires '\0' !in text
    ensures r.Some? ==> Framed(text, a, b) && Convert(58, 256, Read(text[a..b])) == r.value + check(r.value)
    ensures forall xs, i: nat, j: nat | Framed(text, i, j) && |check(xs)| == 4 ::
              Convert(58, 256, Read(text[i..j])) == xs + check(xs) ==> r == Some(xs)
  {
    var decoded;
    decoded, a, b := DecodeBase58(text);
    if decoded.None? {
      return None, a, b;
    }
    forall i: nat, j: nat | Framed(text, i, j)
      ensures i == a && j == b
    {
      FramedOnce(text, i, j, a, b);
    }
    var all := decoded.value;
    if |all| < 4 {
      return None, a, b;
    }
    var data := all[..|all| - 4];
    forall xs | all == xs + check(xs) && |check(xs)| == 4
      ensures xs == data && check(data) == all[|all| - 4..]
    {
      assert (xs + check(xs))[..|xs|] == xs;
    }
    if check(data) != all[|all| - 4..] {
      return None, a, b;
    }
    return Some(data), a, b;
  }

  /** The checksum form comes back, whatever the checksum. */
  method CheckedRoundTrip(bytes: seq<Byte>, check: Checksum) returns (r: Option<seq<nat>>)
    requires IsChecksum(check)
    ensures r == Some(bytes)
  {
    var text := EncodeBase58Check(bytes, check);
    ghost var all := bytes + check(bytes);
    assert Below(check(bytes), 256);
    ConvertBack(256, 58, all);
    ReadSpelled(Convert(256, 58, all));
    LettersFramed(text);
    assert text[0..|text|] == text;
    ghost var a, b;
    r, a, b := DecodeBase58Check(text, check);
  }

  /** What is accepted with its checksum, and has no spaces around it, is what encoding gives. */
  method CheckedReencoded(text: string, check: Checksum) returns (r: Option<seq<nat>>, again: string)
    requires IsChecksum(check) && AllLetters(text)
    ensures r.Some? ==> again == text
  {
    LettersFramed(text);
    ghost var a, b;
    again := "";
    r, a, b := DecodeBase58Check(text, check);
    if r.Some? {
      assert text[0..|text|] == text;
      SpelledRead(text);
      ConvertBack(58, 256, Read(text));
      ghost var all := r.value + check(r.value);
      assert forall i :: 0 <= i < |r.value| ==> r.value[i] == all[i];
      again := EncodeBase58Check(AsBytes(r.value), check);
    }
  }
}
