/** Variable-length integers: base 128, most significant digit first, the high bit set on every
    byte but the last, and one subtracted from every digit but the last. */
module VarInt {
  import opened Basics

  /** The bytes, all with the high bit set, after which a reader that started at zero holds `n`. */
  function Lead(n: nat): seq<Byte> {
    if n == 0 then [] else Lead((n - 1) / 128) + [(n - 1) % 128 + 128]
  }

  function Encode(n: nat): seq<Byte> {
    Lead(n / 128) + [n % 128]
  }

  /** What a signed integer is written as: a negative one loses all but its low seven bits. */
  function EncodeSigned(n: int): seq<Byte> {
    if n < 0 then [n % 128] else Encode(n)
  }

  lemma {:induction false} LeadHigh(n: nat)
    ensures forall i :: 0 <= i < |Lead(n)| ==> Lead(n)[i] >= 128
  {
    if n > 0 {
      LeadHigh((n - 1) / 128);
    }
  }

  lemma LeadNext(n: nat, c: Byte)
    requires c >= 128
    ensures Lead(n * 128 + (c - 128) + 1) == Lead(n) + [c]
  {
    var m := n * 128 + (c - 128);
    assert m / 128 == n && m % 128 == c - 128;
  }

  lemma {:induction false} LeadInjective(m: nat, n: nat)
    requires Lead(m) == Lead(n)
    ensures m == n
    decreases m
  {
    if m > 0 && n > 0 {
      var a, b := Lead((m - 1) / 128), Lead((n - 1) / 128);
      assert Lead(m)[..|Lead(m)| - 1] == a && Lead(n)[..|Lead(n)| - 1] == b;
      assert Lead(m)[|Lead(m)| - 1] == Lead(n)[|Lead(n)| - 1];
      LeadInjective((m - 1) / 128, (n - 1) / 128);
    }
  }

  /** No encoding is a prefix of another: what follows cannot be mistaken. */
  lemma PrefixFree(m: nat, a: seq<Byte>, n: nat, b: seq<Byte>)
    requires Encode(m) + a == Encode(n) + b
    ensures m == n && a == b
  {
    LeadHigh(m / 128);
    LeadHigh(n / 128);
    var all, i, j := Encode(m) + a, |Lead(m / 128)|, |Lead(n / 128)|;
    assert all[i] == m % 128 && all[j] == n % 128;
    assert forall k :: 0 <= k < i ==> all[k] == Lead(m / 128)[k];
    assert forall k :: 0 <= k < j ==> all[k] == Lead(n / 128)[k];
    assert i == j;
    assert all[..i] == Lead(m / 128) && all[..i] == Lead(n / 128);
    LeadInjective(m / 128, n / 128);
    assert a == all[i + 1..] && b == all[i + 1..];
  }

  lemma LeadStart()
    ensures Lead(0) == []
  {
  }

  lemma EncodeEnd(n: nat, c: Byte)
    requires c < 128
    ensures Encode(n * 128 + c) == Lead(n) + [c]
  {
    assert (n * 128 + c) / 128 == n && (n * 128 + c) % 128 == c;
  }

  /** `ReadVarInt` without a width: what it reads is the encoding of what it returns. */
  method Read(input: seq<Byte>) returns (ok: bool, n: nat, rest: seq<Byte>)
    ensures ok ==> input == Encode(n) + rest
    ensures !ok ==> forall m: nat, tail: seq<Byte> :: input != Encode(m) + tail
  {
    hide Lead, Encode;
    LeadStart();
    n, rest := 0, input;
    while true
      invariant input == Lead(n) + rest
      decreases |rest|
    {
      if rest == [] {
        LeadHigh(n);
        AllHigh(input);
        return false, n, rest;
      }
      var c := rest[0];
      if c < 128 {
        EncodeEnd(n, c);
        ok, n, rest := true, n * 128 + c, rest[1..];
        return;
      }
      LeadNext(n, c);
      n, rest := n * 128 + (c - 128) + 1, rest[1..];
    }
  }

  /** What is left of a number in an integer of limited size. */
  function Wrapped(x: nat, size: nat): (r: nat)
    requires size > 0
    ensures r < size && (r == x <==> x < size)
  {
    WholePart(x, size);
    x % size
  }

  lemma WholePart(x: nat, size: nat)
    requires size > 0
    ensures x % size < size && x == x / size * size + x % size && (x < size ==> x % size == x)
  {
  }

  /** The remainder is the only number below the size that differs by a multiple of it. */
  lemma WrappedIs(x: nat, q: nat, r: nat, size: nat)
    requires size > 0 && r < size && x == q * size + r
    ensures Wrapped(x, size) == r
  {
    WholePart(x, size);
    SameRemainder(q, r, x / size, x % size, size);
  }

  lemma SameRemainder(q: nat, r: nat, q': nat, r': nat, size: nat)
    requires r < size && r' < size && q * size + r == q' * size + r'
    ensures r == r'
  {
    if q < q' {
      AtLeastOnce(q, q' - q, size);
    } else if q > q' {
      AtLeastOnce(q', q - q', size);
    }
  }

  lemma AtLeastOnce(q: nat, d: nat, size: nat)
    requires d >= 1
    ensures (q + d) * size >= q * size + size
  {
    assert (q + d) * size == q * size + d * size;
    assert d * size == (d - 1) * size + size;
  }

  /** A step of the reader may be taken on the remainder. */
  lemma StepWraps(full: nat, scale: nat, d: nat, size: nat)
    requires size > 0
    ensures Wrapped(Wrapped(full, size) * scale + d, size) == Wrapped(full * scale + d, size)
  {
    WholePart(full, size);
    var q, r := full / size, full % size;
    var low := r * scale + d;
    WholePart(low, size);
    Regroup(q, r, scale, size);
    Regroup(q * scale, low / size, 1, size);
    WrappedIs(full * scale + d, q * scale + low / size, low % size, size);
  }

  lemma Regroup(q: nat, r: nat, scale: nat, size: nat)
    ensures (q * size + r) * scale == q * scale * size + r * scale
    ensures (q + r) * size == q * size + r * size
  {
  }

  /** `ReadVarInt` into an unsigned integer of `bits` bits: an encoding of a number that does not fit is read as
      well, and the number wraps around. */
  method ReadUnsigned(input: seq<Byte>, bits: nat) returns (ok: bool, n: nat, rest: seq<Byte>, ghost full: nat)
    ensures ok ==> input == Encode(full) + rest && n == Wrapped(full, Pow2(bits))
    ensures ok ==> n < Pow2(bits) && (n == full <==> full < Pow2(bits))
    ensures !ok ==> forall m: nat, tail: seq<Byte> :: input != Encode(m) + tail
  {
    hide Wrapped, Pow2, Lead, Encode;
    LeadStart();
    var size := Pow2(bits);
    n, rest, full := 0, input, 0;
    while true
      invariant input == Lead(full) + rest && n == Wrapped(full, size)
      decreases |rest|
    {
      if rest == [] {
        LeadHigh(full);
        AllHigh(input);
        return false, n, rest, full;
      }
      var c := rest[0];
      StepWraps(full, 128, c % 128, size);
      n := Wrapped(n * 128 + c % 128, size);
      if c < 128 {
        EncodeEnd(full, c);
        ok, full, rest := true, full * 128 + c, rest[1..];
        return;
      }
      LeadNext(full, c);
      StepWraps(full * 128 + (c - 128), 1, 1, size);
      n := Wrapped(n + 1, size);
      full, rest := full * 128 + (c - 128) + 1, rest[1..];
    }
  }

  lemma AllHigh(input: seq<Byte>)
    requires forall i :: 0 <= i < |input| ==> input[i] >= 128
    ensures forall m: nat, tail: seq<Byte> :: input != Encode(m) + tail
  {
    forall m: nat, tail: seq<Byte>
      ensures input != Encode(m) + tail
    {
      var e := Encode(m) + tail;
      assert e[|Lead(m / 128)|] == m % 128;
    }
  }

  /** The reader gets back what was written, and stops where it should. */
  method ReadBack(n: nat, tail: seq<Byte>) returns (ok: bool, m: nat, rest: seq<Byte>)
    ensures ok && m == n && rest == tail
  {
    ok, m, rest := Read(Encode(n) + tail);
    if ok {
      PrefixFree(n, tail, m, rest);
    }
  }

  /** `WriteVarInt`: the digits are produced last first. */
  method Write(value: int) returns (out: seq<Byte>)
    ensures out == EncodeSigned(value)
  {
    var n := value;
    var tmp: seq<Byte> := [];
    while n > 127
      invariant tmp == [] ==> n == value
      invariant tmp != [] ==> n >= 0 && value >= 0 && Encode(value) == Lead(n + 1) + Reversed(tmp)
      decreases n
    {
      var c: Byte := n % 128 + if tmp == [] then 0 else 128;
      ReversedMore(tmp, c);
      tmp := tmp + [c];
      n := n / 128 - 1;
    }
    var c: Byte := n % 128 + if tmp == [] then 0 else 128;
    ReversedMore(tmp, c);
    tmp := tmp + [c];
    out := Reversed(tmp);
  }

  lemma ReversedMore(tmp: seq<Byte>, c: Byte)
    ensures Reversed(tmp + [c]) == [c] + Reversed(tmp)
  {
  }

  /** `GetSizeOfVarInt`. */
  method Size(value: int) returns (size: nat)
    ensures size == |EncodeSigned(value)|
  {
    size := 1;
    var n := value;
    while n > 127
      invariant n >= 0 ==> |EncodeSigned(value)| == |Encode(n)| + size - 1
      invariant n < 0 ==> n == value && size == 1
      decreases n
    {
      Shorter(n);
      n := n / 128 - 1;
      size := size + 1;
    }
  }

  lemma Shorter(n: nat)
    requires n > 127
    ensures |Encode(n)| == |Encode(n / 128 - 1)| + 1
  {
    var m := n / 128 - 1;
    assert Lead(n / 128) == Lead(m / 128) + [m % 128 + 128];
  }
}
