/**
 * The message codec: numbers in blocks of seven bits, least significant first, with the high bit
 * set on all but the last byte, and raw blobs.
 */
module MicroMsg {
  import opened Arithmetic

  newtype byte = x: int | 0 <= x < 256

  // ---------------------------------------------------------------- the encoding of a number

  function Varint(n: nat): (e: seq<byte>)
    ensures e != []
  {
    if n < 128 then [n as byte] else [(n % 128 + 128) as byte] + Varint(n / 128)
  }

  lemma NextByte(whole: seq<byte>, e: seq<byte>, n: nat)
    requires whole == e + Varint(n)
    ensures if n < 128 then whole == e + [n as byte]
            else whole == e + [(n % 128 + 128) as byte] + Varint(n / 128)
  {
  }

  /** What is left of a number behind `i` blocks of seven bits. */
  function Shifted(n: nat, i: nat): nat {
    if i == 0 then n else Shifted(n / 128, i - 1)
  }

  /** Byte i of the encoding holds bits 7i to 7i + 6 of the number, and tells whether others follow. */
  lemma {:induction false} VarintDigits(n: nat, i: nat)
    requires i < |Varint(n)|
    ensures Varint(n)[i] as nat == Shifted(n, i) % 128 + if i < |Varint(n)| - 1 then 128 else 0
    ensures i == |Varint(n)| - 1 <==> Shifted(n, i) < 128
  {
    if i > 0 {
      VarintDigits(n / 128, i - 1);
    }
  }

  function Bits(n: nat): nat {
    if n == 0 then 0 else 1 + Bits(n / 2)
  }

  /** A number below 128 has at most seven bits. */
  lemma BitsOfByte(n: nat)
    requires n < 128
    ensures Bits(n) <= 7
  {
    BitsBelow(n, 7, 128);
  }

  lemma {:induction false} BitsBelow(n: nat, k: nat, bound: nat)
    requires n < bound && bound == Pow2(k)
    ensures Bits(n) <= k
  {
    if n > 0 {
      var half := Pow2(k - 1);
      assert bound == 2 * half;
      BitsBelow(n / 2, k - 1, half);
    }
  }

  lemma ThreeBitsMore(n: nat, q: nat)
    requires 8 <= 8 * q <= n < 8 * q + 8
    ensures Bits(n) == Bits(q) + 3
  {
    var a := n / 2;
    var b := a / 2;
    assert Bits(n) == 1 + Bits(a) && Bits(a) == 1 + Bits(b) && Bits(b) == 1 + Bits(b / 2);
    assert b / 2 == q;
  }

  lemma SevenBitsMore(n: nat)
    requires n >= 128
    ensures Bits(n) == Bits(n / 128) + 7
  {
    var q := n / 128;
    ThreeBitsMore(n, n / 8);
    ThreeBitsMore(n / 8, n / 8 / 8);
    assert n / 8 / 8 / 2 == q;
    assert Bits(n / 8 / 8) == 1 + Bits(q);
  }

  /** A number takes one byte for every seven bits it has, and at least one. */
  lemma {:induction false} VarintLength(n: nat)
    ensures |Varint(n)| == if n == 0 then 1 else (Bits(n) + 6) / 7
  {
    if n >= 128 {
      VarintLength(n / 128);
      SevenBitsMore(n);
    } else {
      BitsOfByte(n);
    }
  }

  /** No encoding is a prefix of another one. */
  lemma {:induction false} PrefixFree(m: nat, n: nat)
    requires Varint(m) <= Varint(n)
    ensures m == n
  {
    assert Varint(m)[0] == Varint(n)[0];
    if m >= 128 && n >= 128 {
      assert Varint(m)[1..] == Varint(m / 128) && Varint(n)[1..] == Varint(n / 128);
      PrefixFree(m / 128, n / 128);
    }
  }

  // ---------------------------------------------------------------- reading a number back

  /** The first byte from position i on without the high bit, or the end. */
  function LastByte(s: seq<byte>, i: nat): (e: nat)
    requires i <= |s|
    ensures i <= e <= |s| && (e < |s| ==> s[e] < 128) && forall k :: i <= k < e ==> s[k] >= 128
    decreases |s| - i
  {
    if i == |s| || s[i] < 128 then i else LastByte(s, i + 1)
  }

  /** A block of seven bits is put in front of a number. */
  function Joined(high: nat, b: byte, modulus: nat): nat
    requires modulus > 0
  {
    (high * 128 + (b % 128) as nat) % modulus
  }

  /** The number the bytes from i up to j stand for, in an unsigned type with `modulus` values. */
  function Value(s: seq<byte>, i: nat, j: nat, modulus: nat): nat
    requires i <= j <= |s| && modulus > 0
    decreases j - i
  {
    if i == j then 0 else Joined(Value(s, i + 1, j, modulus), s[i], modulus)
  }

  /** The buffer holds `e` at position i. */
  ghost predicate HasAt(s: seq<byte>, i: nat, e: seq<byte>) {
    i + |e| <= |s| && s[i..i + |e|] == e
  }

  lemma PartAt(s: seq<byte>, at: nat, e: seq<byte>, a: seq<byte>, b: seq<byte>)
    requires HasAt(s, at, e) && a + b <= e
    ensures HasAt(s, at + |a|, b)
  {
    forall k | 0 <= k < |b| ensures s[at + |a| + k] == b[k] {
      assert s[at..at + |e|][|a| + k] == e[|a| + k];
      assert (a + b)[|a| + k] == b[k];
    }
  }

  lemma ByteAt(s: seq<byte>, at: nat, e: seq<byte>)
    requires HasAt(s, at, e) && e != []
    ensures s[at] == e[0]
  {
    assert s[at..at + |e|][0] == s[at];
  }

  /** The first byte has the low seven bits, and the high bit unless it is the last. */
  lemma FirstByte(n: nat)
    ensures (Varint(n)[0] % 128) as nat == n % 128
    ensures Varint(n)[0] < 128 <==> n < 128
  {
  }

  lemma FirstValue(s: seq<byte>, i: nat, j: nat, n: nat, modulus: nat)
    requires i < j <= |s| && modulus > 0 && (s[i] % 128) as nat == n % 128
    requires Value(s, i + 1, j, modulus) == n / 128 % modulus
    ensures Value(s, i, j, modulus) == n % modulus
  {
    ReduceEarly(n % 128, n / 128, modulus);
  }

  /** Where a number is written, reading finds its end and its value. */
  lemma {:induction false} ReadsBack(s: seq<byte>, i: nat, n: nat, modulus: nat)
    requires HasAt(s, i, Varint(n)) && modulus > 0
    ensures LastByte(s, i) == i + |Varint(n)| - 1
    ensures Value(s, i, i + |Varint(n)|, modulus) == n % modulus
    decreases n
  {
    var e := Varint(n);
    ByteAt(s, i, e);
    FirstByte(n);
    if n < 128 {
      assert Value(s, i + 1, i + 1, modulus) == n / 128 % modulus;
    } else {
      PartAt(s, i, e, [e[0]], Varint(n / 128));
      ReadsBack(s, i + 1, n / 128, modulus);
    }
    FirstValue(s, i, i + |e|, n, modulus);
  }

  /** A type that is too narrow loses the high bits, and only then is the number not the same. */
  lemma NarrowRead(n: nat, width: nat)
    ensures Pow2(width) > 0 && (n % Pow2(width) == n <==> n < Pow2(width))
  {
    if n < Pow2(width) {
      RemainderIsUnique(n, 0, n, Pow2(width));
    }
  }

  // ---------------------------------------------------------------- the codec

  /** What is written: numbers and blobs. */
  datatype Item = Number(n: nat) | Blob(bytes: seq<byte>)

  /** What is read: a number of a type with `modulus` values, or a blob of known size. */
  datatype Field = NumberField(modulus: nat) | BlobField(size: nat)

  function Encoding(item: Item): seq<byte> {
    match item
    case Number(n) => Varint(n)
    case Blob(bytes) => bytes
  }

  function EncodeAll(items: seq<Item>): seq<byte> {
    if items == [] then [] else EncodeAll(items[..|items| - 1]) + Encoding(items[|items| - 1])
  }

  ghost predicate Describes(f: Field, item: Item) {
    match f
    case NumberField(modulus) => modulus > 0 && item.Number?
    case BlobField(size) => item.Blob? && |item.bytes| == size
  }

  /** What comes back when `item` is read as `f`. */
  function Returned(f: Field, item: Item): Item {
    match item
    case Number(n) => if f.NumberField? && f.modulus > 0 then Number(n % f.modulus) else item
    case Blob(_) => item
  }

  /** The field is wide enough for the item. */
  ghost predicate Fits(f: Field, item: Item) {
    Describes(f, item) && (item.Number? ==> item.n < f.modulus)
  }

  function Patched(s: seq<byte>, i: nat, e: seq<byte>): seq<byte>
    requires i + |e| <= |s|
  {
    s[..i] + e + s[i + |e|..]
  }

  lemma PatchTwice(s: seq<byte>, i: nat, e: seq<byte>, f: seq<byte>)
    requires i + |e| + |f| <= |s|
    ensures Patched(Patched(s, i, e), i + |e|, f) == Patched(s, i, e + f)
  {
  }

  lemma PatchHolds(s: seq<byte>, i: nat, e: seq<byte>)
    requires i + |e| <= |s|
    ensures HasAt(Patched(s, i, e), i, e)
  {
  }

  class MicroMsg {
    const buffer: array<byte>
    var pos: nat

    constructor (buf: array<byte>, at: nat)
      ensures buffer == buf && pos == at
    {
      buffer, pos := buf, at;
    }

    /** Only `e` is written, at the position where the message stood, and the position moves behind it. */
    twostate predicate Wrote(e: seq<byte>)
      reads this, buffer
    {
      && pos == old(pos) + |e| <= buffer.Length
      && buffer[..] == Patched(old(buffer[..]), old(pos), e)
    }

    method Put(b: byte)
      requires pos < buffer.Length
      modifies this`pos, buffer
      ensures Wrote([b])
    {
      buffer[pos] := b;
      pos := pos + 1;
    }

    method Write(number: nat)
      requires pos + |Varint(number)| <= buffer.Length
      modifies this`pos, buffer
      ensures Wrote(Varint(number))
    {
      var n, more := number, true;
      ghost var e: seq<byte>, whole := [], Varint(number);
      while more
        invariant Wrote(e) && whole == if more then e + Varint(n) else e
        decreases more, n
      {
        NextByte(whole, e, n);
        var c := n % 128;
        n := n / 128;
        more := n > 0;
        var b := (if more then c + 128 else c) as byte;
        Put(b);
        PatchTwice(old(buffer[..]), old(pos), e, [b]);
        e := e + [b];
      }
    }

    method WriteBlob(bytes: seq<byte>)
      requires pos + |bytes| <= buffer.Length
      modifies this`pos, buffer
      ensures Wrote(bytes)
    {
      forall i | 0 <= i < |bytes| {
        buffer[pos + i] := bytes[i];
      }
      pos := pos + |bytes|;
    }

    method Read(modulus: nat) returns (result: nat)
      requires modulus > 0 && pos <= buffer.Length && LastByte(buffer[..], pos) < buffer.Length
      modifies this`pos
      ensures pos == LastByte(buffer[..], old(pos)) + 1
      ensures result == Value(buffer[..], old(pos), pos, modulus)
    {
      var begin := pos;
      ghost var s := buffer[..];
      while buffer[pos] >= 128
        invariant begin <= pos < |s| && LastByte(s, pos) == LastByte(s, begin) < |s|
        decreases |s| - pos
      {
        assert buffer[pos] == s[pos];
        pos := pos + 1;
      }
      assert buffer[pos] == s[pos];
      pos := pos + 1;
      result := 0;
      var i := pos;
      while i > begin
        invariant begin <= i <= pos && result == Value(s, i, pos, modulus)
      {
        i := i - 1;
        assert buffer[i] == s[i];
        result := Joined(result, buffer[i], modulus);
      }
    }

    method ReadBlob(size: nat) returns (bytes: seq<byte>)
      requires pos + size <= buffer.Length
      modifies this`pos
      ensures pos == old(pos) + size && bytes == buffer[old(pos)..pos]
    {
      bytes := buffer[pos..pos + size];
      pos := pos + size;
    }

    /** Writes one item or reads one field into it. */
    method WriteItem(item: Item)
      requires pos + |Encoding(item)| <= buffer.Length
      modifies this`pos, buffer
      ensures Wrote(Encoding(item))
    {
      match item
      case Number(n) => Write(n);
      case Blob(bytes) => WriteBlob(bytes);
    }

    method ReadItem(f: Field, ghost item: Item) returns (read: Item)
      requires Describes(f, item) && HasAt(buffer[..], pos, Encoding(item))
      modifies this`pos
      ensures pos == old(pos) + |Encoding(item)| && read == Returned(f, item)
    {
      match f
      case NumberField(modulus) =>
        ReadsBack(buffer[..], pos, item.n, modulus);
        var n := Read(modulus);
        read := Number(n);
      case BlobField(size) =>
        var bytes := ReadBlob(size);
        read := Blob(bytes);
    }

    method WriteAll(items: seq<Item>)
      requires pos + |EncodeAll(items)| <= buffer.Length
      modifies this`pos, buffer
      ensures Wrote(EncodeAll(items))
      decreases |items|
    {
      if items != [] {
        var n := |items| - 1;
        WriteAll(items[..n]);
        WriteItem(items[n]);
        PatchTwice(old(buffer[..]), old(pos), EncodeAll(items[..n]), Encoding(items[n]));
      }
    }

    method ReadAll(fields: seq<Field>, ghost items: seq<Item>) returns (read: seq<Item>)
      requires |fields| == |items| && forall i :: 0 <= i < |items| ==> Describes(fields[i], items[i])
      requires HasAt(buffer[..], pos, EncodeAll(items))
      modifies this`pos
      ensures pos == old(pos) + |EncodeAll(items)| && |read| == |items|
      ensures forall i :: 0 <= i < |items| ==> read[i] == Returned(fields[i], items[i])
      decreases |fields|
    {
      read := [];
      if fields != [] {
        var n := |fields| - 1;
        ghost var front := EncodeAll(items[..n]);
        PartAt(buffer[..], pos, EncodeAll(items), [], front);
        PartAt(buffer[..], pos, EncodeAll(items), front, Encoding(items[n]));
        read := ReadAll(fields[..n], items[..n]);
        var item := ReadItem(fields[n], items[n]);
        read := read + [item];
      }
    }
  }

  /** Reading changes nothing exactly if all fields are wide enough. */
  lemma FittingComesBack(fields: seq<Field>, items: seq<Item>, read: seq<Item>)
    requires |fields| == |items| == |read|
    requires forall i :: 0 <= i < |items| ==> Describes(fields[i], items[i]) && read[i] == Returned(fields[i], items[i])
    ensures read == items <==> forall i :: 0 <= i < |items| ==> Fits(fields[i], items[i])
  {
    forall i | 0 <= i < |items| ensures read[i] == items[i] <==> Fits(fields[i], items[i]) {
      if Fits(fields[i], items[i]) && items[i].Number? {
        RemainderIsUnique(items[i].n, 0, items[i].n, fields[i].modulus);
      }
    }
  }

  /**
   * Round trip: any list of numbers and blobs, written anywhere in a buffer and read back with the
   * same schema, comes back if and only if its numbers fit their fields, and reading ends where writing
   * ended.
   */
  method RoundTrip(buffer: array<byte>, at: nat, items: seq<Item>, fields: seq<Field>)
    returns (read: seq<Item>, end: nat)
    requires |fields| == |items| && forall i :: 0 <= i < |items| ==> Describes(fields[i], items[i])
    requires at + |EncodeAll(items)| <= buffer.Length
    modifies buffer
    ensures end == at + |EncodeAll(items)| && |read| == |items|
    ensures forall i :: 0 <= i < |items| ==> read[i] == Returned(fields[i], items[i])
    ensures read == items <==> forall i :: 0 <= i < |items| ==> Fits(fields[i], items[i])
    ensures buffer[..at] == old(buffer[..at]) && buffer[end..] == old(buffer[..])[end..]
  {
    var writer := new MicroMsg(buffer, at);
    writer.WriteAll(items);
    var reader := new MicroMsg(buffer, at);
    PatchHolds(old(buffer[..]), at, EncodeAll(items));
    read := reader.ReadAll(fields, items);
    end := reader.pos;
    FittingComesBack(fields, items, read);
  }
}
