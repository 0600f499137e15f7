/** The binary record in which the adapter stores an entry: encodeRecord and decodeRecord of
  * persist/internal/localadapter/record.go. */
module Record {
  import opened Wrappers
  import opened Int64

  type Byte = x: int | 0 <= x < 256

  const HEADER_SIZE: nat := 29
  const MAX_UINT32: nat := 0xFFFF_FFFF
  const MAX_UINT64: nat := 0xFFFF_FFFF_FFFF_FFFF

  /** A point of time as time.Time gives it: signed Unix seconds and nanoseconds within the second. */
  datatype Instant = Instant(seconds: int, nanos: nat)

  predicate IsInstant(t: Instant) {
    MIN <= t.seconds <= MAX && t.nanos < 1_000_000_000
  }

  datatype Entry = Entry(key: seq<Byte>, payload: seq<Byte>, deadline: Option<Instant>, sequence: nat)

  predicate Storable(e: Entry) {
    |e.key| <= MAX_UINT32 && e.sequence <= MAX_UINT64 && (e.deadline.Some? ==> IsInstant(e.deadline.value))
  }

  datatype Error = InvalidArgument | CorruptEntry

  // ---------------------------------------------------------------- fixed-width integers

  function BigEndian(v: nat, width: nat): (b: seq<Byte>)
    ensures |b| == width
  {
    if width == 0 then [] else BigEndian(v / 256, width - 1) + [v % 256]
  }

  function Unsigned(b: seq<Byte>): nat {
    if b == [] then 0 else 256 * Unsigned(b[..|b| - 1]) + b[|b| - 1]
  }

  function Limit(width: nat): nat {
    if width == 0 then 1 else 256 * Limit(width - 1)
  }

  lemma {:induction false} UnsignedOfBigEndian(v: nat, width: nat)
    requires v < Limit(width)
    ensures Unsigned(BigEndian(v, width)) == v
  {
    if width > 0 {
      UnsignedOfBigEndian(v / 256, width - 1);
      assert BigEndian(v, width)[..width - 1] == BigEndian(v / 256, width - 1);
    }
  }

  lemma {:induction false} BigEndianOfUnsigned(b: seq<Byte>)
    ensures Unsigned(b) < Limit(|b|) && BigEndian(Unsigned(b), |b|) == b
  {
    if b != [] {
      BigEndianOfUnsigned(b[..|b| - 1]);
      assert Unsigned(b) / 256 == Unsigned(b[..|b| - 1]);
    }
  }

  lemma Limits()
    ensures Limit(4) == MAX_UINT32 + 1 && Limit(8) == MAX_UINT64 + 1
  {
    assert Limit(4) == 256 * 256 * 256 * 256;
    assert Limit(8) == 256 * 256 * 256 * 256 * Limit(4);
  }

  /** uint64(x) and int64(x): two's complement. */
  function ToUint64(x: int): nat
    requires MIN <= x <= MAX
  {
    if x < 0 then x + MAX_UINT64 + 1 else x
  }

  function ToInt64(x: nat): int
    requires x <= MAX_UINT64
  {
    if x > MAX then x - MAX_UINT64 - 1 else x
  }

  // ---------------------------------------------------------------- what a record looks like

  /** "GAC2" */
  const MAGIC: seq<Byte> := [71, 65, 67, 50]

  function Flag(e: Entry): Byte {
    if e.deadline.Some? then 1 else 0
  }

  function SecondsField(e: Entry): nat
    requires Storable(e)
  {
    if e.deadline.Some? then ToUint64(e.deadline.value.seconds) else 0
  }

  function NanosField(e: Entry): nat {
    if e.deadline.Some? then e.deadline.value.nanos else 0
  }

  function Header(e: Entry): (h: seq<Byte>)
    requires Storable(e)
    ensures |h| == HEADER_SIZE
  {
    MAGIC + ([Flag(e)] + (BigEndian(SecondsField(e), 8) + (BigEndian(NanosField(e), 4)
    + (BigEndian(e.sequence, 8) + BigEndian(|e.key|, 4)))))
  }

  function Bytes(e: Entry): seq<Byte>
    requires Storable(e)
  {
    Header(e) + e.key + e.payload
  }

  /** The same layout, field by field. */
  ghost predicate HeaderLaid(d: seq<Byte>, e: Entry)
    requires Storable(e) && |d| >= HEADER_SIZE
  {
    && d[..4] == MAGIC
    && d[4] == Flag(e)
    && d[5..13] == BigEndian(SecondsField(e), 8)
    && d[13..17] == BigEndian(NanosField(e), 4)
    && d[17..25] == BigEndian(e.sequence, 8)
    && d[25..29] == BigEndian(|e.key|, 4)
  }

  ghost predicate Laid(d: seq<Byte>, e: Entry)
    requires Storable(e)
  {
    && |d| == HEADER_SIZE + |e.key| + |e.payload|
    && HeaderLaid(d, e)
    && d[HEADER_SIZE..HEADER_SIZE + |e.key|] == e.key
    && d[HEADER_SIZE + |e.key|..] == e.payload
  }

  lemma Peel(h: seq<Byte>, i: nat, a: seq<Byte>, rest: seq<Byte>)
    requires i + |a| + |rest| == |h|
    ensures h[i..] == a + rest <==> h[i..i + |a|] == a && h[i + |a|..] == rest
  {
    var t := h[i..];
    assert t == t[..|a|] + t[|a|..] && t[..|a|] == h[i..i + |a|] && t[|a|..] == h[i + |a|..];
    if t == a + rest {
      assert (a + rest)[..|a|] == a && (a + rest)[|a|..] == rest;
    }
  }

  lemma SixParts(h: seq<Byte>, a: seq<Byte>, b: seq<Byte>, c: seq<Byte>, d: seq<Byte>, e: seq<Byte>, f: seq<Byte>)
    requires |h| == HEADER_SIZE && |a| == 4 && |b| == 1 && |c| == 8 && |d| == 4 && |e| == 8 && |f| == 4
    ensures h == a + (b + (c + (d + (e + f)))) <==>
            h[..4] == a && h[4..5] == b && h[5..13] == c && h[13..17] == d && h[17..25] == e && h[25..29] == f
  {
    assert h[0..] == h && h[0..4] == h[..4] && h[25..] == h[25..29];
    Peel(h, 0, a, b + (c + (d + (e + f))));
    Peel(h, 4, b, c + (d + (e + f)));
    Peel(h, 5, c, d + (e + f));
    Peel(h, 13, d, e + f);
    Peel(h, 17, e, f);
  }

  lemma SliceOfPrefix(d: seq<Byte>, n: nat, i: nat, j: nat)
    requires i <= j <= n <= |d|
    ensures d[..n][i..j] == d[i..j]
  {
  }

  lemma HeaderLayout(d: seq<Byte>, e: Entry)
    requires Storable(e) && |d| >= HEADER_SIZE
    ensures HeaderLaid(d, e) <==> d[..HEADER_SIZE] == Header(e)
  {
    SixParts(d[..HEADER_SIZE], MAGIC, [Flag(e)], BigEndian(SecondsField(e), 8), BigEndian(NanosField(e), 4),
             BigEndian(e.sequence, 8), BigEndian(|e.key|, 4));
    SliceOfPrefix(d, HEADER_SIZE, 0, 4);
    SliceOfPrefix(d, HEADER_SIZE, 4, 5);
    SliceOfPrefix(d, HEADER_SIZE, 5, 13);
    SliceOfPrefix(d, HEADER_SIZE, 13, 17);
    SliceOfPrefix(d, HEADER_SIZE, 17, 25);
    SliceOfPrefix(d, HEADER_SIZE, 25, 29);
    assert d[4..5] == [d[4]];
  }

  lemma InThree(d: seq<Byte>, i: nat, j: nat, a: seq<Byte>, b: seq<Byte>, c: seq<Byte>)
    requires i <= j <= |d| && |a| == i && |b| == j - i && |c| == |d| - j
    ensures d == a + b + c <==> d[..i] == a && d[i..j] == b && d[j..] == c
  {
    if d == a + b + c {
      assert (a + b)[..i] == a && (a + b)[i..] == b;
      assert (a + b + c)[..j] == a + b && (a + b + c)[j..] == c;
      assert d[..i] == d[..j][..i] && d[i..j] == d[..j][i..];
    }
    assert d[..j] == d[..i] + d[i..j] && d == d[..j] + d[j..];
  }

  lemma Layout(d: seq<Byte>, e: Entry)
    requires Storable(e)
    ensures Laid(d, e) <==> d == Bytes(e)
  {
    if |d| == HEADER_SIZE + |e.key| + |e.payload| {
      HeaderLayout(d, e);
      var mid := HEADER_SIZE + |e.key|;
      InThree(d, HEADER_SIZE, mid, Header(e), e.key, e.payload);
    }
  }

  // ---------------------------------------------------------------- the encoder

  predicate TooLarge(key: seq<Byte>, value: seq<Byte>) {
    |key| > MAX_UINT32 || |value| > MAX - HEADER_SIZE - |key|
  }

  method PutUint(data: array<Byte>, at: nat, width: nat, v: nat)
    requires at + width <= data.Length
    modifies data
    ensures data[at..at + width] == BigEndian(v, width)
    ensures forall i :: 0 <= i < at || at + width <= i < data.Length ==> data[i] == old(data[i])
  {
    var i: nat, rest: nat := width, v;
    while i > 0
      invariant 0 <= i <= width
      invariant rest >= 0
      invariant forall k :: 0 <= k < at || at + width <= k < data.Length ==> data[k] == old(data[k])
      invariant BigEndian(v, width) == BigEndian(rest, i) + data[at + i..at + width]
    {
      i := i - 1;
      ghost var later := data[at + i + 1..at + width];
      data[at + i] := rest % 256;
      assert data[at + i + 1..at + width] == later;
      assert data[at + i..at + width] == [rest % 256] + later;
      rest := rest / 256;
    }
  }

  /** The copy built-in. */
  method CopyAt(data: array<Byte>, at: nat, src: seq<Byte>)
    requires at + |src| <= data.Length
    modifies data
    ensures forall i :: 0 <= i < |src| ==> data[at + i] == src[i]
    ensures forall i :: 0 <= i < at || at + |src| <= i < data.Length ==> data[i] == old(data[i])
  {
    forall i | 0 <= i < |src| {
      data[at + i] := src[i];
    }
  }

  lemma ZeroField(d: seq<Byte>, at: nat, width: nat)
    requires at + width <= |d| && forall i :: at <= i < at + width ==> d[i] == 0
    ensures d[at..at + width] == BigEndian(0, width)
  {
    Zeros(width);
  }

  lemma SameField(d: seq<Byte>, d': seq<Byte>, i: nat, j: nat)
    requires i <= j <= |d| == |d'| && forall k :: i <= k < j ==> d[k] == d'[k]
    ensures d[i..j] == d'[i..j]
  {
  }

  /** The flag and the deadline, where there were zeros. */
  method PutDeadline(data: array<Byte>, expiresAt: Instant, expires: bool, ghost e: Entry)
    requires data.Length >= HEADER_SIZE && forall i :: 4 <= i < 17 ==> data[i] == 0
    requires Storable(e) && IsInstant(expiresAt) && e.deadline == if expires then Some(expiresAt) else None
    modifies data
    ensures data[4] == Flag(e) && data[5..13] == BigEndian(SecondsField(e), 8)
    ensures data[13..17] == BigEndian(NanosField(e), 4)
    ensures forall i :: 0 <= i < 4 || 17 <= i < data.Length ==> data[i] == old(data[i])
  {
    if expires {
      data[4] := 1;
      PutUint(data, 5, 8, ToUint64(expiresAt.seconds));
      ghost var d := data[..];
      PutUint(data, 13, 4, expiresAt.nanos);
      SameField(d, data[..], 5, 13);
    } else {
      ZeroField(data[..], 5, 8);
      ZeroField(data[..], 13, 4);
    }
  }

  method PutHeader(data: array<Byte>, keyLen: nat, expiresAt: Instant, expires: bool, ghost e: Entry)
    requires data.Length == HEADER_SIZE + |e.key| + |e.payload| && forall i :: 0 <= i < data.Length ==> data[i] == 0
    requires Storable(e) && e.sequence == 0 && IsInstant(expiresAt) && keyLen == |e.key|
    requires e.deadline == if expires then Some(expiresAt) else None
    modifies data
    ensures data[..HEADER_SIZE] == Header(e)
  {
    CopyAt(data, 0, MAGIC);
    PutDeadline(data, expiresAt, expires, e);
    ghost var d := data[..];
    ZeroField(d, 17, 8);
    PutUint(data, 25, 4, keyLen);
    SameField(d, data[..], 5, 13);
    SameField(d, data[..], 13, 17);
    SameField(d, data[..], 17, 25);
    assert data[..][..4] == MAGIC;
    HeaderLayout(data[..], e);
  }

  /** The record is written with sequence zero; the caller stamps it later. */
  method EncodeRecord(key: seq<Byte>, value: seq<Byte>, expiresAt: Instant, expires: bool)
    returns (r: Result<array<Byte>, Error>)
    requires IsInstant(expiresAt)
    ensures r.Err? <==> |key| >= 0x1_0000_0000 || HEADER_SIZE + |key| + |value| > MAX
    ensures r.Err? ==> r.error == InvalidArgument
    ensures r.Ok? ==> fresh(r.value)
                      && r.value[..] == Bytes(Entry(key, value, if expires then Some(expiresAt) else None, 0))
  {
    if TooLarge(key, value) {
      return Err(InvalidArgument);
    }
    ghost var e := Entry(key, value, if expires then Some(expiresAt) else None, 0);
    var data := new Byte[HEADER_SIZE + |key| + |value|](i => 0);
    PutHeader(data, |key|, expiresAt, expires, e);
    CopyAt(data, HEADER_SIZE, key);
    CopyAt(data, HEADER_SIZE + |key|, value);
    Assemble(data[..], e);
    return Ok(data);
  }

  lemma Assemble(d: seq<Byte>, e: Entry)
    requires Storable(e) && |d| == HEADER_SIZE + |e.key| + |e.payload|
    requires d[..HEADER_SIZE] == Header(e)
    requires forall i :: 0 <= i < |e.key| ==> d[HEADER_SIZE + i] == e.key[i]
    requires forall i :: 0 <= i < |e.payload| ==> d[HEADER_SIZE + |e.key| + i] == e.payload[i]
    ensures d == Bytes(e)
  {
    HeaderLayout(d, e);
    Layout(d, e);
  }

  lemma {:induction false} Zeros(width: nat)
    ensures BigEndian(0, width) == seq(width, i => 0)
  {
    if width > 0 {
      Zeros(width - 1);
    }
  }

  /** The store numbers each record just before it hands it to the engine. */
  method Stamp(data: array<Byte>, ghost e: Entry, sequence: nat)
    requires Storable(e) && data[..] == Bytes(e) && sequence <= MAX_UINT64
    modifies data
    ensures data[..] == Bytes(e.(sequence := sequence))
  {
    Layout(data[..], e);
    PutUint(data, 17, 8, sequence);
    Layout(data[..], e.(sequence := sequence));
  }

  // ---------------------------------------------------------------- the decoder

  function DecodeRecord(data: seq<Byte>): Result<Entry, Error> {
    if |data| < HEADER_SIZE || data[..4] != MAGIC || data[4] > 1 then Err(CorruptEntry)
    else
      BigEndianOfUnsigned(data[5..13]);
      Limits();
      var seconds := ToInt64(Unsigned(data[5..13]));
      var nanos := Unsigned(data[13..17]);
      var sequence := Unsigned(data[17..25]);
      var keyLen := Unsigned(data[25..29]);
      if nanos >= 1_000_000_000 || sequence == 0 || keyLen > |data| - HEADER_SIZE
         || (data[4] == 0 && (seconds != 0 || nanos != 0)) then Err(CorruptEntry)
      else
        Ok(Entry(data[HEADER_SIZE..HEADER_SIZE + keyLen], data[HEADER_SIZE + keyLen..],
                 if data[4] == 1 then Some(Instant(seconds, nanos)) else None, sequence))
  }

  /** Decoding a stamped record gives back every part of the entry. */
  lemma DecodeOfEncode(e: Entry)
    requires Storable(e) && e.sequence != 0
    ensures DecodeRecord(Bytes(e)) == Ok(e)
  {
    var d := Bytes(e);
    Layout(d, e);
    Limits();
    UnsignedOfBigEndian(SecondsField(e), 8);
    UnsignedOfBigEndian(NanosField(e), 4);
    UnsignedOfBigEndian(e.sequence, 8);
    UnsignedOfBigEndian(|e.key|, 4);
  }

  lemma SignedAndBack(x: nat)
    requires x <= MAX_UINT64
    ensures MIN <= ToInt64(x) <= MAX && ToUint64(ToInt64(x)) == x
  {
  }

  /** What the decoder has read, field by field. */
  lemma DecodedFields(d: seq<Byte>, e: Entry)
    requires DecodeRecord(d) == Ok(e)
    ensures Storable(e) && e.sequence != 0 && |d| == HEADER_SIZE + |e.key| + |e.payload|
    ensures d[..4] == MAGIC && d[4] == Flag(e)
    ensures SecondsField(e) == Unsigned(d[5..13]) && NanosField(e) == Unsigned(d[13..17])
    ensures e.sequence == Unsigned(d[17..25]) && |e.key| == Unsigned(d[25..29])
    ensures d[HEADER_SIZE..HEADER_SIZE + |e.key|] == e.key && d[HEADER_SIZE + |e.key|..] == e.payload
  {
    Limits();
    BigEndianOfUnsigned(d[5..13]);
    BigEndianOfUnsigned(d[17..25]);
    BigEndianOfUnsigned(d[25..29]);
    SignedAndBack(Unsigned(d[5..13]));
  }

  /** Whatever the decoder accepts is the encoding of what it returns: no two byte strings decode alike. */
  lemma EncodeOfDecode(d: seq<Byte>)
    requires DecodeRecord(d).Ok?
    ensures var e := DecodeRecord(d).value; Storable(e) && e.sequence != 0 && Bytes(e) == d
  {
    var e := DecodeRecord(d).value;
    DecodedFields(d, e);
    BigEndianOfUnsigned(d[5..13]);
    BigEndianOfUnsigned(d[13..17]);
    BigEndianOfUnsigned(d[17..25]);
    BigEndianOfUnsigned(d[25..29]);
    assert HeaderLaid(d, e);
    Layout(d, e);
  }

  /** An unstamped record, such as encodeRecord leaves it, is refused. */
  lemma UnstampedIsCorrupt(e: Entry)
    requires Storable(e) && e.sequence == 0
    ensures DecodeRecord(Bytes(e)) == Err(CorruptEntry)
  {
    if DecodeRecord(Bytes(e)).Ok? {
      EncodeOfDecode(Bytes(e));
      var f := DecodeRecord(Bytes(e)).value;
      Layout(Bytes(e), f);
      Layout(Bytes(e), e);
      Limits();
      UnsignedOfBigEndian(f.sequence, 8);
      UnsignedOfBigEndian(0, 8);
    }
  }
}
