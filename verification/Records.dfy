/** The on-disk record format of the agent's bucket cache and the scan that reads it back.

    A record is a 20-byte header (magic, second, body length, checksum; little endian) and a body.
    Erasing a record overwrites the four bytes of its magic. */
module Records {

  type byte = x: int | 0 <= x < 256
  type uint32 = x: int | 0 <= x < 0x1_0000_0000
  type Checksum = seq<byte> -> uint32

  const MAGIC_GOOD: uint32 := 0x59b907EC
  const MAGIC_DELETED: uint32 := 0x000007EC
  const DELETED_MARK: seq<byte> := [0xEC, 0x07, 0x00, 0x00] // MAGIC_DELETED, little endian
  const HEADER_SIZE := 20
  const FILE_ROTATE_SIZE := 52428800 // 50 << 20
  const MAX_CHUNK_SIZE := FILE_ROTATE_SIZE - HEADER_SIZE

  // ---------- little-endian integers ----------

  function Pow256(k: nat): (p: nat)
    ensures p > 0
  {
    if k == 0 then 1 else 256 * Pow256(k - 1)
  }

  function ToBytes(v: nat, k: nat): (b: seq<byte>)
    ensures |b| == k
    decreases k
  {
    if k == 0 then [] else [v % 256] + ToBytes(v / 256, k - 1)
  }

  function FromBytes(b: seq<byte>): nat {
    if b == [] then 0 else b[0] + 256 * FromBytes(b[1..])
  }

  lemma {:induction false} BytesRoundTrip(v: nat, k: nat)
    requires v < Pow256(k)
    ensures FromBytes(ToBytes(v, k)) == v
    decreases k
  {
    if k > 0 {
      BytesRoundTrip(v / 256, k - 1);
      assert ToBytes(v, k)[1..] == ToBytes(v / 256, k - 1);
    }
  }

  lemma {:induction false} FromBytesBound(b: seq<byte>)
    ensures FromBytes(b) < Pow256(|b|)
  {
    if b != [] { FromBytesBound(b[1..]); }
  }

  lemma Pow256Values()
    ensures Pow256(4) == 0x1_0000_0000 && Pow256(8) == 0x1_0000_0000_0000_0000
  {
    assert Pow256(2) == 65536;
    assert Pow256(3) == 16777216;
    assert Pow256(5) == 256 * Pow256(4);
    assert Pow256(6) == 256 * Pow256(5);
    assert Pow256(7) == 256 * Pow256(6);
  }

  function Uint32At(b: seq<byte>, p: nat): uint32
    requires p + 4 <= |b|
  {
    FromBytesBound(b[p..p + 4]);
    Pow256Values();
    FromBytes(b[p..p + 4])
  }

  /** The length field: an unsigned 64-bit number read as a signed one. */
  function LengthAt(b: seq<byte>, p: nat): int
    requires p + HEADER_SIZE <= |b|
  {
    var v := FromBytes(b[p + 8..p + 16]);
    if v < 0x8000_0000_0000_0000 then v else v - 0x1_0000_0000_0000_0000
  }

  // ---------- records ----------

  /** A live record found in a file: where its header starts and what it holds. */
  datatype Record = Record(pos: nat, time: uint32, crc: uint32, body: seq<byte>)

  function Header(time: uint32, length: nat, crc: uint32): (h: seq<byte>)
    ensures |h| == HEADER_SIZE
  {
    ToBytes(MAGIC_GOOD, 4) + ToBytes(time, 4) + ToBytes(length, 8) + ToBytes(crc, 4)
  }

  function Encode(time: uint32, body: seq<byte>, crc: uint32): (b: seq<byte>)
    ensures |b| == HEADER_SIZE + |body|
  {
    Header(time, |body|, crc) + body
  }

  /** The header at `p` is complete and its length field keeps the chunk inside the file. */
  predicate WellSized(b: seq<byte>, p: nat) {
    && p + HEADER_SIZE <= |b|
    && 0 <= LengthAt(b, p) <= MAX_CHUNK_SIZE
    && p + HEADER_SIZE + LengthAt(b, p) <= |b|
  }

  function Next(b: seq<byte>, p: nat): (n: nat)
    requires WellSized(b, p)
    ensures p + HEADER_SIZE <= n <= |b|
  {
    p + HEADER_SIZE + LengthAt(b, p)
  }

  predicate Good(b: seq<byte>, p: nat) {
    WellSized(b, p) && Uint32At(b, p) == MAGIC_GOOD
  }

  /** A chunk the scan walks over: a live record or an erased one. */
  predicate Passable(b: seq<byte>, p: nat) {
    WellSized(b, p) && (Uint32At(b, p) == MAGIC_GOOD || Uint32At(b, p) == MAGIC_DELETED)
  }

  function RecordAt(b: seq<byte>, p: nat): Record
    requires WellSized(b, p)
  {
    Record(p, Uint32At(b, p + 4), Uint32At(b, p + 16), b[p + HEADER_SIZE..Next(b, p)])
  }

  /** The record at `p`, if there is a live one. */
  function Here(b: seq<byte>, p: nat): seq<Record> {
    if Good(b, p) then [RecordAt(b, p)] else []
  }

  /** Every live record met when reading from `p` to the end or to the first bad chunk. */
  function Scan(b: seq<byte>, p: nat): seq<Record>
    decreases |b| - p
  {
    if !Passable(b, p) then []
    else Here(b, p) + Scan(b, Next(b, p))
  }

  /** Walking chunk by chunk from `q` stops exactly at `p`. */
  predicate Reaches(b: seq<byte>, q: nat, p: nat)
    decreases p - q
  {
    q == p || (q < p && Passable(b, q) && Reaches(b, Next(b, q), p))
  }

  /** The live records between `q` and `p`. */
  function ScanTo(b: seq<byte>, q: nat, p: nat): seq<Record>
    requires Reaches(b, q, p)
    decreases p - q
  {
    if q == p then []
    else Here(b, q) + ScanTo(b, Next(b, q), p)
  }

  // ---------- what a freshly written record looks like ----------

  lemma Fields<T>(b: seq<T>, m: seq<T>, t: seq<T>, l: seq<T>, c: seq<T>, rest: seq<T>)
    requires |m| == 4 && |t| == 4 && |l| == 8 && |c| == 4
    ensures var f := b + (m + t + l + c) + rest;
            var p := |b|;
            && f[p..p + 4] == m && f[p + 4..p + 8] == t && f[p + 8..p + 16] == l && f[p + 16..p + 20] == c
            && f[p + 20..] == rest
  {}

  lemma HeaderFields(b: seq<byte>, time: uint32, length: nat, crc: uint32, rest: seq<byte>)
    requires length <= MAX_CHUNK_SIZE
    ensures var f := b + Header(time, length, crc) + rest;
            var p := |b|;
            && Uint32At(f, p) == MAGIC_GOOD
            && Uint32At(f, p + 4) == time
            && LengthAt(f, p) == length
            && Uint32At(f, p + 16) == crc
            && f[p + HEADER_SIZE..] == rest
  {
    Fields(b, ToBytes(MAGIC_GOOD, 4), ToBytes(time, 4), ToBytes(length, 8), ToBytes(crc, 4), rest);
    Pow256Values();
    BytesRoundTrip(MAGIC_GOOD, 4);
    BytesRoundTrip(time, 4);
    BytesRoundTrip(length, 8);
    BytesRoundTrip(crc, 4);
  }

  lemma FieldsMakeRecord(f: seq<byte>, p: nat, time: uint32, body: seq<byte>, crc: uint32)
    requires |f| == p + HEADER_SIZE + |body| && |body| <= MAX_CHUNK_SIZE && f[p + HEADER_SIZE..] == body
    requires Uint32At(f, p) == MAGIC_GOOD && Uint32At(f, p + 4) == time
    requires LengthAt(f, p) == |body| && Uint32At(f, p + 16) == crc
    ensures Good(f, p) && Next(f, p) == |f| && RecordAt(f, p) == Record(p, time, crc, body)
  {
    hide Uint32At, LengthAt, FromBytes;
  }

  lemma EncodedFields(b: seq<byte>, time: uint32, body: seq<byte>, crc: uint32)
    requires |body| <= MAX_CHUNK_SIZE
    ensures var f := b + Encode(time, body, crc);
            && Good(f, |b|)
            && Next(f, |b|) == |f|
            && RecordAt(f, |b|) == Record(|b|, time, crc, body)
  {
    hide Header, Uint32At, LengthAt, ToBytes, FromBytes;
    HeaderFields(b, time, |body|, crc, body);
    assert b + Encode(time, body, crc) == b + Header(time, |body|, crc) + body;
    FieldsMakeRecord(b + Encode(time, body, crc), |b|, time, body, crc);
  }

  // ---------- the scan is local ----------

  /** Two files that agree on the header and hold the whole chunk see the same chunk at `p`. */
  lemma SameChunk(b: seq<byte>, c: seq<byte>, p: nat)
    requires WellSized(b, p) && Next(b, p) <= |c| && b[p..Next(b, p)] == c[p..Next(b, p)]
    ensures WellSized(c, p) && Next(c, p) == Next(b, p)
    ensures Uint32At(c, p) == Uint32At(b, p) && RecordAt(c, p) == RecordAt(b, p)
  {
    var n := Next(b, p);
    SameSlice(b, c, p, n, p, p + 4);
    SameSlice(b, c, p, n, p + 4, p + 8);
    SameSlice(b, c, p, n, p + 8, p + 16);
    SameSlice(b, c, p, n, p + 16, p + 20);
    SameSlice(b, c, p, n, p + 20, n);
  }

  lemma SameSlice<T>(b: seq<T>, c: seq<T>, p: nat, n: nat, i: nat, j: nat)
    requires p <= i <= j <= n <= |b| && n <= |c| && b[p..n] == c[p..n]
    ensures b[i..j] == c[i..j]
  {
    forall k | 0 <= k < j - i ensures b[i..j][k] == c[i..j][k] {
      assert b[p..n][i - p + k] == b[i + k] && c[p..n][i - p + k] == c[i + k];
    }
  }

  lemma {:induction false} ReachesInside(b: seq<byte>, q: nat, p: nat)
    requires Reaches(b, q, p) && q <= |b|
    ensures q <= p <= |b|
    decreases p - q
  {
    if q < p { ReachesInside(b, Next(b, q), p); }
  }

  /** Records between `q` and `p` depend only on the bytes between them. */
  lemma {:induction false} ScanToLocal(b: seq<byte>, c: seq<byte>, q: nat, p: nat)
    requires q <= |b| && Reaches(b, q, p) && q <= p <= |b| && p <= |c| && b[q..p] == c[q..p]
    ensures Reaches(c, q, p) && ScanTo(c, q, p) == ScanTo(b, q, p)
    decreases p - q
  {
    if q < p {
      var n := Next(b, q);
      ReachesInside(b, n, p);
      SameSlice(b, c, q, p, q, n);
      SameSlice(b, c, q, p, n, p);
      SameChunk(b, c, q);
      ScanToLocal(b, c, n, p);
    }
  }

  /** Records from `p` on depend only on the bytes from `p` on. */
  lemma {:induction false} ScanLocal(b: seq<byte>, c: seq<byte>, p: nat)
    requires |b| == |c| && p <= |b| && b[p..] == c[p..]
    ensures Scan(b, p) == Scan(c, p)
    decreases |b| - p
  {
    if WellSized(b, p) {
      var n := Next(b, p);
      assert b[p..n] == b[p..][..n - p] && c[p..n] == c[p..][..n - p];
      SameChunk(b, c, p);
      assert b[n..] == b[p..][n - p..] && c[n..] == c[p..][n - p..];
      ScanLocal(b, c, n);
    } else if WellSized(c, p) {
      var n := Next(c, p);
      assert b[p..n] == b[p..][..n - p] && c[p..n] == c[p..][..n - p];
      SameChunk(c, b, p);
    }
  }

  lemma {:induction false} ScanSplit(b: seq<byte>, q: nat, p: nat)
    requires Reaches(b, q, p)
    ensures Scan(b, q) == ScanTo(b, q, p) + Scan(b, p)
    decreases p - q
  {
    if q < p {
      var n := Next(b, q);
      ScanSplit(b, n, p);
      Associate(Here(b, q), ScanTo(b, n, p), Scan(b, p));
    }
  }

  lemma Associate<T>(x: seq<T>, y: seq<T>, z: seq<T>)
    ensures x + (y + z) == (x + y) + z
  {}

  lemma {:induction false} ReachesStep(b: seq<byte>, q: nat, p: nat)
    requires Reaches(b, q, p) && Passable(b, p)
    ensures Reaches(b, q, Next(b, p))
    ensures ScanTo(b, q, Next(b, p)) == ScanTo(b, q, p) + Here(b, p)
    decreases p - q
  {
    if q < p {
      ReachesStep(b, Next(b, q), p);
      Associate(Here(b, q), ScanTo(b, Next(b, q), p), Here(b, p));
    } else {
      assert ScanTo(b, Next(b, p), Next(b, p)) == [];
    }
  }

  /** Records come out in the order they were written. */
  lemma {:induction false} ScanInOrder(b: seq<byte>, p: nat)
    ensures forall r | r in Scan(b, p) :: p <= r.pos
    ensures forall i, j | 0 <= i < j < |Scan(b, p)| :: Scan(b, p)[i].pos < Scan(b, p)[j].pos
    decreases |b| - p
  {
    if Passable(b, p) {
      ScanInOrder(b, Next(b, p));
    }
  }

  // ---------- appending, torn appends, erasing ----------

  /** A complete append adds one record at the end and disturbs nothing before it. */
  lemma AppendChunk(b: seq<byte>, e: seq<byte>)
    requires Reaches(b, 0, |b|) && Good(b + e, |b|) && Next(b + e, |b|) == |b + e|
    ensures Reaches(b + e, 0, |b|) && Reaches(b + e, 0, |b + e|)
    ensures Scan(b + e, 0) == Scan(b, 0) + [RecordAt(b + e, |b|)]
  {
    var f := b + e;
    assert f[0..|b|] == b[0..|b|];
    ScanToLocal(b, f, 0, |b|);
    ReachesStep(f, 0, |b|);
    ScanSplit(b, 0, |b|);
    ScanSplit(f, 0, |f|);
    assert Scan(b, |b|) == [] && Scan(f, |f|) == [];
  }

  lemma AppendRecord(b: seq<byte>, time: uint32, body: seq<byte>, crc: uint32)
    requires Reaches(b, 0, |b|) && |body| <= MAX_CHUNK_SIZE
    ensures Scan(b + Encode(time, body, crc), 0) == Scan(b, 0) + [Record(|b|, time, crc, body)]
  {
    EncodedFields(b, time, body, crc);
    AppendChunk(b, Encode(time, body, crc));
  }

  /** What a cut-short write leaves behind is never taken for a chunk. */
  lemma TornChunk(b: seq<byte>, time: uint32, body: seq<byte>, crc: uint32, written: nat)
    requires |body| <= MAX_CHUNK_SIZE && written < HEADER_SIZE + |body|
    ensures !WellSized(b + Encode(time, body, crc)[..written], |b|)
  {
    if written >= HEADER_SIZE {
      var rest := body[..written - HEADER_SIZE];
      assert Encode(time, body, crc)[..written] == Header(time, |body|, crc) + rest;
      Associate(b, Header(time, |body|, crc), rest);
      HeaderFields(b, time, |body|, crc, rest);
    }
  }

  /** Bytes after the last chunk that do not start a chunk change nothing. */
  lemma TornAppend(b: seq<byte>, junk: seq<byte>)
    requires Reaches(b, 0, |b|) && !WellSized(b + junk, |b|)
    ensures Scan(b + junk, 0) == Scan(b, 0)
  {
    var f := b + junk;
    assert f[0..|b|] == b[0..|b|];
    ScanToLocal(b, f, 0, |b|);
    ScanSplit(b, 0, |b|);
    ScanSplit(f, 0, |b|);
  }

  // ---------- erasing ----------

  lemma {:induction false} ScanToSplit(b: seq<byte>, q: nat, m: nat, p: nat)
    requires Reaches(b, q, m) && Reaches(b, m, p) && m <= p
    ensures q <= m && Reaches(b, q, p) && ScanTo(b, q, p) == ScanTo(b, q, m) + ScanTo(b, m, p)
    decreases m - q
  {
    if q < m {
      var n := Next(b, q);
      ScanToSplit(b, n, m, p);
      Associate(Here(b, q), ScanTo(b, n, m), ScanTo(b, m, p));
    }
  }

  /** Two places reached from the same start lie on one walk. */
  lemma {:induction false} ReachesBetween(b: seq<byte>, q: nat, m: nat, p: nat)
    requires q <= |b| && Reaches(b, q, m) && Reaches(b, q, p) && m <= p
    ensures Reaches(b, m, p)
    decreases m - q
  {
    if q < m {
      ReachesInside(b, Next(b, q), m);
      ReachesBetween(b, Next(b, q), m, p);
    }
  }

  /** The file after the first `written` bytes of the deletion mark reached the disk. */
  function Stamp(b: seq<byte>, p: nat, written: nat): (c: seq<byte>)
    requires p + 4 <= |b| && written <= 4
    ensures |c| == |b|
    ensures forall i | 0 <= i < |b| && !(p <= i < p + 4) :: c[i] == b[i]
  {
    b[..p] + DELETED_MARK[..written] + b[p + written..]
  }

  lemma StampElsewhere(b: seq<byte>, p: nat, written: nat, i: nat, j: nat)
    requires p + 4 <= |b| && written <= 4 && i <= j <= |b| && (j <= p || p + 4 <= i)
    ensures Stamp(b, p, written)[i..j] == b[i..j]
  {}

  lemma MagicBytes()
    ensures ToBytes(MAGIC_DELETED, 4) == DELETED_MARK
    ensures ToBytes(MAGIC_GOOD, 4) == [0xEC, 0x07, 0xB9, 0x59]
  {
    assert ToBytes(0x59, 1) == [0x59];
    assert ToBytes(0x59B9, 2) == [0xB9, 0x59];
    assert ToBytes(0x59B907, 3) == [0x07, 0xB9, 0x59];
    assert ToBytes(0, 1) == [0] && ToBytes(0, 2) == [0, 0];
    assert ToBytes(7, 3) == [7, 0, 0];
  }

  lemma {:induction false} ToFromBytes(b: seq<byte>)
    ensures ToBytes(FromBytes(b), |b|) == b
  {
    if b != [] {
      ToFromBytes(b[1..]);
      LowByte(b[0], FromBytes(b[1..]));
    }
  }

  lemma LowByte(low: byte, high: nat)
    ensures (low + 256 * high) % 256 == low && (low + 256 * high) / 256 == high
  {}

  lemma GoodBytes(b: seq<byte>, p: nat)
    requires Good(b, p)
    ensures b[p] == 0xEC && b[p + 1] == 0x07 && b[p + 2] == 0xB9 && b[p + 3] == 0x59
  {
    MagicBytes();
    ToFromBytes(b[p..p + 4]);
    var m := b[p..p + 4];
    assert m == [0xEC, 0x07, 0xB9, 0x59];
    assert b[p] == m[0] && b[p + 1] == m[1] && b[p + 2] == m[2] && b[p + 3] == m[3];
  }

  lemma StampedBytes(b: seq<byte>, p: nat, written: nat)
    requires p + 4 <= |b| && written <= 4
    ensures var c := Stamp(b, p, written);
            && c[p] == (if written > 0 then 0xEC else b[p])
            && c[p + 1] == (if written > 1 then 0x07 else b[p + 1])
            && c[p + 2] == (if written > 2 then 0x00 else b[p + 2])
            && c[p + 3] == (if written > 3 then 0x00 else b[p + 3])
  {
    StampByte(b, p, written, 0);
    StampByte(b, p, written, 1);
    StampByte(b, p, written, 2);
    StampByte(b, p, written, 3);
    hide Stamp;
  }

  lemma StampByte(b: seq<byte>, p: nat, written: nat, k: nat)
    requires p + 4 <= |b| && written <= 4 && k < 4
    ensures Stamp(b, p, written)[p + k] == if k < written then DELETED_MARK[k] else b[p + k]
  {
    if k >= written { assert b[p + written..][k - written] == b[p + k]; }
  }

  lemma MagicFromBytes(c: seq<byte>, p: nat, last: byte)
    requires p + 4 <= |c| && c[p] == 0xEC && c[p + 1] == 0x07 && c[p + 2] == 0x00 && c[p + 3] == last
    ensures Uint32At(c, p) == 0x7EC + 0x1000000 * last
  {
    var m := c[p..p + 4];
    assert m == [0xEC, 0x07, 0x00, last];
    assert m[1..] == [0x07, 0x00, last];
    assert m[1..][1..] == [0x00, last];
    assert m[1..][1..][1..] == [last];
    assert FromBytes([last]) == last;
    assert FromBytes([0x00, last]) == 256 * last;
    assert FromBytes([0x07, 0x00, last]) == 7 + 65536 * last;
  }

  /** Up to two bytes of the mark change nothing, three make an unknown magic, four erase. */
  lemma StampedMagic(b: seq<byte>, p: nat, written: nat)
    requires Good(b, p) && written <= 4
    ensures var c := Stamp(b, p, written);
            && WellSized(c, p) && Next(c, p) == Next(b, p)
            && (written <= 2 ==> c == b)
            && (written == 3 ==> !Passable(c, p))
            && (written == 4 ==> Passable(c, p) && !Good(c, p))
  {
    var c := Stamp(b, p, written);
    StampElsewhere(b, p, written, p + 8, p + 16);
    GoodBytes(b, p);
    StampedBytes(b, p, written);
    if written >= 3 {
      MagicFromBytes(c, p, c[p + 3]);
    } else {
      forall i | 0 <= i < |b| ensures c[i] == b[i] { if p <= i < p + 4 { StampByte(b, p, written, i - p); } }
      assert c == b;
    }
    hide Stamp, FromBytes;
  }

  /** A complete erase removes exactly its own record: every other record of the file, before or
      after it, is still found with the same second, checksum and body. */
  lemma EraseRecord(b: seq<byte>, p: nat)
    requires Reaches(b, 0, p) && Good(b, p)
    ensures var c := Stamp(b, p, 4);
            && Scan(b, 0) == ScanTo(b, 0, p) + [RecordAt(b, p)] + Scan(b, Next(b, p))
            && Scan(c, 0) == ScanTo(b, 0, p) + Scan(b, Next(b, p))
  {
    var c := Stamp(b, p, 4);
    var n := Next(b, p);
    StampedMagic(b, p, 4);
    StampElsewhere(b, p, 4, 0, p);
    StampElsewhere(b, p, 4, n, |b|);
    assert |c| == |b| && n <= |b|;
    hide Stamp, Uint32At, LengthAt, FromBytes, Good, Passable, WellSized;
    SameTail(b, c, n);
    ScanHere(b, p);
    ScanOver(c, p);
    hide Scan;
    ScanToLocal(b, c, 0, p);
    ScanLocal(b, c, n);
    ScanSplit(b, 0, p);
    ScanSplit(c, 0, p);
    Associate(ScanTo(b, 0, p), [RecordAt(b, p)], Scan(b, n));
  }

  lemma SameTail(b: seq<byte>, c: seq<byte>, n: nat)
    requires |c| == |b| && n <= |b| && c[n..|b|] == b[n..|b|]
    ensures c[n..] == b[n..]
  {
    assert b[n..] == b[n..|b|];
    assert c[n..] == c[n..|c|];
  }

  lemma ScanHere(b: seq<byte>, p: nat)
    requires Good(b, p)
    ensures Next(b, p) <= |b| && Scan(b, p) == [RecordAt(b, p)] + Scan(b, Next(b, p))
  {}

  lemma ScanOver(b: seq<byte>, p: nat)
    requires p <= |b| && WellSized(b, p) && Passable(b, p) && !Good(b, p)
    ensures Next(b, p) <= |b| && Scan(b, p) == Scan(b, Next(b, p))
  {}

  /** An erase moves no chunk boundary. */
  lemma EraseKeepsWalk(b: seq<byte>, p: nat, x: nat)
    requires Reaches(b, 0, p) && Good(b, p) && Reaches(b, 0, x) && x <= |b|
    ensures Reaches(Stamp(b, p, 4), 0, x)
  {
    var c := Stamp(b, p, 4);
    var n := Next(b, p);
    hide Stamp, Uint32At, LengthAt, FromBytes;
    if x <= p {
      StampElsewhere(b, p, 4, 0, x);
      ScanToLocal(b, c, 0, x);
    } else {
      StampedMagic(b, p, 4);
      ReachesBetween(b, 0, p, x);
      ReachesInside(b, n, x);
      StampElsewhere(b, p, 4, 0, p);
      ScanToLocal(b, c, 0, p);
      ReachesStep(c, 0, p);
      StampElsewhere(b, p, 4, n, x);
      ScanToLocal(b, c, n, x);
      ScanToSplit(c, 0, n, x);
    }
  }

  /** A torn erase, exactly: with at most two bytes written the record is still there; with three
      written, this record and everything behind it in the file are gone for every later scan. */
  lemma TornErase(b: seq<byte>, p: nat, written: nat)
    requires Reaches(b, 0, p) && Good(b, p) && written < 4
    ensures Scan(Stamp(b, p, written), 0) == if written < 3 then Scan(b, 0) else ScanTo(b, 0, p)
    ensures Scan(Stamp(b, p, written), 0) == Scan(b, 0) <==> written < 3
  {
    var c := Stamp(b, p, written);
    StampedMagic(b, p, written);
    StampElsewhere(b, p, written, 0, p);
    hide Stamp, Uint32At, LengthAt, FromBytes;
    if written == 3 {
      ScanToLocal(b, c, 0, p);
      ScanSplit(c, 0, p);
      ScanSplit(b, 0, p);
    }
  }

  // ---------- whatever the marks say ----------

  /** Walking from `q` by the lengths alone stops exactly at `p`. No mark, whole or torn, changes that. */
  predicate Chain(b: seq<byte>, q: nat, p: nat)
    decreases p - q
  {
    q == p || (q < p && WellSized(b, q) && Chain(b, Next(b, q), p))
  }

  /** Where a scan from `q` stops. */
  function Stop(b: seq<byte>, q: nat): nat
    decreases |b| - q
  {
    if Passable(b, q) then Stop(b, Next(b, q)) else q
  }

  /** The scan stops at a complete chunk, because of its mark: what is behind it stays hidden. */
  predicate Broken(b: seq<byte>) {
    WellSized(b, Stop(b, 0))
  }

  lemma {:induction false} StopReached(b: seq<byte>, q: nat)
    ensures Reaches(b, q, Stop(b, q)) && !Passable(b, Stop(b, q))
    decreases |b| - q
  {
    if Passable(b, q) { StopReached(b, Next(b, q)); }
  }

  lemma {:induction false} StopThere(b: seq<byte>, q: nat, p: nat)
    requires Reaches(b, q, p) && !Passable(b, p)
    ensures Stop(b, q) == p
    decreases p - q
  {
    if q < p { StopThere(b, Next(b, q), p); }
  }

  lemma {:induction false} ChainInside(b: seq<byte>, q: nat, p: nat)
    requires Chain(b, q, p) && q <= |b|
    ensures q <= p <= |b|
    decreases p - q
  {
    if q < p { ChainInside(b, Next(b, q), p); }
  }

  lemma {:induction false} ChainStep(b: seq<byte>, q: nat, p: nat)
    requires Chain(b, q, p) && WellSized(b, p)
    ensures Chain(b, q, Next(b, p))
    decreases p - q
  {
    if q < p { ChainStep(b, Next(b, q), p); }
  }

  lemma {:induction false} ChainLocal(b: seq<byte>, c: seq<byte>, q: nat, p: nat)
    requires q <= |b| && Chain(b, q, p) && q <= p <= |b| && p <= |c| && b[q..p] == c[q..p]
    ensures Chain(c, q, p)
    decreases p - q
  {
    if q < p {
      var n := Next(b, q);
      ChainInside(b, n, p);
      SameSlice(b, c, q, p, q, n);
      SameSlice(b, c, q, p, n, p);
      SameChunk(b, c, q);
      ChainLocal(b, c, n, p);
    }
  }

  lemma {:induction false} ReachesIsChain(b: seq<byte>, q: nat, p: nat)
    requires Reaches(b, q, p)
    ensures Chain(b, q, p)
    decreases p - q
  {
    if q < p { ReachesIsChain(b, Next(b, q), p); }
  }

  /** A place on the chain that the scan does not reach lies behind a broken mark. */
  lemma {:induction false} HiddenBehind(b: seq<byte>, q: nat, p: nat)
    requires Chain(b, q, p)
    ensures !Reaches(b, q, p) ==> WellSized(b, Stop(b, q)) && Next(b, Stop(b, q)) <= p
    decreases p - q
  {
    if q < p {
      var n := Next(b, q);
      if Passable(b, q) { HiddenBehind(b, n, p); } else { ChainForward(b, n, p); }
    }
  }

  lemma ChainForward(b: seq<byte>, q: nat, p: nat)
    requires Chain(b, q, p)
    ensures q <= p
  {}

  /** The scan reaches everything on the chain exactly if no mark is broken before it. */
  lemma ReachedUnlessBroken(b: seq<byte>, p: nat)
    requires Chain(b, 0, p)
    ensures Reaches(b, 0, p) <==> !(Broken(b) && Stop(b, 0) < p)
  {
    HiddenBehind(b, 0, p);
    if Reaches(b, 0, p) && Stop(b, 0) < p {
      StopReached(b, 0);
      ReachesBetween(b, 0, Stop(b, 0), p);
    }
  }

  /** What is behind a broken mark does not matter to the scan. */
  lemma BrokenScan(b: seq<byte>, c: seq<byte>)
    requires Broken(b) && Next(b, Stop(b, 0)) <= |c| && b[..Next(b, Stop(b, 0))] == c[..Next(b, Stop(b, 0))]
    ensures Scan(c, 0) == Scan(b, 0) && Broken(c) && Stop(c, 0) == Stop(b, 0)
    ensures forall r | r in Scan(b, 0) :: r.pos < Stop(b, 0)
  {
    var q, n := Stop(b, 0), Next(b, Stop(b, 0));
    StopReached(b, 0);
    assert b[0..n] == b[..n] && c[0..n] == c[..n];
    SameSlice(b, c, 0, n, 0, q);
    SameSlice(b, c, 0, n, q, n);
    ScanToLocal(b, c, 0, q);
    SameChunk(b, c, q);
    hide Uint32At, LengthAt;
    ScanSplit(b, 0, q);
    ScanSplit(c, 0, q);
    StopThere(c, 0, q);
    ScanToBefore(b, 0, q);
  }

  lemma {:induction false} ScanToBefore(b: seq<byte>, q: nat, p: nat)
    requires Reaches(b, q, p)
    ensures forall r | r in ScanTo(b, q, p) :: q <= r.pos < p
    decreases p - q
  {
    if q < p { ScanToBefore(b, Next(b, q), p); }
  }

  lemma {:induction false} ChainStamped(b: seq<byte>, q: nat, x: nat, p: nat, written: nat)
    requires written <= 4 && WellSized(b, p) && Chain(b, q, x) && (Chain(b, q, p) || q >= Next(b, p))
    ensures Chain(Stamp(b, p, written), q, x)
    decreases x - q
  {
    if q < x {
      var n := Next(b, q);
      if q < p { ChainForward(b, n, p); }
      StampElsewhere(b, p, written, q + 8, q + 16);
      hide Stamp;
      ChainStamped(b, n, x, p, written);
    }
  }
}
