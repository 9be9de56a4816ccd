/** The record format of a queue segment file and the reader that walks it.

    A record is `[len: u32 LE][crc32: u32 LE][payload]`.  A segment is a run of
    records, possibly followed by the torn beginning of one more.  The checksum
    is a parameter: nothing below depends on which function it is. */
module Records {
  type Byte = b: int | 0 <= b < 256
  type Word = w: int | 0 <= w < 0x1_0000_0000
  type Checksum = seq<Byte> -> Word

  const WORD := 0x1_0000_0000
  const HEADER := 8

  /** One framed record.  `good` caches whether the stored checksum matches. */
  datatype Rec = Rec(payload: seq<Byte>, crc: Word, good: bool)

  function SizeOf(r: Rec): nat {
    HEADER + |r.payload|
  }

  predicate WellFramed(r: Rec) {
    1 <= |r.payload| < WORD
  }

  predicate Genuine(sum: Checksum, r: Rec) {
    WellFramed(r) && r.good == (sum(r.payload) == r.crc)
  }

  predicate AllGenuine(sum: Checksum, h: seq<Rec>) {
    forall i :: 0 <= i < |h| ==> Genuine(sum, h[i])
  }

  lemma SliceOfSlice<T>(s: seq<T>, lo: nat, hi: nat, i: nat, j: nat)
    requires i <= j && lo + j <= hi <= |s|
    ensures s[lo..hi][i..j] == s[lo + i..lo + j]
  {
    var x, y := s[lo..hi][i..j], s[lo + i..lo + j];
    forall k | 0 <= k < j - i
      ensures x[k] == y[k]
    {
      assert x[k] == s[lo..hi][i + k] == s[lo + i + k];
    }
    assert x == y;
  }

  // ---------------------------------------------------------------- encoding

  function Le32(w: Word): seq<Byte> {
    [w % 256, (w / 0x100) % 256, (w / 0x1_0000) % 256, w / 0x100_0000]
  }

  function Un32(b: seq<Byte>): Word
    requires |b| == 4
  {
    b[0] as int + 0x100 * b[1] as int + 0x1_0000 * b[2] as int + 0x100_0000 * b[3] as int
  }

  lemma WordRoundTrip(w: Word)
    ensures |Le32(w)| == 4 && Un32(Le32(w)) == w
  {
    var a := w / 0x100;
    var b := w / 0x1_0000;
    var c := w / 0x100_0000;
    assert b == a / 256 && c == b / 256;
    assert w == 256 * a + w % 256;
    assert a == 256 * b + a % 256;
    assert b == 256 * c + b % 256;
  }

  /** The bytes of a record; the length field is a truncating cast to 32 bits. */
  function Encode(r: Rec): seq<Byte> {
    Le32(|r.payload| % WORD) + Le32(r.crc) + r.payload
  }

  /** The record `push` builds for a payload. */
  function Fresh(sum: Checksum, payload: seq<Byte>): Rec {
    Rec(payload, sum(payload), true)
  }

  lemma FreshBytes(sum: Checksum, payload: seq<Byte>)
    ensures Encode(Fresh(sum, payload)) == Le32(|payload| % WORD) + Le32(sum(payload)) + payload
  {
  }

  // ------------------------------------------- positions in a run of records

  /** Bytes taken by the first `i` records of `h`. */
  function Off(h: seq<Rec>, i: nat): nat
    requires i <= |h|
  {
    if i == 0 then 0 else Off(h, i - 1) + SizeOf(h[i - 1])
  }

  /** How many of the first `i` records of `h` have a matching checksum. */
  function Good(h: seq<Rec>, i: nat): nat
    requires i <= |h|
  {
    if i == 0 then 0 else Good(h, i - 1) + (if h[i - 1].good then 1 else 0)
  }

  /** The bytes of records `a..b` of `h`. */
  function Bytes(h: seq<Rec>, a: nat, b: nat): (s: seq<Byte>)
    requires a <= b <= |h|
  {
    if a == b then [] else Bytes(h, a, b - 1) + Encode(h[b - 1])
  }

  lemma {:induction false} OffMono(h: seq<Rec>, i: nat, j: nat)
    requires i <= j <= |h|
    ensures Off(h, j) >= Off(h, i) + HEADER * (j - i)
    ensures Good(h, i) <= Good(h, j) <= Good(h, i) + (j - i)
  {
    if i < j { OffMono(h, i, j - 1); }
  }

  lemma {:induction false} SameOff(h: seq<Rec>, g: seq<Rec>, i: nat)
    requires i <= |h| && i <= |g| && h[..i] == g[..i]
    ensures Off(h, i) == Off(g, i) && Good(h, i) == Good(g, i)
  {
    if i > 0 {
      assert h[i - 1] == h[..i][i - 1] == g[i - 1];
      assert h[..i - 1] == h[..i][..i - 1] == g[..i - 1];
      SameOff(h, g, i - 1);
    }
  }

  lemma {:induction false} SameBytes(h: seq<Rec>, g: seq<Rec>, a: nat, b: nat)
    requires a <= b <= |h| && b <= |g| && h[..b] == g[..b]
    ensures Bytes(h, a, b) == Bytes(g, a, b)
  {
    if a < b {
      assert h[b - 1] == h[..b][b - 1] == g[b - 1];
      assert h[..b - 1] == h[..b][..b - 1] == g[..b - 1];
      SameBytes(h, g, a, b - 1);
    }
  }

  lemma {:induction false} BytesLength(h: seq<Rec>, a: nat, b: nat)
    requires a <= b <= |h|
    ensures Off(h, a) <= Off(h, b)
    ensures |Bytes(h, a, b)| == Off(h, b) - Off(h, a)
  {
    OffMono(h, a, b);
    if a < b { BytesLength(h, a, b - 1); }
  }

  lemma {:induction false} BytesSplit(h: seq<Rec>, a: nat, m: nat, b: nat)
    requires a <= m <= b <= |h|
    ensures Bytes(h, a, b) == Bytes(h, a, m) + Bytes(h, m, b)
  {
    if m < b { BytesSplit(h, a, m, b - 1); }
  }

  /** Appending a record moves nothing. */
  lemma AppendKeeps(h: seq<Rec>, r: Rec, a: nat)
    requires a <= |h|
    ensures var g := h + [r];
      && g[..|h|] == h[..|h|] == h
      && Off(g, a) == Off(h, a) && Good(g, a) == Good(h, a)
      && Off(g, |g|) == Off(h, |h|) + SizeOf(r)
      && Good(g, |g|) == Good(h, |h|) + (if r.good then 1 else 0)
      && Bytes(g, a, |h|) == Bytes(h, a, |h|)
      && Bytes(g, a, |g|) == Bytes(h, a, |h|) + Encode(r)
  {
    var g := h + [r];
    assert g[..|h|] == h[..|h|] == h;
    assert h[..a] == g[..a];
    SameOff(h, g, a);
    SameOff(h, g, |h|);
    SameBytes(h, g, a, |h|);
  }

  /** The record at index `i` sits at its offset. */
  lemma BytesAt(h: seq<Rec>, a: nat, i: nat, b: nat)
    requires a <= i < b <= |h|
    ensures Off(h, a) <= Off(h, i) && Off(h, i + 1) <= Off(h, b)
    ensures Off(h, i + 1) - Off(h, a) <= |Bytes(h, a, b)|
    ensures Bytes(h, a, b)[Off(h, i) - Off(h, a)..Off(h, i + 1) - Off(h, a)] == Encode(h[i])
  {
    BytesSplit(h, a, i + 1, b);
    BytesLength(h, a, i);
    BytesLength(h, a, i + 1);
    BytesLength(h, i + 1, b);
  }

  /** A truncation of the run at a record boundary keeps the records before it. */
  lemma BytesTake(h: seq<Rec>, a: nat, m: nat, b: nat)
    requires a <= m <= b <= |h|
    ensures Off(h, a) <= Off(h, m) && Off(h, m) - Off(h, a) <= |Bytes(h, a, b)|
    ensures Bytes(h, a, b)[..Off(h, m) - Off(h, a)] == Bytes(h, a, m)
  {
    BytesSplit(h, a, m, b);
    BytesLength(h, a, m);
    BytesLength(h, m, b);
  }

  /** One past the last of records `a..b` that lies whole within the first `k` bytes. */
  function Whole(h: seq<Rec>, a: nat, b: nat, k: nat): (m: nat)
    requires a <= b <= |h|
    ensures a <= m <= b
    ensures Off(h, m) - Off(h, a) <= k
    ensures m < b ==> Off(h, m + 1) - Off(h, a) > k
  {
    if a == b || Off(h, b) - Off(h, a) <= k then b else Whole(h, a, b - 1, k)
  }

  lemma {:induction false} WholeMono(h: seq<Rec>, a: nat, b: nat, k: nat, k': nat)
    requires a <= b <= |h| && k <= k'
    ensures Whole(h, a, b, k) <= Whole(h, a, b, k')
    decreases b - a
  {
    hide Off;
    if a < b && Off(h, b) - Off(h, a) > k' { WholeMono(h, a, b - 1, k, k'); }
  }

  /** Any index whose offset fits within `k` bytes is covered by Whole. */
  lemma WholeCovers(h: seq<Rec>, a: nat, i: nat, b: nat, k: nat)
    requires a <= i <= b <= |h|
    requires Off(h, i) - Off(h, a) <= k
    ensures i <= Whole(h, a, b, k)
  {
    var m := Whole(h, a, b, k);
    if m < i { OffMono(h, m + 1, i); }
  }

  /** Whole looks only at the records it covers. */
  lemma SameWhole(h: seq<Rec>, g: seq<Rec>, a: nat, b: nat, k: nat)
    requires a <= b <= |h| && b <= |g| && h[..b] == g[..b]
    ensures Whole(h, a, b, k) == Whole(g, a, b, k)
  {
    var m, n := Whole(h, a, b, k), Whole(g, a, b, k);
    assert forall i: nat | i <= b :: h[..i] == g[..i] by {
      forall i: nat | i <= b ensures h[..i] == g[..i] {
        assert h[..i] == h[..b][..i];
        assert g[..i] == g[..b][..i];
      }
    }
    SameOff(h, g, a);
    SameOff(h, g, m);
    SameOff(h, g, n);
    WholeCovers(g, a, m, b, k);
    WholeCovers(h, a, n, b, k);
  }

  /** A further record that does not fit in the first `k` bytes changes nothing. */
  lemma WholeAppend(h: seq<Rec>, r: Rec, a: nat, k: nat)
    requires a <= |h| && k < Off(h, |h|) - Off(h, a) + SizeOf(r)
    ensures Whole(h + [r], a, |h| + 1, k) == Whole(h, a, |h|, k)
  {
    hide Bytes;
    AppendKeeps(h, r, a);
    SameWhole(h, h + [r], a, |h|, k);
  }

  // ------------------------------------------------------------------- spans

  /** Bytes of records `a..b`. */
  function Span(h: seq<Rec>, a: nat, b: nat): nat
    requires a <= b <= |h|
  {
    OffMono(h, a, b);
    Off(h, b) - Off(h, a)
  }

  /** Good records among `a..b`. */
  function GoodIn(h: seq<Rec>, a: nat, b: nat): nat
    requires a <= b <= |h|
  {
    OffMono(h, a, b);
    Good(h, b) - Good(h, a)
  }

  lemma SpanAdd(h: seq<Rec>, a: nat, m: nat, b: nat)
    requires a <= m <= b <= |h|
    ensures Span(h, a, b) == Span(h, a, m) + Span(h, m, b)
    ensures GoodIn(h, a, b) == GoodIn(h, a, m) + GoodIn(h, m, b)
  {
  }

  lemma SpanSame(h: seq<Rec>, g: seq<Rec>, a: nat, b: nat)
    requires a <= b <= |h| && b <= |g| && h[..b] == g[..b]
    ensures Span(h, a, b) == Span(g, a, b) && GoodIn(h, a, b) == GoodIn(g, a, b)
  {
    assert h[..a] == h[..b][..a];
    assert g[..a] == g[..b][..a];
    SameOff(h, g, a);
    SameOff(h, g, b);
  }

  lemma SpanGrows(h: seq<Rec>, r: Rec, a: nat)
    requires a <= |h|
    ensures Span(h + [r], a, |h| + 1) == Span(h, a, |h|) + SizeOf(r)
    ensures GoodIn(h + [r], a, |h| + 1) == GoodIn(h, a, |h|) + (if r.good then 1 else 0)
  {
    AppendKeeps(h, r, a);
  }

  lemma SpanZero(h: seq<Rec>, a: nat, b: nat)
    requires a <= b <= |h|
    ensures Span(h, a, b) == 0 <==> a == b
    ensures GoodIn(h, a, a) == 0
  {
    OffMono(h, a, b);
  }

  // ------------------------------------------------------------ reading back

  datatype Read =
    | Found(payload: seq<Byte>, recLen: nat)
    | Corrupt(skip: nat)
    | Eof

  /** Read the record at `off`.  A bad checksum still tells how far to step; a
      length that cannot be real, or a file that ends early, ends the segment. */
  function ReadRecord(sum: Checksum, file: seq<Byte>, off: nat, believable: nat): (r: Read)
    ensures r.Found? ==> r.recLen >= HEADER + 1 && off + r.recLen <= |file|
    ensures r.Corrupt? ==> r.skip >= HEADER + 1 && off + r.skip <= |file|
  {
    if off + HEADER > |file| then Eof
    else
      var len := Un32(file[off..off + 4]);
      var crc := Un32(file[off + 4..off + 8]);
      if len == 0 || len > believable then Eof
      else if off + HEADER + len > |file| then Eof
      else
        var payload := file[off + HEADER..off + HEADER + len];
        if sum(payload) != crc then Corrupt(HEADER + len)
        else Found(payload, HEADER + len)
  }

  function ReadOf(r: Rec): Read {
    if r.good then Found(r.payload, SizeOf(r)) else Corrupt(SizeOf(r))
  }

  lemma EncodedFields(r: Rec)
    requires WellFramed(r)
    ensures |Encode(r)| == SizeOf(r)
    ensures Un32(Encode(r)[0..4]) == |r.payload|
    ensures Un32(Encode(r)[4..8]) == r.crc
    ensures Encode(r)[8..SizeOf(r)] == r.payload
  {
    WordRoundTrip(|r.payload|);
    WordRoundTrip(r.crc);
    hide Le32, Un32;
    assert Encode(r)[0..4] == Le32(|r.payload|);
    assert Encode(r)[4..8] == Le32(r.crc);
  }

  /** What was encoded is what is read, wherever it sits in the file. */
  lemma ReadEncoded(sum: Checksum, file: seq<Byte>, off: nat, r: Rec, believable: nat)
    requires Genuine(sum, r)
    requires off + SizeOf(r) <= |file| && file[off..off + SizeOf(r)] == Encode(r)
    requires |r.payload| <= believable
    ensures ReadRecord(sum, file, off, believable) == ReadOf(r)
  {
    var whole := file[off..off + SizeOf(r)];
    hide Le32, Un32;
    EncodedFields(r);
    SliceOfSlice(file, off, off + SizeOf(r), 0, 4);
    SliceOfSlice(file, off, off + SizeOf(r), 4, 8);
    SliceOfSlice(file, off, off + SizeOf(r), 8, SizeOf(r));
  }

  /** A file that ends inside a record has nothing to read there. */
  lemma ReadTorn(sum: Checksum, file: seq<Byte>, off: nat, r: Rec, believable: nat)
    requires WellFramed(r)
    requires off <= |file| < off + SizeOf(r) && file[off..] == Encode(r)[..|file| - off]
    ensures ReadRecord(sum, file, off, believable) == Eof
  {
    hide Le32, Un32;
    if off + HEADER <= |file| {
      EncodedFields(r);
      assert file[off..off + 4] == file[off..][..4] == Encode(r)[0..4];
    }
  }

  /** The length header is a 32-bit cast, so a payload survives the trip exactly
      when its length is non-zero and fits. */
  lemma PayloadRoundTripIff(sum: Checksum, payload: seq<Byte>, rest: seq<Byte>, believable: nat)
    requires |payload| <= believable
    ensures ReadRecord(sum, Encode(Fresh(sum, payload)) + rest, 0, believable)
            == Found(payload, HEADER + |payload|)
            <==> 1 <= |payload| < WORD
  {
    var r := Fresh(sum, payload);
    var file := Encode(r) + rest;
    if WellFramed(r) {
      assert file[0..SizeOf(r)] == Encode(r);
      ReadEncoded(sum, file, 0, r, believable);
    } else {
      assert file[0..4] == Le32(|payload| % WORD);
      WordRoundTrip(|payload| % WORD);
    }
  }

  /** Whatever the reader steps over is the encoding of one genuine record. */
  lemma ReadSound(sum: Checksum, file: seq<Byte>, off: nat, believable: nat) returns (r: Rec)
    requires !ReadRecord(sum, file, off, believable).Eof?
    ensures Genuine(sum, r) && off + SizeOf(r) <= |file|
    ensures file[off..off + SizeOf(r)] == Encode(r)
    ensures ReadRecord(sum, file, off, believable) == ReadOf(r)
  {
    hide Le32, Un32, ReadRecord, Encode;
    r := RecordAt(sum, file, off, believable);
    EncodedAs(file, off, r);
  }

  /** The record that a successful read has found. */
  lemma RecordAt(sum: Checksum, file: seq<Byte>, off: nat, believable: nat) returns (r: Rec)
    requires !ReadRecord(sum, file, off, believable).Eof?
    ensures Genuine(sum, r) && off + SizeOf(r) <= |file|
    ensures Un32(file[off..off + 4]) == |r.payload| && Un32(file[off + 4..off + 8]) == r.crc
    ensures file[off + 8..off + SizeOf(r)] == r.payload
    ensures ReadRecord(sum, file, off, believable) == ReadOf(r)
  {
    hide Le32, Un32;
    var len := Un32(file[off..off + 4]);
    var crc := Un32(file[off + 4..off + 8]);
    var payload := file[off + 8..off + 8 + len];
    r := Rec(payload, crc, sum(payload) == crc);
  }

  lemma EncodedAs(file: seq<Byte>, off: nat, r: Rec)
    requires WellFramed(r) && off + SizeOf(r) <= |file|
    requires Un32(file[off..off + 4]) == |r.payload| && Un32(file[off + 4..off + 8]) == r.crc
    requires file[off + 8..off + SizeOf(r)] == r.payload
    ensures file[off..off + SizeOf(r)] == Encode(r)
  {
    hide Le32, Un32;
    BytesOfWord(file[off..off + 4]);
    BytesOfWord(file[off + 4..off + 8]);
    ThreeParts(file, off, off + 4, off + 8, off + SizeOf(r));
  }

  lemma ThreeParts<T>(s: seq<T>, i: nat, j: nat, k: nat, m: nat)
    requires i <= j <= k <= m <= |s|
    ensures s[i..m] == s[i..j] + s[j..k] + s[k..m]
  {
  }

  lemma BytesOfWord(b: seq<Byte>)
    requires |b| == 4
    ensures Le32(Un32(b)) == b
  {
    var w := Un32(b);
    var y2 := b[2] as int + 0x100 * b[3] as int;
    var y1 := b[1] as int + 0x100 * y2;
    assert w == b[0] as int + 0x100 * y1;
    LowByte(b[0], y1);
    LowByte(b[1], y2);
    LowByte(b[2], b[3]);
    assert w / 0x1_0000 == y1 / 0x100;
    assert w / 0x100_0000 == y2 / 0x100;
  }

  lemma LowByte(x: Byte, y: nat)
    ensures (x + 0x100 * y) / 0x100 == y && (x + 0x100 * y) % 0x100 == x
  {
  }

  // ---------------------------------------------------------------- scanning

  /** Offset after the last framed record from `off` on, and how many of them are good. */
  function Scan(sum: Checksum, file: seq<Byte>, off: nat): (nat, nat)
    decreases |file| - off
  {
    match ReadRecord(sum, file, off, |file|)
    case Eof => (off, 0)
    case Corrupt(skip) => Scan(sum, file, off + skip)
    case Found(_, recLen) =>
      var (end, n) := Scan(sum, file, off + recLen);
      (end, n + 1)
  }

  method ScanSegment(sum: Checksum, file: seq<Byte>, start: nat) returns (off: nat, n: nat)
    ensures (off, n) == Scan(sum, file, start)
  {
    hide ReadRecord;
    off, n := start, 0;
    while true
      invariant Scan(sum, file, start) == (Scan(sum, file, off).0, n + Scan(sum, file, off).1)
      decreases |file| - off
    {
      match ReadRecord(sum, file, off, |file|)
      case Found(_, recLen) =>
        off, n := off + recLen, n + 1;
      case Corrupt(skip) =>
        off := off + skip;
      case Eof =>
        return;
    }
  }

  /** If records `a..m` fill the file and nothing is readable after them, a scan
      from the boundary of any `i` counts exactly the good ones of `i..m`. */
  lemma {:induction false} ScanRun(sum: Checksum, file: seq<Byte>, h: seq<Rec>, a: nat, i: nat, m: nat)
    requires AllGenuine(sum, h) && a <= i <= m <= |h|
    requires Off(h, a) <= Off(h, i) && Off(h, a) <= Off(h, m) && Off(h, m) - Off(h, a) <= |file|
    requires file[..Off(h, m) - Off(h, a)] == Bytes(h, a, m)
    requires ReadRecord(sum, file, Off(h, m) - Off(h, a), |file|).Eof?
    ensures Good(h, i) <= Good(h, m)
    ensures Scan(sum, file, Off(h, i) - Off(h, a)) == (Off(h, m) - Off(h, a), Good(h, m) - Good(h, i))
    decreases m - i
  {
    hide ReadRecord, Encode, Bytes;
    OffMono(h, i, m);
    if i < m {
      var p, q := Off(h, i) - Off(h, a), Off(h, i + 1) - Off(h, a);
      BytesAt(h, a, i, m);
      SliceOfSlice(file, 0, Off(h, m) - Off(h, a), p, q);
      ReadEncoded(sum, file, p, h[i], |file|);
      ScanRun(sum, file, h, a, i + 1, m);
    }
  }

  /** Reading at the boundary of record `i` of a file that holds the first `k`
      bytes of records `a..b`: the record if it is whole, nothing otherwise. */
  lemma ReadPrefix(sum: Checksum, h: seq<Rec>, a: nat, i: nat, b: nat, k: nat)
    requires AllGenuine(sum, h) && a <= b <= |h| && a <= i <= Whole(h, a, b, k)
    requires k <= |Bytes(h, a, b)|
    ensures Off(h, a) <= Off(h, i)
    ensures ReadRecord(sum, Bytes(h, a, b)[..k], Off(h, i) - Off(h, a), k)
            == if i < Whole(h, a, b, k) then ReadOf(h[i]) else Eof
  {
    hide ReadRecord, Encode, Bytes, Good, Scan, Off, Whole;
    var m := Whole(h, a, b, k);
    OffMono(h, a, i);
    if i < m {
      OffMono(h, i + 1, m);
      WholeRead(sum, h, a, i, b, k);
    } else if i < b {
      TornRead(sum, h, a, i, b, k);
    } else {
      BytesLength(h, a, b);
      ReadPastEnd(sum, Bytes(h, a, b)[..k], Off(h, i) - Off(h, a));
    }
  }

  lemma WholeRead(sum: Checksum, h: seq<Rec>, a: nat, i: nat, b: nat, k: nat)
    requires AllGenuine(sum, h) && a <= i < b <= |h| && k <= |Bytes(h, a, b)|
    requires Off(h, a) <= Off(h, i) && Off(h, i + 1) - Off(h, a) <= k
    ensures ReadRecord(sum, Bytes(h, a, b)[..k], Off(h, i) - Off(h, a), k) == ReadOf(h[i])
  {
    hide ReadRecord, Encode, Bytes, Good, Scan, Whole;
    var p, q := Off(h, i) - Off(h, a), Off(h, i + 1) - Off(h, a);
    BytesAt(h, a, i, b);
    SliceOfSlice(Bytes(h, a, b), 0, k, p, q);
    ReadEncoded(sum, Bytes(h, a, b)[..k], p, h[i], k);
  }

  lemma TornRead(sum: Checksum, h: seq<Rec>, a: nat, i: nat, b: nat, k: nat)
    requires AllGenuine(sum, h) && a <= i < b <= |h| && k <= |Bytes(h, a, b)|
    requires Off(h, a) <= Off(h, i) && Off(h, i) - Off(h, a) <= k < Off(h, i + 1) - Off(h, a)
    ensures ReadRecord(sum, Bytes(h, a, b)[..k], Off(h, i) - Off(h, a), k) == Eof
  {
    hide ReadRecord, Encode, Bytes, Good, Scan, Whole;
    var p, q := Off(h, i) - Off(h, a), Off(h, i + 1) - Off(h, a);
    BytesAt(h, a, i, b);
    EncodedFields(h[i]);
    SliceOfSlice(Bytes(h, a, b), 0, k, p, k);
    SliceOfSlice(Bytes(h, a, b), p, q, 0, k - p);
    ReadTorn(sum, Bytes(h, a, b)[..k], p, h[i], k);
  }

  lemma ReadPastEnd(sum: Checksum, file: seq<Byte>, off: nat)
    requires off >= |file|
    ensures ReadRecord(sum, file, off, |file|) == Eof
  {
  }

  /** Torn-tail recovery: on any byte prefix of a run of records, from any record
      boundary in it, the scan ends after the last whole record and counts the
      good ones from there. */
  lemma ScanPrefix(sum: Checksum, h: seq<Rec>, a: nat, i: nat, b: nat, k: nat)
    requires AllGenuine(sum, h) && a <= b <= |h| && a <= i <= Whole(h, a, b, k)
    requires k <= |Bytes(h, a, b)|
    ensures Off(h, a) <= Off(h, i) && Good(h, i) <= Good(h, Whole(h, a, b, k))
    ensures Scan(sum, Bytes(h, a, b)[..k], Off(h, i) - Off(h, a))
            == (Off(h, Whole(h, a, b, k)) - Off(h, a), Good(h, Whole(h, a, b, k)) - Good(h, i))
  {
    hide ReadRecord, Encode, Bytes, Off, Good;
    var m := Whole(h, a, b, k);
    var file := Bytes(h, a, b)[..k];
    OffMono(h, a, i);
    OffMono(h, a, m);
    BytesTake(h, a, m, b);
    SliceOfSlice(Bytes(h, a, b), 0, k, 0, Off(h, m) - Off(h, a));
    ReadPrefix(sum, h, a, m, b, k);
    ScanRun(sum, file, h, a, i, m);
  }

  /** The same for a file that stops inside one further record `r`. */
  lemma ScanPrefixThen(sum: Checksum, h: seq<Rec>, a: nat, i: nat, r: Rec, k: nat)
    requires AllGenuine(sum, h) && Genuine(sum, r) && a <= |h|
    requires k < |Bytes(h, a, |h|)| + SizeOf(r) && a <= i <= Whole(h, a, |h|, k)
    ensures Off(h, a) <= Off(h, i) && Good(h, i) <= Good(h, Whole(h, a, |h|, k))
    ensures Scan(sum, (Bytes(h, a, |h|) + Encode(r))[..k], Off(h, i) - Off(h, a))
            == (Off(h, Whole(h, a, |h|, k)) - Off(h, a), Good(h, Whole(h, a, |h|, k)) - Good(h, i))
  {
    hide Off, Good, Whole, Bytes, Scan, Encode, ReadRecord;
    BytesLength(h, a, |h|);
    var g := h + [r];
    var m := Whole(h, a, |h|, k);
    AppendKeeps(h, r, a);
    AppendKeeps(h, r, i);
    AppendKeeps(h, r, m);
    WholeAppend(h, r, a, k);
    BytesLength(g, a, |g|);
    ScanPrefix(sum, g, a, i, |g|, k);
  }

  /** On any file at all, the scanned part is a run of genuine records that ends
      where nothing more can be read. */
  lemma {:induction false} ScanSound(sum: Checksum, file: seq<Byte>, off: nat) returns (h: seq<Rec>)
    requires off <= |file|
    ensures AllGenuine(sum, h)
    ensures off <= Scan(sum, file, off).0 <= |file|
    ensures file[off..Scan(sum, file, off).0] == Bytes(h, 0, |h|)
    ensures Scan(sum, file, off).1 == Good(h, |h|)
    ensures ReadRecord(sum, file, Scan(sum, file, off).0, |file|).Eof?
    decreases |file| - off
  {
    hide ReadRecord, Encode;
    if ReadRecord(sum, file, off, |file|).Eof? {
      h := [];
    } else {
      var r := ReadSound(sum, file, off, |file|);
      var next := off + SizeOf(r);
      var tail := ScanSound(sum, file, next);
      h := [r] + tail;
      var end := Scan(sum, file, off).0;
      assert end == Scan(sum, file, next).0;
      ConsBytes(r, tail, |tail|);
      assert file[off..end] == file[off..next] + file[next..end];
    }
  }

  lemma {:induction false} ConsBytes(r: Rec, t: seq<Rec>, n: nat)
    requires n <= |t|
    ensures Bytes([r] + t, 0, n + 1) == Encode(r) + Bytes(t, 0, n)
    ensures Good([r] + t, n + 1) == (if r.good then 1 else 0) + Good(t, n)
  {
    if n > 0 {
      ConsBytes(r, t, n - 1);
      assert ([r] + t)[n] == t[n - 1];
    } else {
      assert Bytes([r] + t, 0, 1) == Bytes([r] + t, 0, 0) + Encode(r);
    }
  }

  /** The part of a file read is the part that counts: scanning again after
      truncating to the scanned end gives the same answer. */
  lemma {:induction false} ScanTruncated(sum: Checksum, file: seq<Byte>, off: nat)
    requires off <= |file|
    ensures off <= Scan(sum, file, off).0 <= |file|
    ensures Scan(sum, file[..Scan(sum, file, off).0], off) == Scan(sum, file, off)
  {
    hide ReadRecord, Encode;
    var h := ScanSound(sum, file, off);
    var end := Scan(sum, file, off).0;
    var cut := file[..end];
    TruncatedRun(sum, file, cut, off);
  }

  lemma {:induction false} TruncatedRun(sum: Checksum, file: seq<Byte>, cut: seq<Byte>, off: nat)
    requires off <= |cut| <= |file| && cut == file[..|cut|]
    requires Scan(sum, file, off).0 == |cut|
    ensures Scan(sum, cut, off) == Scan(sum, file, off)
    decreases |file| - off
  {
    hide ReadRecord, Encode;
    if ReadRecord(sum, file, off, |file|).Eof? {
    } else {
      var r := ReadSound(sum, file, off, |file|);
      var tail := ScanSound(sum, file, off + SizeOf(r));
      SliceOfSlice(file, 0, |cut|, off, off + SizeOf(r));
      ReadEncoded(sum, cut, off, r, |cut|);
      TruncatedRun(sum, file, cut, off + SizeOf(r));
    }
  }
}
