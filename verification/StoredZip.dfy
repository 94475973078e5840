/**
 The stored-only ZIP writer, and a reader written from PKWARE APPNOTE.TXT sections 4.3.7 (local file
 header), 4.3.12 (central directory header) and 4.3.16 (end of central directory record).
 */
module StoredZip {

  import opened Wrappers
  import opened Crc32

  datatype Entry = Entry(name: seq<Byte>, content: seq<Byte>)

  const LOCAL_SIGNATURE := 0x04034b50
  const CENTRAL_SIGNATURE := 0x02014b50
  const END_SIGNATURE := 0x06054b50
  const VERSION := 20

  // Little-endian numbers

  /** Whether the digit of a hexadecimal digit with the given weight is set. */
  predicate Bit(nibble: nat, weight: nat)
    requires weight > 0
  {
    nibble / weight % 2 == 1
  }

  /** The low eight bits of a number. */
  function ByteOf(n: nat): Byte {
    var low, high := n % 16, n / 16 % 16;
    Assemble(Bit(low, 1), Bit(low, 2), Bit(low, 4), Bit(low, 8), Bit(high, 1), Bit(high, 2), Bit(high, 4), Bit(high, 8))
  }

  function Assemble(b0: bool, b1: bool, b2: bool, b3: bool, b4: bool, b5: bool, b6: bool, b7: bool): Byte {
    (if b0 then 1 else 0) | (if b1 then 2 else 0) | (if b2 then 4 else 0) | (if b3 then 8 else 0)
    | (if b4 then 16 else 0) | (if b5 then 32 else 0) | (if b6 then 64 else 0) | (if b7 then 128 else 0)
  }

  function Weighted(bit: bool, weight: nat): nat { if bit then weight else 0 }

  function Sum(b0: bool, b1: bool, b2: bool, b3: bool, b4: bool, b5: bool, b6: bool, b7: bool): nat {
    Weighted(b0, 1) + Weighted(b1, 2) + Weighted(b2, 4) + Weighted(b3, 8)
    + Weighted(b4, 16) + Weighted(b5, 32) + Weighted(b6, 64) + Weighted(b7, 128)
  }

  /** The number a byte stands for. */
  function NumberOf(b: Byte): nat {
    Sum(b & 1 != 0, b & 2 != 0, b & 4 != 0, b & 8 != 0, b & 16 != 0, b & 32 != 0, b & 64 != 0, b & 128 != 0)
  }

  lemma BitsOfAssembled(b0: bool, b1: bool, b2: bool, b3: bool, b4: bool, b5: bool, b6: bool, b7: bool)
    ensures var b := Assemble(b0, b1, b2, b3, b4, b5, b6, b7);
            && (b & 1 != 0) == b0 && (b & 2 != 0) == b1 && (b & 4 != 0) == b2 && (b & 8 != 0) == b3
            && (b & 16 != 0) == b4 && (b & 32 != 0) == b5 && (b & 64 != 0) == b6 && (b & 128 != 0) == b7
  {
  }

  lemma NumberOfAssembled(b0: bool, b1: bool, b2: bool, b3: bool, b4: bool, b5: bool, b6: bool, b7: bool)
    ensures NumberOf(Assemble(b0, b1, b2, b3, b4, b5, b6, b7)) == Sum(b0, b1, b2, b3, b4, b5, b6, b7)
  {
    hide Assemble, Sum;
    BitsOfAssembled(b0, b1, b2, b3, b4, b5, b6, b7);
  }

  lemma NibbleBits(m: nat)
    requires m < 16
    ensures Weighted(Bit(m, 1), 1) + Weighted(Bit(m, 2), 2) + Weighted(Bit(m, 4), 4) + Weighted(Bit(m, 8), 8) == m
    ensures Weighted(Bit(m, 1), 16) + Weighted(Bit(m, 2), 32) + Weighted(Bit(m, 4), 64) + Weighted(Bit(m, 8), 128) == 16 * m
  {
  }

  lemma Nibbles(n: nat)
    ensures n % 16 + 16 * (n / 16 % 16) == n % 256
  {
  }

  lemma ByteRoundTrip(n: nat)
    ensures NumberOf(ByteOf(n)) == n % 256
  {
    hide NumberOf, Assemble, Bit, Weighted;
    var low, high := n % 16, n / 16 % 16;
    NumberOfAssembled(Bit(low, 1), Bit(low, 2), Bit(low, 4), Bit(low, 8), Bit(high, 1), Bit(high, 2), Bit(high, 4), Bit(high, 8));
    NibbleBits(low);
    NibbleBits(high);
    Nibbles(n);
  }

  function Uint16(v: nat): (r: seq<Byte>)
    ensures |r| == 2
  {
    [ByteOf(v), ByteOf(v / 0x100)]
  }

  function Uint32(v: nat): (r: seq<Byte>)
    ensures |r| == 4
  {
    [ByteOf(v), ByteOf(v / 0x100), ByteOf(v / 0x10000), ByteOf(v / 0x1000000)]
  }

  function Read16(a: seq<Byte>, at: nat): nat
    requires at + 2 <= |a|
  {
    NumberOf(a[at]) + 0x100 * NumberOf(a[at + 1])
  }

  function Read32(a: seq<Byte>, at: nat): nat
    requires at + 4 <= |a|
  {
    Read16(a, at) + 0x10000 * Read16(a, at + 2)
  }

  /** `piece` is what the archive holds from `at` on. */
  ghost predicate Holds(a: seq<Byte>, at: nat, piece: seq<Byte>) {
    at + |piece| <= |a| && a[at..at + |piece|] == piece
  }

  lemma HoldsParts(a: seq<Byte>, at: nat, x: seq<Byte>, y: seq<Byte>)
    ensures Holds(a, at, x + y) <==> Holds(a, at, x) && Holds(a, at + |x|, y)
  {
    if Holds(a, at, x + y) {
      assert a[at..at + |x|] == (x + y)[..|x|];
      assert a[at + |x|..at + |x| + |y|] == (x + y)[|x|..];
    }
    if Holds(a, at, x) && Holds(a, at + |x|, y) {
      assert a[at..at + |x + y|] == a[at..at + |x|] + a[at + |x|..at + |x| + |y|];
    }
  }

  lemma Number16(v: nat)
    ensures v % 256 + 0x100 * (v / 0x100 % 256) == v % 0x10000
  {
    var q := v / 0x100;
    assert v == 0x100 * q + v % 0x100 && q == 0x100 * (q / 0x100) + q % 0x100;
    assert v == 0x10000 * (q / 0x100) + (v % 0x100 + 0x100 * (q % 0x100));
  }

  lemma Number32(v: nat)
    ensures v % 0x10000 + 0x10000 * (v / 0x10000 % 0x10000) == v % 0x1_0000_0000
  {
  }

  /** A field gives back its number up to the field's width. */
  lemma ReadsBack16(a: seq<Byte>, at: nat, v: nat)
    requires Holds(a, at, Uint16(v))
    ensures Read16(a, at) == v % 0x10000
  {
    var piece := a[at..at + 2];
    assert a[at] == piece[0] && a[at + 1] == piece[1];
    hide ByteOf, NumberOf;
    ByteRoundTrip(v);
    ByteRoundTrip(v / 0x100);
    Number16(v);
  }

  lemma Halves(v: nat)
    ensures Uint32(v) == Uint16(v) + Uint16(v / 0x10000)
  {
    assert v / 0x10000 / 0x100 == v / 0x1000000;
  }

  lemma ReadsBack32(a: seq<Byte>, at: nat, v: nat)
    requires Holds(a, at, Uint32(v))
    ensures Read32(a, at) == v % 0x1_0000_0000
  {
    hide Holds, Uint16, Uint32, Read16;
    Halves(v);
    HoldsParts(a, at, Uint16(v), Uint16(v / 0x10000));
    HoldsWithin(a, at, Uint32(v));
    ReadsBack16(a, at, v);
    ReadsBack16(a, at + 2, v / 0x10000);
    Number32(v);
  }

  lemma HoldsWithin(a: seq<Byte>, at: nat, piece: seq<Byte>)
    requires Holds(a, at, piece)
    ensures at + |piece| <= |a| && a[at..at + |piece|] == piece
  {
  }

  function CrcOf(content: seq<Byte>): (crc: nat)
    ensures crc < 0x1_0000_0000
  {
    Checksum(content) as nat
  }

  // The archive

  function LocalHeader(e: Entry): (r: seq<Byte>)
    ensures |r| == 30
  {
    LocalStart() + LocalSizes(e)
  }

  function LocalStart(): (r: seq<Byte>)
    ensures |r| == 14
  {
    Uint32(LOCAL_SIGNATURE) + Uint16(VERSION) + Uint16(0) + Uint16(0) + Uint16(0) + Uint16(0)
  }

  function LocalSizes(e: Entry): (r: seq<Byte>)
    ensures |r| == 16
  {
    Uint32(CrcOf(e.content)) + Uint32(|e.content|) + Uint32(|e.content|) + Uint16(|e.name|) + Uint16(0)
  }

  function LocalRecord(e: Entry): seq<Byte> { LocalHeader(e) + e.name + e.content }

  function CentralHeader(e: Entry, localOffset: nat): (r: seq<Byte>)
    ensures |r| == 46
  {
    CentralStart() + CentralSizes(e) + CentralEnd(localOffset)
  }

  function CentralStart(): (r: seq<Byte>)
    ensures |r| == 16
  {
    Uint32(CENTRAL_SIGNATURE) + Uint16(VERSION) + Uint16(VERSION) + Uint16(0) + Uint16(0) + Uint16(0) + Uint16(0)
  }

  function CentralSizes(e: Entry): (r: seq<Byte>)
    ensures |r| == 14
  {
    Uint32(CrcOf(e.content)) + Uint32(|e.content|) + Uint32(|e.content|) + Uint16(|e.name|)
  }

  function CentralEnd(localOffset: nat): (r: seq<Byte>)
    ensures |r| == 16
  {
    Uint16(0) + Uint16(0) + Uint16(0) + Uint16(0) + Uint32(0) + Uint32(localOffset)
  }

  function CentralRecord(e: Entry, localOffset: nat): seq<Byte> { CentralHeader(e, localOffset) + e.name }

  function Locals(parts: seq<Entry>): seq<Byte> {
    if parts == [] then [] else Locals(parts[..|parts| - 1]) + LocalRecord(parts[|parts| - 1])
  }

  function Centrals(parts: seq<Entry>): seq<Byte> {
    if parts == [] then []
    else Centrals(parts[..|parts| - 1]) + CentralRecord(parts[|parts| - 1], |Locals(parts[..|parts| - 1])|)
  }

  function EndRecord(count: nat, directorySize: nat, directoryOffset: nat): (r: seq<Byte>)
    ensures |r| == 22
  {
    Uint32(END_SIGNATURE) + Uint16(0) + Uint16(0) + Uint16(count) + Uint16(count)
    + Uint32(directorySize) + Uint32(directoryOffset) + Uint16(0)
  }

  function Archive(parts: seq<Entry>): seq<Byte> {
    Locals(parts) + Centrals(parts) + EndRecord(|parts|, |Centrals(parts)|, |Locals(parts)|)
  }

  // The writer

  class ByteList {
    var bytes: seq<Byte>

    constructor ()
      ensures bytes == []
    {
      bytes := [];
    }

    method AppendUint16(value: nat)
      modifies this
      ensures bytes == old(bytes) + Uint16(value)
    {
      bytes := bytes + [ByteOf(value), ByteOf(value / 0x100)];
    }

    method AppendUint32(value: nat)
      modifies this
      ensures bytes == old(bytes) + Uint32(value)
    {
      bytes := bytes + [ByteOf(value), ByteOf(value / 0x100), ByteOf(value / 0x10000), ByteOf(value / 0x1000000)];
    }

    method AppendBytes(more: seq<Byte>)
      modifies this
      ensures bytes == old(bytes) + more
    {
      for i := 0 to |more|
        invariant bytes == old(bytes) + more[..i]
      {
        bytes := bytes + [more[i]];
      }
      assert more[..|more|] == more;
    }

    method AppendLocal(e: Entry, checksum: nat)
      requires checksum == CrcOf(e.content)
      modifies this
      ensures bytes == old(bytes) + LocalRecord(e)
    {
      hide Uint16, Uint32, CrcOf;
      AppendUint32(LOCAL_SIGNATURE);
      AppendUint16(VERSION);
      AppendUint16(0);
      AppendUint16(0);
      AppendUint16(0);
      AppendUint16(0);
      assert bytes == old(bytes) + LocalStart();
      ghost var start := bytes;
      AppendUint32(checksum);
      AppendUint32(|e.content|);
      AppendUint32(|e.content|);
      AppendUint16(|e.name|);
      AppendUint16(0);
      assert bytes == start + LocalSizes(e);
      hide LocalStart, LocalSizes;
      AppendBytes(e.name);
      AppendBytes(e.content);
      assert bytes == old(bytes) + LocalRecord(e);
    }

    method AppendEnd(count: nat, directorySize: nat, directoryOffset: nat)
      modifies this
      ensures bytes == old(bytes) + EndRecord(count, directorySize, directoryOffset)
    {
      hide Uint16, Uint32;
      AppendUint32(END_SIGNATURE);
      AppendUint16(0);
      AppendUint16(0);
      AppendUint16(count);
      AppendUint16(count);
      AppendUint32(directorySize);
      AppendUint32(directoryOffset);
      AppendUint16(0);
      assert bytes == old(bytes) + EndRecord(count, directorySize, directoryOffset);
    }

    method AppendCentralStart()
      modifies this
      ensures bytes == old(bytes) + CentralStart()
    {
      hide Uint16, Uint32;
      AppendUint32(CENTRAL_SIGNATURE);
      AppendUint16(VERSION);
      AppendUint16(VERSION);
      AppendUint16(0);
      AppendUint16(0);
      AppendUint16(0);
      AppendUint16(0);
      assert bytes == old(bytes) + CentralStart();
    }

    method AppendCentral(e: Entry, checksum: nat, localOffset: nat)
      requires checksum == CrcOf(e.content)
      modifies this
      ensures bytes == old(bytes) + CentralRecord(e, localOffset)
    {
      hide Uint16, Uint32, CrcOf, CentralStart;
      AppendCentralStart();
      ghost var start := bytes;
      AppendUint32(checksum);
      AppendUint32(|e.content|);
      AppendUint32(|e.content|);
      AppendUint16(|e.name|);
      assert bytes == start + CentralSizes(e);
      ghost var sized := bytes;
      AppendUint16(0);
      AppendUint16(0);
      AppendUint16(0);
      AppendUint16(0);
      AppendUint32(0);
      AppendUint32(localOffset);
      assert bytes == sized + CentralEnd(localOffset);
      hide CentralSizes, CentralEnd;
      AppendBytes(e.name);
      assert bytes == old(bytes) + CentralRecord(e, localOffset);
    }
  }

  method BuildStoredZip(parts: seq<Entry>) returns (result: seq<Byte>)
    ensures result == Archive(parts)
  {
    hide Uint16, Uint32, LocalRecord, CentralRecord, Checksum;
    var archive := new ByteList();
    var centralDirectory := new ByteList();
    for i := 0 to |parts|
      invariant archive.bytes == Locals(parts[..i])
      invariant centralDirectory.bytes == Centrals(parts[..i])
      invariant archive != centralDirectory && fresh(archive) && fresh(centralDirectory)
    {
      var checksum := Crc(parts[i].content);
      var localOffset := |archive.bytes|;
      archive.AppendLocal(parts[i], checksum as nat);
      centralDirectory.AppendCentral(parts[i], checksum as nat, localOffset);
      assert parts[..i + 1][..i] == parts[..i];
    }
    assert parts[..|parts|] == parts;
    var centralOffset := |archive.bytes|;
    archive.AppendBytes(centralDirectory.bytes);
    archive.AppendEnd(|parts|, |centralDirectory.bytes|, centralOffset);
    return archive.bytes;
  }

  // A reader

  datatype LocalFile = LocalFile(name: seq<Byte>, content: seq<Byte>, crc: nat, compressed: nat, uncompressed: nat)
  datatype CentralFile = CentralFile(name: seq<Byte>, crc: nat, compressed: nat, uncompressed: nat, localOffset: nat, next: nat)

  /** Section 4.3.7: fixed part of 30 bytes, name, extra field, then the stored data. */
  function ReadLocal(a: seq<Byte>, at: nat): Option<LocalFile> {
    if at + 30 > |a| || Read32(a, at) != LOCAL_SIGNATURE || Read16(a, at + 6) != 0 || Read16(a, at + 8) != 0 then None
    else
      var size, nameLength, extraLength := Read32(a, at + 18), Read16(a, at + 26), Read16(a, at + 28);
      var data := at + 30 + nameLength + extraLength;
      if data + size > |a| then None
      else Some(LocalFile(a[at + 30..at + 30 + nameLength], a[data..data + size], Read32(a, at + 14), size, Read32(a, at + 22)))
  }

  /** Section 4.3.12: fixed part of 46 bytes, name, extra field and comment. */
  function ReadCentral(a: seq<Byte>, at: nat): Option<CentralFile> {
    if at + 46 > |a| || Read32(a, at) != CENTRAL_SIGNATURE || Read16(a, at + 8) != 0 || Read16(a, at + 10) != 0 then None
    else
      var nameLength := Read16(a, at + 28);
      var next := at + 46 + nameLength + Read16(a, at + 30) + Read16(a, at + 32);
      if next > |a| then None
      else Some(CentralFile(a[at + 46..at + 46 + nameLength], Read32(a, at + 16), Read32(a, at + 20), Read32(a, at + 24),
                            Read32(a, at + 42), next))
  }

  /** Follows one directory record to its data; both headers and the data must agree. */
  function ReadEntry(a: seq<Byte>, at: nat): Option<(Entry, nat)> {
    var central := ReadCentral(a, at);
    if central == None then None
    else
      var c := central.value;
      var local := ReadLocal(a, c.localOffset);
      if local == None then None
      else
        var l := local.value;
        if l.name == c.name && l.crc == c.crc == CrcOf(l.content)
           && l.compressed == c.compressed && l.uncompressed == c.uncompressed == |l.content|
        then Some((Entry(l.name, l.content), c.next))
        else None
  }

  function ReadDirectory(a: seq<Byte>, at: nat, count: nat, end: nat): Option<seq<Entry>>
    decreases count
  {
    hide ReadEntry;
    if count == 0 then (if at == end then Some([]) else None)
    else
      var first := ReadEntry(a, at);
      if first == None then None
      else
        var rest := ReadDirectory(a, first.value.1, count - 1, end);
        if rest == None then None else Some([first.value.0] + rest.value)
  }

  /** Section 4.3.16: the end record, without a comment, is the last 22 bytes. */
  function ReadArchive(a: seq<Byte>): Option<seq<Entry>> {
    if |a| < 22 then None
    else
      var at := |a| - 22;
      if Read32(a, at) != END_SIGNATURE || Read16(a, at + 4) != 0 || Read16(a, at + 6) != 0
         || Read16(a, at + 8) != Read16(a, at + 10) || Read16(a, at + 20) != 0 then None
      else
        var size, offset := Read32(a, at + 12), Read32(a, at + 16);
        if offset + size != at then None
        else ReadDirectory(a, offset, Read16(a, at + 10), at)
  }

  // The reader inverts the writer

  /** Everything the format has to store fits its field: counts and names in 16 bits, offsets and sizes in 32. */
  ghost predicate FitsFormat(parts: seq<Entry>) {
    && |parts| < 0x10000
    && (forall i :: 0 <= i < |parts| ==> |parts[i].name| < 0x10000)
    && |Locals(parts)| < 0x1_0000_0000 && |Centrals(parts)| < 0x1_0000_0000
  }

  lemma LocalStartHeld(a: seq<Byte>, at: nat)
    requires Holds(a, at, LocalStart())
    ensures at + 14 <= |a| && Read32(a, at) == LOCAL_SIGNATURE && Read16(a, at + 6) == 0 && Read16(a, at + 8) == 0
  {
    hide Uint16, Uint32, Holds, Read32, Read16;
    var f0 := Uint32(LOCAL_SIGNATURE);
    var f1 := f0 + Uint16(VERSION);
    var f2 := f1 + Uint16(0);
    var f3 := f2 + Uint16(0);
    var f4 := f3 + Uint16(0);
    HoldsParts(a, at, f4, Uint16(0));
    HoldsParts(a, at, f3, Uint16(0));
    HoldsParts(a, at, f2, Uint16(0));
    HoldsParts(a, at, f1, Uint16(0));
    HoldsParts(a, at, f0, Uint16(VERSION));
    HoldsWithin(a, at, LocalStart());
    ReadsBack32(a, at, LOCAL_SIGNATURE);
    ReadsBack16(a, at + 6, 0);
    ReadsBack16(a, at + 8, 0);
  }

  lemma LocalSizesHeld(a: seq<Byte>, at: nat, e: Entry)
    requires Holds(a, at, LocalSizes(e)) && |e.name| < 0x10000 && |e.content| < 0x1_0000_0000
    ensures at + 16 <= |a| && Read32(a, at) == CrcOf(e.content)
    ensures Read32(a, at + 4) == |e.content| == Read32(a, at + 8)
    ensures Read16(a, at + 12) == |e.name| && Read16(a, at + 14) == 0
  {
    hide Uint16, Uint32, Holds, Read32, Read16, CrcOf;
    var f0 := Uint32(CrcOf(e.content));
    var f1 := f0 + Uint32(|e.content|);
    var f2 := f1 + Uint32(|e.content|);
    var f3 := f2 + Uint16(|e.name|);
    HoldsParts(a, at, f3, Uint16(0));
    HoldsParts(a, at, f2, Uint16(|e.name|));
    HoldsParts(a, at, f1, Uint32(|e.content|));
    HoldsParts(a, at, f0, Uint32(|e.content|));
    HoldsWithin(a, at, LocalSizes(e));
    ReadsBack32(a, at, CrcOf(e.content));
    ReadsBack32(a, at + 4, |e.content|);
    ReadsBack32(a, at + 8, |e.content|);
    ReadsBack16(a, at + 12, |e.name|);
    ReadsBack16(a, at + 14, 0);
  }

  lemma LocalIsRead(a: seq<Byte>, at: nat, e: Entry)
    requires Holds(a, at, LocalRecord(e)) && |e.name| < 0x10000 && |e.content| < 0x1_0000_0000
    ensures ReadLocal(a, at) == Some(LocalFile(e.name, e.content, CrcOf(e.content), |e.content|, |e.content|))
  {
    hide Holds, Read32, Read16, CrcOf, LocalStart, LocalSizes;
    HoldsParts(a, at, LocalHeader(e) + e.name, e.content);
    HoldsParts(a, at, LocalHeader(e), e.name);
    HoldsParts(a, at, LocalStart(), LocalSizes(e));
    LocalStartHeld(a, at);
    LocalSizesHeld(a, at + 14, e);
    HoldsWithin(a, at + 30, e.name);
    HoldsWithin(a, at + 30 + |e.name|, e.content);
  }

  lemma CentralStartHeld(a: seq<Byte>, at: nat)
    requires Holds(a, at, CentralStart())
    ensures at + 16 <= |a| && Read32(a, at) == CENTRAL_SIGNATURE && Read16(a, at + 8) == 0 && Read16(a, at + 10) == 0
  {
    hide Uint16, Uint32, Holds, Read32, Read16;
    var f0 := Uint32(CENTRAL_SIGNATURE);
    var f1 := f0 + Uint16(VERSION);
    var f2 := f1 + Uint16(VERSION);
    var f3 := f2 + Uint16(0);
    var f4 := f3 + Uint16(0);
    var f5 := f4 + Uint16(0);
    HoldsParts(a, at, f5, Uint16(0));
    HoldsParts(a, at, f4, Uint16(0));
    HoldsParts(a, at, f3, Uint16(0));
    HoldsParts(a, at, f2, Uint16(0));
    HoldsParts(a, at, f1, Uint16(VERSION));
    HoldsParts(a, at, f0, Uint16(VERSION));
    HoldsWithin(a, at, CentralStart());
    ReadsBack32(a, at, CENTRAL_SIGNATURE);
    ReadsBack16(a, at + 8, 0);
    ReadsBack16(a, at + 10, 0);
  }

  lemma CentralSizesHeld(a: seq<Byte>, at: nat, e: Entry)
    requires Holds(a, at, CentralSizes(e)) && |e.name| < 0x10000 && |e.content| < 0x1_0000_0000
    ensures at + 14 <= |a| && Read32(a, at) == CrcOf(e.content)
    ensures Read32(a, at + 4) == |e.content| == Read32(a, at + 8)
    ensures Read16(a, at + 12) == |e.name|
  {
    hide Uint16, Uint32, Holds, Read32, Read16, CrcOf;
    var f0 := Uint32(CrcOf(e.content));
    var f1 := f0 + Uint32(|e.content|);
    var f2 := f1 + Uint32(|e.content|);
    HoldsParts(a, at, f2, Uint16(|e.name|));
    HoldsParts(a, at, f1, Uint32(|e.content|));
    HoldsParts(a, at, f0, Uint32(|e.content|));
    HoldsWithin(a, at, CentralSizes(e));
    ReadsBack32(a, at, CrcOf(e.content));
    ReadsBack32(a, at + 4, |e.content|);
    ReadsBack32(a, at + 8, |e.content|);
    ReadsBack16(a, at + 12, |e.name|);
  }

  lemma CentralEndHeld(a: seq<Byte>, at: nat, localOffset: nat)
    requires Holds(a, at, CentralEnd(localOffset)) && localOffset < 0x1_0000_0000
    ensures at + 16 <= |a| && Read16(a, at) == 0 && Read16(a, at + 2) == 0 && Read32(a, at + 12) == localOffset
  {
    hide Uint16, Uint32, Holds, Read32, Read16;
    var f0 := Uint16(0);
    var f1 := f0 + Uint16(0);
    var f2 := f1 + Uint16(0);
    var f3 := f2 + Uint16(0);
    var f4 := f3 + Uint32(0);
    HoldsParts(a, at, f4, Uint32(localOffset));
    HoldsParts(a, at, f3, Uint32(0));
    HoldsParts(a, at, f2, Uint16(0));
    HoldsParts(a, at, f1, Uint16(0));
    HoldsParts(a, at, f0, Uint16(0));
    HoldsWithin(a, at, CentralEnd(localOffset));
    ReadsBack16(a, at, 0);
    ReadsBack16(a, at + 2, 0);
    ReadsBack32(a, at + 12, localOffset);
  }

  lemma CentralIsRead(a: seq<Byte>, at: nat, e: Entry, localOffset: nat)
    requires Holds(a, at, CentralRecord(e, localOffset))
    requires |e.name| < 0x10000 && |e.content| < 0x1_0000_0000 && localOffset < 0x1_0000_0000
    ensures ReadCentral(a, at) ==
              Some(CentralFile(e.name, CrcOf(e.content), |e.content|, |e.content|, localOffset, at + 46 + |e.name|))
  {
    hide Holds, Read32, Read16, CrcOf, CentralStart, CentralSizes, CentralEnd;
    HoldsParts(a, at, CentralHeader(e, localOffset), e.name);
    HoldsParts(a, at, CentralStart() + CentralSizes(e), CentralEnd(localOffset));
    HoldsParts(a, at, CentralStart(), CentralSizes(e));
    CentralStartHeld(a, at);
    CentralSizesHeld(a, at + 16, e);
    CentralEndHeld(a, at + 30, localOffset);
    HoldsWithin(a, at + 46, e.name);
  }

  lemma EntryIsRead(a: seq<Byte>, at: nat, e: Entry, localOffset: nat)
    requires Holds(a, at, CentralRecord(e, localOffset)) && Holds(a, localOffset, LocalRecord(e))
    requires |e.name| < 0x10000 && |e.content| < 0x1_0000_0000 && localOffset < 0x1_0000_0000
    ensures ReadEntry(a, at) == Some((e, at + |CentralRecord(e, localOffset)|))
  {
    hide ReadLocal, ReadCentral, LocalRecord, CrcOf, CentralHeader, Holds;
    CentralIsRead(a, at, e, localOffset);
    LocalIsRead(a, localOffset, e);
  }

  /** The local records, and the directory records that point to them, one by one. */
  lemma {:induction false} PiecesHeld(a: seq<Byte>, from: nat, parts: seq<Entry>, i: nat)
    requires Holds(a, 0, Locals(parts)) && Holds(a, from, Centrals(parts)) && i < |parts|
    ensures Holds(a, |Locals(parts[..i])|, LocalRecord(parts[i]))
    ensures Holds(a, from + |Centrals(parts[..i])|, CentralRecord(parts[i], |Locals(parts[..i])|))
    ensures |Centrals(parts[..i + 1])| == |Centrals(parts[..i])| + |CentralRecord(parts[i], |Locals(parts[..i])|)|
    decreases |parts|
  {
    hide Holds, LocalRecord, CentralRecord;
    var before, last := parts[..|parts| - 1], parts[|parts| - 1];
    HoldsParts(a, 0, Locals(before), LocalRecord(last));
    HoldsParts(a, from, Centrals(before), CentralRecord(last, |Locals(before)|));
    assert parts[..i + 1][..i] == parts[..i];
    if i < |before| {
      PiecesHeld(a, from, before, i);
      assert before[..i] == parts[..i];
    } else {
      assert before == parts[..i] && parts[..i + 1] == parts;
    }
  }

  lemma {:induction false} SizesFit(parts: seq<Entry>, i: nat)
    requires i < |parts|
    ensures |Locals(parts[..i])| + |parts[i].content| <= |Locals(parts)|
  {
    hide LocalHeader;
    var before := parts[..|parts| - 1];
    if i < |before| {
      SizesFit(before, i);
      assert before[..i] == parts[..i];
    } else {
      assert before == parts[..i];
    }
  }

  lemma FieldsFit(parts: seq<Entry>, i: nat)
    requires FitsFormat(parts) && i < |parts|
    ensures |parts[i].name| < 0x10000
    ensures |parts[i].content| < 0x1_0000_0000 && |Locals(parts[..i])| < 0x1_0000_0000
  {
    hide Locals, Centrals;
    SizesFit(parts, i);
  }

  lemma {:induction false} DirectoryIsRead(a: seq<Byte>, from: nat, parts: seq<Entry>, i: nat)
    requires Holds(a, 0, Locals(parts)) && Holds(a, from, Centrals(parts)) && i <= |parts|
    requires FitsFormat(parts)
    ensures ReadDirectory(a, from + |Centrals(parts[..i])|, |parts| - i, from + |Centrals(parts)|) == Some(parts[i..])
    decreases |parts| - i
  {
    hide ReadEntry, Holds, LocalRecord, CentralRecord, Locals, Centrals, FitsFormat;
    if i == |parts| {
      assert parts[..i] == parts;
    } else {
      PiecesHeld(a, from, parts, i);
      FieldsFit(parts, i);
      EntryIsRead(a, from + |Centrals(parts[..i])|, parts[i], |Locals(parts[..i])|);
      DirectoryIsRead(a, from, parts, i + 1);
      assert parts[i..] == [parts[i]] + parts[i + 1..];
    }
  }

  lemma EndHeld(a: seq<Byte>, at: nat, count: nat, size: nat, offset: nat)
    requires Holds(a, at, EndRecord(count, size, offset))
    ensures at + 22 <= |a| && Read32(a, at) == END_SIGNATURE && Read16(a, at + 4) == 0 && Read16(a, at + 6) == 0
    ensures Read16(a, at + 8) == count % 0x10000 == Read16(a, at + 10) && Read16(a, at + 20) == 0
    ensures Read32(a, at + 12) == size % 0x1_0000_0000 && Read32(a, at + 16) == offset % 0x1_0000_0000
  {
    hide Uint16, Uint32, Holds, Read32, Read16;
    var f0 := Uint32(END_SIGNATURE);
    var f1 := f0 + Uint16(0);
    var f2 := f1 + Uint16(0);
    var f3 := f2 + Uint16(count);
    var f4 := f3 + Uint16(count);
    var f5 := f4 + Uint32(size);
    var f6 := f5 + Uint32(offset);
    HoldsParts(a, at, f6, Uint16(0));
    HoldsParts(a, at, f5, Uint32(offset));
    HoldsParts(a, at, f4, Uint32(size));
    HoldsParts(a, at, f3, Uint16(count));
    HoldsParts(a, at, f2, Uint16(count));
    HoldsParts(a, at, f1, Uint16(0));
    HoldsParts(a, at, f0, Uint16(0));
    HoldsWithin(a, at, EndRecord(count, size, offset));
    ReadsBack32(a, at, END_SIGNATURE);
    ReadsBack16(a, at + 4, 0);
    ReadsBack16(a, at + 6, 0);
    ReadsBack16(a, at + 8, count);
    ReadsBack16(a, at + 10, count);
    ReadsBack32(a, at + 12, size);
    ReadsBack32(a, at + 16, offset);
    ReadsBack16(a, at + 20, 0);
  }

  /** What the reader sees of the end record: a directory is looked for only where size and offset fit. */
  lemma ArchiveEnd(parts: seq<Entry>)
    ensures var l, c := |Locals(parts)|, |Centrals(parts)|;
            ReadArchive(Archive(parts)) ==
              if l < 0x1_0000_0000 && c < 0x1_0000_0000
              then ReadDirectory(Archive(parts), l, |parts| % 0x10000, l + c)
              else None
    ensures Holds(Archive(parts), 0, Locals(parts)) && Holds(Archive(parts), |Locals(parts)|, Centrals(parts))
  {
    hide Holds, EndRecord, Locals, Centrals, Read32, Read16, ReadDirectory;
    var a, l, c := Archive(parts), Locals(parts), Centrals(parts);
    var end := EndRecord(|parts|, |c|, |l|);
    WholeIsHeld(a);
    HoldsParts(a, 0, l + c, end);
    HoldsParts(a, 0, l, c);
    EndHeld(a, |l| + |c|, |parts|, |c|, |l|);
  }

  /** Reading what was written gives back every entry, in order, with matching headers and checksums. */
  lemma ReadWrite(parts: seq<Entry>)
    requires FitsFormat(parts)
    ensures ReadArchive(Archive(parts)) == Some(parts)
  {
    hide Holds, Locals, Centrals, ReadDirectory, ReadArchive, Archive;
    ArchiveEnd(parts);
    DirectoryIsRead(Archive(parts), |Locals(parts)|, parts, 0);
    NoRecords(parts);
    assert parts[0..] == parts;
  }

  // Nothing that does not fit is read back

  lemma NumberIsSmall(b: Byte)
    ensures NumberOf(b) < 256
  {
    hide Weighted;
    assert forall bit, weight :: Weighted(bit, weight) <= weight by {
      forall bit, weight ensures Weighted(bit, weight) <= weight { WeightedIsSmall(bit, weight); }
    }
  }

  lemma WeightedIsSmall(bit: bool, weight: nat)
    ensures Weighted(bit, weight) <= weight
  {
  }

  lemma NamesReadAreShort(a: seq<Byte>, at: nat)
    ensures ReadEntry(a, at).Some? ==> |ReadEntry(a, at).value.0.name| < 0x10000
  {
    hide NumberOf, Read32, CrcOf, ReadLocal;
    if at + 46 <= |a| {
      NumberIsSmall(a[at + 28]);
      NumberIsSmall(a[at + 29]);
    }
  }

  lemma {:induction false} DirectoryReadIsShort(a: seq<Byte>, at: nat, count: nat, end: nat)
    ensures var r := ReadDirectory(a, at, count, end);
            r.Some? ==> |r.value| == count && forall i :: 0 <= i < count ==> |r.value[i].name| < 0x10000
    decreases count
  {
    hide ReadEntry;
    NamesReadAreShort(a, at);
    if count > 0 && ReadEntry(a, at).Some? {
      DirectoryReadIsShort(a, ReadEntry(a, at).value.1, count - 1, end);
    }
  }

  /** The writer's output is readable exactly when everything fits its field. */
  lemma ReadWriteExactly(parts: seq<Entry>)
    ensures ReadArchive(Archive(parts)) == Some(parts) <==> FitsFormat(parts)
  {
    hide Holds, Locals, Centrals, ReadDirectory, ReadArchive, Archive;
    if FitsFormat(parts) { ReadWrite(parts); }
    ArchiveEnd(parts);
    DirectoryReadIsShort(Archive(parts), |Locals(parts)|, |parts| % 0x10000, |Locals(parts)| + |Centrals(parts)|);
  }

  /** One empty file under a name of 65536 zero bytes: the name's length field holds zero, and the archive does not read back. */
  lemma LongNameIsLost() returns (parts: seq<Entry>)
    ensures |parts| == 1 && |parts[0].name| == 0x10000 && parts[0].content == []
    ensures Read16(Uint16(|parts[0].name|), 0) == 0 && ReadArchive(Archive(parts)) != Some(parts)
  {
    var name: seq<Byte> := seq(0x10000, i => 0);
    parts := [Entry(name, [])];
    hide Archive, ReadArchive, NumberOf, ByteOf;
    ReadWriteExactly(parts);
    WholeIsHeld(Uint16(0x10000));
    ReadsBack16(Uint16(0x10000), 0, 0x10000);
  }

  // The fixed bytes

  function Codes(bytes: seq<Byte>): (r: seq<nat>)
    ensures |r| == |bytes|
  {
    seq(|bytes|, i requires 0 <= i < |bytes| => NumberOf(bytes[i]))
  }

  lemma CodesConcat(a: seq<Byte>, b: seq<Byte>)
    ensures Codes(a + b) == Codes(a) + Codes(b)
  {
    hide NumberOf;
  }

  lemma Codes16(v: nat)
    ensures Codes(Uint16(v)) == [v % 256, v / 0x100 % 256]
  {
    hide ByteOf, NumberOf;
    ByteRoundTrip(v);
    ByteRoundTrip(v / 0x100);
  }

  lemma Codes32(v: nat)
    ensures Codes(Uint32(v)) == [v % 256, v / 0x100 % 256, v / 0x10000 % 256, v / 0x1000000 % 256]
  {
    hide ByteOf, NumberOf;
    ByteRoundTrip(v);
    ByteRoundTrip(v / 0x100);
    ByteRoundTrip(v / 0x10000);
    ByteRoundTrip(v / 0x1000000);
  }

  lemma FourZeroes(a: seq<Byte>)
    ensures Codes(a + Uint16(0) + Uint16(0) + Uint16(0) + Uint16(0)) == Codes(a) + [0, 0, 0, 0, 0, 0, 0, 0]
  {
    hide Uint16, Codes;
    Codes16(0);
    CodesConcat(a, Uint16(0));
    CodesConcat(a + Uint16(0), Uint16(0));
    CodesConcat(a + Uint16(0) + Uint16(0), Uint16(0));
    CodesConcat(a + Uint16(0) + Uint16(0) + Uint16(0), Uint16(0));
  }

  /** A local record starts with "PK", 3, 4, asks for version 2.0, and has no flags, no method, no time and no date. */
  lemma LocalStartBytes()
    ensures Codes(LocalStart()) == [0x50, 0x4b, 3, 4, 20, 0, 0, 0, 0, 0, 0, 0, 0, 0]
  {
    hide Uint16, Uint32, Codes;
    var signature, version := Uint32(LOCAL_SIGNATURE), Uint16(VERSION);
    Codes32(LOCAL_SIGNATURE);
    Codes16(VERSION);
    CodesConcat(signature, version);
    FourZeroes(signature + version);
  }

  /** A directory record starts with "PK", 1, 2, was made by and asks for version 2.0, and is otherwise the same. */
  lemma CentralStartBytes()
    ensures Codes(CentralStart()) == [0x50, 0x4b, 1, 2, 20, 0, 20, 0, 0, 0, 0, 0, 0, 0, 0, 0]
  {
    hide Uint16, Uint32, Codes;
    var signature, version := Uint32(CENTRAL_SIGNATURE), Uint16(VERSION);
    Codes32(CENTRAL_SIGNATURE);
    Codes16(VERSION);
    CodesConcat(signature, version);
    CodesConcat(signature + version, version);
    FourZeroes(signature + version + version);
  }

  /** It has no extra field, no comment, no disk number and no attributes. */
  lemma CentralEndBytes(localOffset: nat)
    ensures Codes(CentralEnd(localOffset))[..12] == [0, 0, 0, 0, 0, 0, 0, 0, 0, 0, 0, 0]
  {
    hide Uint16, Uint32, Codes;
    var zeroes := Uint16(0) + Uint16(0) + Uint16(0) + Uint16(0);
    FourZeroes([]);
    assert [] + Uint16(0) + Uint16(0) + Uint16(0) + Uint16(0) == zeroes && Codes([]) == [];
    Codes32(0);
    CodesConcat(zeroes, Uint32(0));
    CodesConcat(zeroes + Uint32(0), Uint32(localOffset));
  }

  /** The end record starts with "PK", 5, 6 and speaks of the first disk only. */
  lemma EndStartBytes(count: nat, size: nat, offset: nat)
    ensures Codes(EndRecord(count, size, offset))[..8] == [0x50, 0x4b, 5, 6, 0, 0, 0, 0]
    ensures Codes(EndRecord(count, size, offset))[20..] == [0, 0]
  {
    hide Uint16, Uint32, Codes;
    var signature := Uint32(END_SIGNATURE);
    var start := signature + Uint16(0) + Uint16(0);
    var middle := Uint16(count) + Uint16(count) + Uint32(size) + Uint32(offset);
    assert EndRecord(count, size, offset) == start + middle + Uint16(0);
    Codes32(END_SIGNATURE);
    Codes16(0);
    CodesConcat(signature, Uint16(0));
    CodesConcat(signature + Uint16(0), Uint16(0));
    CodesConcat(start, middle);
    CodesConcat(start + middle, Uint16(0));
  }

  // What the program packs

  function NameBytes(parts: seq<Entry>): nat {
    if parts == [] then 0 else NameBytes(parts[..|parts| - 1]) + |parts[|parts| - 1].name|
  }

  function ContentBytes(parts: seq<Entry>): nat {
    if parts == [] then 0 else ContentBytes(parts[..|parts| - 1]) + |parts[|parts| - 1].content|
  }

  /** How long the two parts of an archive are. */
  lemma {:induction false} SizesOf(parts: seq<Entry>)
    ensures |Locals(parts)| == 30 * |parts| + NameBytes(parts) + ContentBytes(parts)
    ensures |Centrals(parts)| == 46 * |parts| + NameBytes(parts)
  {
    hide LocalHeader, CentralHeader;
    if parts != [] { SizesOf(parts[..|parts| - 1]); }
  }

  /** Both callers pass these three names, whose characters are single bytes. */
  ghost predicate IsPackage(parts: seq<Entry>) {
    && |parts| == 3
    && |parts[0].name| == |"[Content_Types].xml"| && |parts[1].name| == |"_rels/.rels"| && |parts[2].name| == |"word/document.xml"|
  }

  lemma ThreeNames(parts: seq<Entry>)
    requires |parts| == 3
    ensures NameBytes(parts) == |parts[0].name| + |parts[1].name| + |parts[2].name|
  {
    var two, one := parts[..2], parts[..1];
    assert two[..1] == one && one[..0] == [] && parts[..|parts| - 1] == two;
    assert NameBytes([]) == 0;
    assert NameBytes(one) == |parts[0].name|;
    assert NameBytes(two) == NameBytes(one) + |parts[1].name|;
  }

  lemma PackageNames(parts: seq<Entry>)
    requires IsPackage(parts)
    ensures |parts| == 3 && NameBytes(parts) == 47 && forall i :: 0 <= i < |parts| ==> |parts[i].name| < 0x10000
  {
    ThreeNames(parts);
  }

  lemma FitsBySize(parts: seq<Entry>)
    requires |parts| == 3 && NameBytes(parts) == 47 && forall i :: 0 <= i < |parts| ==> |parts[i].name| < 0x10000
    ensures FitsFormat(parts) <==> ContentBytes(parts) < 0x1_0000_0000 - 137
  {
    hide Locals, Centrals, NameBytes, ContentBytes;
    SizesOf(parts);
  }

  /** With these names the count, the names and the directory always fit, and the archive reads back unless the contents reach 4 GiB less 137 bytes. */
  lemma PackageReadsBack(parts: seq<Entry>)
    requires IsPackage(parts)
    ensures ReadArchive(Archive(parts)) == Some(parts) <==> ContentBytes(parts) < 0x1_0000_0000 - 137
  {
    hide ReadArchive, Archive, IsPackage, NameBytes, ContentBytes, FitsFormat;
    PackageNames(parts);
    FitsBySize(parts);
    ReadWriteExactly(parts);
  }

  lemma WholeIsHeld(a: seq<Byte>)
    ensures Holds(a, 0, a)
  {
  }

  lemma NoRecords(parts: seq<Entry>)
    ensures Centrals(parts[..0]) == []
  {
  }
}
