/**
 The archive writer of the workbook export, and a reader for what it writes.

 The writer lays out one local header per file, then the central directory, then the end record;
 the reader is the ordinary one of sections 4.3.7, 4.3.12 and 4.3.16 of PKWARE APPNOTE.TXT. It
 starts at the end record and trusts only what the archive says.
 */
module Zip {
  import opened Prelude
  import Crc32

  const LOCAL_SIGNATURE := 0x0403_4b50
  const CENTRAL_SIGNATURE := 0x0201_4b50
  const END_SIGNATURE := 0x0605_4b50
  const MAX16 := 0xffff
  const MAX32 := 0xffff_ffff

  datatype File = File(path: seq<byte>, content: seq<byte>)

  /** `writeUInt16LE` and `writeUInt32LE` throw on a value that does not fit the field. */
  datatype Error = OutOfRange

  // ---- Little-endian fields ----

  function LE16(n: nat): (r: seq<byte>)
    requires n <= MAX16
    ensures |r| == 2
  {
    [n % 0x100, n / 0x100]
  }

  function LE32(n: nat): (r: seq<byte>)
    requires n <= MAX32
    ensures |r| == 4
  {
    [n % 0x100, n / 0x100 % 0x100, n / 0x1_0000 % 0x100, n / 0x100_0000]
  }

  function U16(a: seq<byte>, at: nat): (r: nat)
    requires at + 2 <= |a|
    ensures r <= MAX16
  {
    a[at] as nat + 0x100 * a[at + 1] as nat
  }

  function U32(a: seq<byte>, at: nat): (r: nat)
    requires at + 4 <= |a|
    ensures r <= MAX32
  {
    a[at] as nat + 0x100 * a[at + 1] as nat + 0x1_0000 * a[at + 2] as nat + 0x100_0000 * a[at + 3] as nat
  }

  lemma ReadBack32(n: nat)
    requires n <= MAX32
    ensures U32(LE32(n), 0) == n
  {
    var h := n / 0x100;
    assert n / 0x1_0000 == h / 0x100;
    assert n / 0x100_0000 == h / 0x1_0000;
  }

  /** `Buffer.alloc(n)`, a buffer of zero bytes. */
  function Zeros(n: nat): (r: seq<byte>)
    ensures |r| == n
  {
    seq(n, _ => 0)
  }

  /** A record under construction: zero bytes up to `at`, then the field. */
  function Put(record: seq<byte>, at: nat, field: seq<byte>): (r: seq<byte>)
    requires |record| <= at
    ensures |r| == at + |field|
  {
    record + Zeros(at - |record|) + field
  }

  method WriteUInt16LE(buffer: array<byte>, value: nat, at: nat, ghost record: seq<byte>) returns (ok: bool)
    requires |record| <= at && at + 2 <= buffer.Length
    requires buffer[..] == record + Zeros(buffer.Length - |record|)
    modifies buffer
    ensures ok == (value <= MAX16)
    ensures ok ==> buffer[..] == Put(record, at, LE16(value)) + Zeros(buffer.Length - at - 2)
  {
    ok := value <= MAX16;
    if ok {
      buffer[at], buffer[at + 1] := value % 0x100, value / 0x100;
    }
  }

  method WriteUInt32LE(buffer: array<byte>, value: nat, at: nat, ghost record: seq<byte>) returns (ok: bool)
    requires |record| <= at && at + 4 <= buffer.Length
    requires buffer[..] == record + Zeros(buffer.Length - |record|)
    modifies buffer
    ensures ok == (value <= MAX32)
    ensures ok ==> buffer[..] == Put(record, at, LE32(value)) + Zeros(buffer.Length - at - 4)
  {
    ok := value <= MAX32;
    if ok {
      buffer[at], buffer[at + 1] := value % 0x100, value / 0x100 % 0x100;
      buffer[at + 2], buffer[at + 3] := value / 0x1_0000 % 0x100, value / 0x100_0000;
    }
  }

  // ---- The layout ----

  /** What the field widths demand of one file. */
  predicate FileFits(f: File) {
    |f.path| <= MAX16 && |f.content| <= MAX32
  }

  function Sum(f: File): (r: nat)
    ensures r <= MAX32
  {
    Crc32.ChecksumFits(f.content);
    Crc32.Checksum(f.content)
  }

  /** Fields at their offsets, zero bytes everywhere else. */
  function LocalHeader(f: File): (r: seq<byte>)
    requires FileFits(f)
    ensures |r| == 30
  {
    var r := Put([], 0, LE32(LOCAL_SIGNATURE));
    var r := Put(r, 4, LE16(20));
    var r := Put(r, 14, LE32(Sum(f)));
    var r := Put(r, 18, LE32(|f.content|));
    var r := Put(r, 22, LE32(|f.content|));
    Put(r, 26, LE16(|f.path|)) + Zeros(2)
  }

  function CentralHeader(f: File, offset: nat): (r: seq<byte>)
    requires FileFits(f) && offset <= MAX32
    ensures |r| == 46
  {
    var r := Put([], 0, LE32(CENTRAL_SIGNATURE));
    var r := Put(r, 4, LE16(20));
    var r := Put(r, 6, LE16(20));
    var r := Put(r, 16, LE32(Sum(f)));
    var r := Put(r, 20, LE32(|f.content|));
    var r := Put(r, 24, LE32(|f.content|));
    var r := Put(r, 28, LE16(|f.path|));
    Put(r, 42, LE32(offset))
  }

  function EndRecord(count: nat, directorySize: nat, offset: nat): (r: seq<byte>)
    requires count <= MAX16 && directorySize <= MAX32 && offset <= MAX32
    ensures |r| == 22
  {
    var r := Put([], 0, LE32(END_SIGNATURE));
    var r := Put(r, 8, LE16(count));
    var r := Put(r, 10, LE16(count));
    var r := Put(r, 12, LE32(directorySize));
    Put(r, 16, LE32(offset)) + Zeros(2)
  }

  /** Bytes taken by the first k local records, which is the running `offset`. */
  function LocalSize(files: seq<File>, k: nat): nat
    requires k <= |files|
  {
    if k == 0 then 0 else LocalSize(files, k - 1) + 30 + |files[k - 1].path| + |files[k - 1].content|
  }

  function DirectorySize(files: seq<File>, k: nat): nat
    requires k <= |files|
  {
    if k == 0 then 0 else DirectorySize(files, k - 1) + 46 + |files[k - 1].path|
  }

  /** The first k files can be written, each at the offset it lands on. */
  predicate PrefixFits(files: seq<File>, k: nat)
    requires k <= |files|
  {
    k == 0 || (PrefixFits(files, k - 1) && FileFits(files[k - 1]) && LocalSize(files, k - 1) <= MAX32)
  }

  /** The archives the 16- and 32-bit fields can describe. */
  predicate Fits(files: seq<File>) {
    var n := |files|;
    PrefixFits(files, n) && n <= MAX16 && DirectorySize(files, n) <= MAX32 && LocalSize(files, n) <= MAX32
  }

  function LocalRecord(f: File): seq<byte>
    requires FileFits(f)
  {
    LocalHeader(f) + f.path + f.content
  }

  function CentralRecord(f: File, offset: nat): seq<byte>
    requires FileFits(f) && offset <= MAX32
  {
    CentralHeader(f, offset) + f.path
  }

  function Locals(files: seq<File>, k: nat): (r: seq<byte>)
    requires k <= |files| && PrefixFits(files, k)
    ensures |r| == LocalSize(files, k)
  {
    if k == 0 then [] else Locals(files, k - 1) + LocalRecord(files[k - 1])
  }

  function Directory(files: seq<File>, k: nat): (r: seq<byte>)
    requires k <= |files| && PrefixFits(files, k)
    ensures |r| == DirectorySize(files, k)
  {
    if k == 0 then [] else Directory(files, k - 1) + CentralRecord(files[k - 1], LocalSize(files, k - 1))
  }

  function Archive(files: seq<File>): seq<byte>
    requires Fits(files)
  {
    var n := |files|;
    Locals(files, n) + Directory(files, n) + EndRecord(n, DirectorySize(files, n), LocalSize(files, n))
  }

  // ---- The layout, byte by byte ----

  /** The low byte comes first. */
  lemma LiteralFields()
    ensures LE32(LOCAL_SIGNATURE) == [0x50, 0x4b, 3, 4] && LE32(CENTRAL_SIGNATURE) == [0x50, 0x4b, 1, 2]
    ensures LE32(END_SIGNATURE) == [0x50, 0x4b, 5, 6] && LE16(20) == [20, 0]
  {
  }

  lemma PutNext(record: seq<byte>, field: seq<byte>)
    ensures Put(record, |record|, field) == record + field
  {
    assert Zeros(0) == [];
  }

  /** Section 4.3.7: version 2.0, no flags, stored without compression, no time. */
  lemma LocalHeaderBytes(f: File)
    requires FileFits(f)
    ensures Crc32.Checksum(f.content) <= MAX32
    ensures LocalHeader(f) == [0x50, 0x4b, 3, 4, 20, 0, 0, 0, 0, 0, 0, 0, 0, 0]
      + LE32(Crc32.Checksum(f.content)) + LE32(|f.content|) + LE32(|f.content|) + LE16(|f.path|) + [0, 0]
  {
    LiteralFields();
    Crc32.ChecksumFits(f.content);
    hide LE32, LE16, Crc32.Checksum;
    var r4 := Put([], 0, LE32(LOCAL_SIGNATURE));
    assert r4 == [0x50, 0x4b, 3, 4];
    var r6 := Put(r4, 4, LE16(20));
    assert r6 == [0x50, 0x4b, 3, 4, 20, 0];
    assert r6 + Zeros(8) == [0x50, 0x4b, 3, 4, 20, 0, 0, 0, 0, 0, 0, 0, 0, 0];
    var r18 := Put(r6, 14, LE32(Sum(f)));
    var r22 := Put(r18, 18, LE32(|f.content|));
    var r26 := Put(r22, 22, LE32(|f.content|));
    PutNext(r18, LE32(|f.content|));
    PutNext(r22, LE32(|f.content|));
    PutNext(r26, LE16(|f.path|));
    assert Zeros(2) == [0, 0];
  }

  /** Section 4.3.12: the same, and no comment, no extra field, first disk, no attributes. */
  lemma CentralHeaderBytes(f: File, offset: nat)
    requires FileFits(f) && offset <= MAX32
    ensures Crc32.Checksum(f.content) <= MAX32
    ensures CentralHeader(f, offset) == [0x50, 0x4b, 1, 2, 20, 0, 20, 0, 0, 0, 0, 0, 0, 0, 0, 0]
      + LE32(Crc32.Checksum(f.content)) + LE32(|f.content|) + LE32(|f.content|) + LE16(|f.path|)
      + [0, 0, 0, 0, 0, 0, 0, 0, 0, 0, 0, 0] + LE32(offset)
  {
    LiteralFields();
    Crc32.ChecksumFits(f.content);
    hide LE32, LE16, Crc32.Checksum;
    var r4 := Put([], 0, LE32(CENTRAL_SIGNATURE));
    var r6 := Put(r4, 4, LE16(20));
    assert r4 == [0x50, 0x4b, 1, 2] && r6 == [0x50, 0x4b, 1, 2, 20, 0];
    var r8 := Put(r6, 6, LE16(20));
    PutNext(r6, LE16(20));
    assert r8 == [0x50, 0x4b, 1, 2, 20, 0, 20, 0];
    assert r8 + Zeros(8) == [0x50, 0x4b, 1, 2, 20, 0, 20, 0, 0, 0, 0, 0, 0, 0, 0, 0];
    var r20 := Put(r8, 16, LE32(Sum(f)));
    var r24 := Put(r20, 20, LE32(|f.content|));
    var r28 := Put(r24, 24, LE32(|f.content|));
    PutNext(r20, LE32(|f.content|));
    PutNext(r24, LE32(|f.content|));
    PutNext(r28, LE16(|f.path|));
    assert Zeros(12) == [0, 0, 0, 0, 0, 0, 0, 0, 0, 0, 0, 0];
  }

  /** Section 4.3.16: a single disk, the count twice, the directory's size and place, no comment. */
  lemma EndRecordBytes(count: nat, directorySize: nat, offset: nat)
    requires count <= MAX16 && directorySize <= MAX32 && offset <= MAX32
    ensures EndRecord(count, directorySize, offset) == [0x50, 0x4b, 5, 6, 0, 0, 0, 0]
      + LE16(count) + LE16(count) + LE32(directorySize) + LE32(offset) + [0, 0]
  {
    LiteralFields();
    hide LE32, LE16;
    var r4 := Put([], 0, LE32(END_SIGNATURE));
    assert r4 == [0x50, 0x4b, 5, 6];
    assert r4 + Zeros(4) == [0x50, 0x4b, 5, 6, 0, 0, 0, 0];
    var r10 := Put(r4, 8, LE16(count));
    var r12 := Put(r10, 10, LE16(count));
    var r16 := Put(r12, 12, LE32(directorySize));
    PutNext(r10, LE16(count));
    PutNext(r12, LE32(directorySize));
    PutNext(r16, LE32(offset));
    assert Zeros(2) == [0, 0];
  }

  // ---- The writer ----

  function Flatten(buffers: seq<seq<byte>>): seq<byte> {
    if buffers == [] then [] else Flatten(buffers[..|buffers| - 1]) + buffers[|buffers| - 1]
  }

  lemma {:induction false} FlattenPush(buffers: seq<seq<byte>>, b: seq<byte>)
    ensures Flatten(buffers + [b]) == Flatten(buffers) + b
  {
    assert (buffers + [b])[..|buffers|] == buffers;
  }

  lemma {:induction false} FlattenConcat(a: seq<seq<byte>>, b: seq<seq<byte>>)
    ensures Flatten(a + b) == Flatten(a) + Flatten(b)
  {
    if b == [] {
      assert a + b == a && Flatten(a) + [] == Flatten(a);
    } else {
      hide Flatten;
      var init, last := b[..|b| - 1], b[|b| - 1];
      FlattenConcat(a, init);
      FlattenPush(a + init, last);
      FlattenPush(init, last);
      assert b == init + [last] && a + b == (a + init) + [last];
      assert (Flatten(a) + Flatten(init)) + last == Flatten(a) + (Flatten(init) + last);
    }
  }

  method Alloc(n: nat) returns (buffer: array<byte>)
    ensures fresh(buffer) && buffer[..] == Zeros(n)
  {
    buffer := new byte[n](_ => 0);
  }

  method BuildLocalHeader(f: File, crc: nat) returns (result: Result<seq<byte>, Error>)
    requires crc == Sum(f)
    ensures FileFits(f) <==> result.Ok?
    ensures result.Ok? ==> result.value == LocalHeader(f)
  {
    hide LE16, LE32, Put, Sum;
    var size, length := |f.content|, |f.path|;
    var header := Alloc(30);
    var ok := WriteUInt32LE(header, LOCAL_SIGNATURE, 0, []);
    ghost var r := Put([], 0, LE32(LOCAL_SIGNATURE));
    ok := WriteUInt16LE(header, 20, 4, r);
    r := Put(r, 4, LE16(20));
    ok := WriteUInt32LE(header, crc, 14, r);
    r := Put(r, 14, LE32(crc));
    ok := WriteUInt32LE(header, size, 18, r);
    if !ok { return Err(OutOfRange); }
    r := Put(r, 18, LE32(size));
    ok := WriteUInt32LE(header, size, 22, r);
    r := Put(r, 22, LE32(size));
    ok := WriteUInt16LE(header, length, 26, r);
    if !ok { return Err(OutOfRange); }
    return Ok(header[..]);
  }

  method BuildCentralHeader(f: File, crc: nat, offset: nat) returns (result: Result<seq<byte>, Error>)
    requires crc == Sum(f) && FileFits(f)
    ensures offset <= MAX32 <==> result.Ok?
    ensures result.Ok? ==> result.value == CentralHeader(f, offset)
  {
    hide LE16, LE32, Put, Sum;
    var size, length := |f.content|, |f.path|;
    var central := Alloc(46);
    var ok := WriteUInt32LE(central, CENTRAL_SIGNATURE, 0, []);
    ghost var r := Put([], 0, LE32(CENTRAL_SIGNATURE));
    ok := WriteUInt16LE(central, 20, 4, r);
    r := Put(r, 4, LE16(20));
    ok := WriteUInt16LE(central, 20, 6, r);
    r := Put(r, 6, LE16(20));
    ok := WriteUInt32LE(central, crc, 16, r);
    r := Put(r, 16, LE32(crc));
    ok := WriteUInt32LE(central, size, 20, r);
    r := Put(r, 20, LE32(size));
    ok := WriteUInt32LE(central, size, 24, r);
    r := Put(r, 24, LE32(size));
    ok := WriteUInt16LE(central, length, 28, r);
    r := Put(r, 28, LE16(length));
    ok := WriteUInt32LE(central, offset, 42, r);
    if !ok { return Err(OutOfRange); }
    assert Zeros(0) == [];
    return Ok(central[..]);
  }

  method BuildEndRecord(count: nat, directorySize: nat, offset: nat) returns (result: Result<seq<byte>, Error>)
    ensures count <= MAX16 && directorySize <= MAX32 && offset <= MAX32 <==> result.Ok?
    ensures result.Ok? ==> result.value == EndRecord(count, directorySize, offset)
  {
    hide LE16, LE32, Put;
    var end := Alloc(22);
    var ok := WriteUInt32LE(end, END_SIGNATURE, 0, []);
    ghost var r := Put([], 0, LE32(END_SIGNATURE));
    ok := WriteUInt16LE(end, count, 8, r);
    if !ok { return Err(OutOfRange); }
    r := Put(r, 8, LE16(count));
    ok := WriteUInt16LE(end, count, 10, r);
    r := Put(r, 10, LE16(count));
    ok := WriteUInt32LE(end, directorySize, 12, r);
    if !ok { return Err(OutOfRange); }
    r := Put(r, 12, LE32(directorySize));
    ok := WriteUInt32LE(end, offset, 16, r);
    if !ok { return Err(OutOfRange); }
    return Ok(end[..]);
  }

  function TotalLength(buffers: seq<seq<byte>>): (n: nat)
    ensures n == |Flatten(buffers)|
  {
    if buffers == [] then 0 else TotalLength(buffers[..|buffers| - 1]) + |buffers[|buffers| - 1]|
  }

  lemma {:induction false} ShorterPrefixFits(files: seq<File>, k: nat, n: nat)
    requires k <= n <= |files| && PrefixFits(files, n)
    ensures PrefixFits(files, k)
    decreases n
  {
    if k < n {
      ShorterPrefixFits(files, k, n - 1);
    }
  }

  lemma MisfitSpoilsAll(files: seq<File>, k: nat)
    requires k < |files| && !PrefixFits(files, k + 1)
    ensures !Fits(files)
  {
    if Fits(files) {
      ShorterPrefixFits(files, k + 1, |files|);
    }
  }

  /** The regions one file later. */
  lemma OneMoreFile(files: seq<File>, k: nat)
    requires k < |files| && PrefixFits(files, k + 1)
    ensures Locals(files, k + 1) == Locals(files, k) + LocalHeader(files[k]) + files[k].path + files[k].content
    ensures Directory(files, k + 1)
         == Directory(files, k) + CentralHeader(files[k], LocalSize(files, k)) + files[k].path
  {
    hide LocalHeader, CentralHeader;
    var h, f := LocalHeader(files[k]), files[k];
    assert Locals(files, k) + (h + f.path + f.content) == Locals(files, k) + h + f.path + f.content;
    var c := CentralHeader(f, LocalSize(files, k));
    assert Directory(files, k) + (c + f.path) == Directory(files, k) + c + f.path;
  }

  /** The two headers of one file, both computed from the same checksum. */
  method BuildHeaders(f: File, offset: nat) returns (result: Result<(seq<byte>, seq<byte>), Error>)
    ensures FileFits(f) && offset <= MAX32 <==> result.Ok?
    ensures result.Ok? ==> result.value == (LocalHeader(f), CentralHeader(f, offset))
  {
    var data := new byte[|f.content|](k requires 0 <= k < |f.content| => f.content[k]);
    assert data[..] == f.content;
    var crc := Crc32.Crc32(data);
    var header := BuildLocalHeader(f, crc);
    if header.Err? {
      return Err(OutOfRange);
    }
    var central := BuildCentralHeader(f, crc, offset);
    if central.Err? {
      return Err(OutOfRange);
    }
    return Ok((header.value, central.value));
  }

  lemma {:induction false} FlattenPushTwo(buffers: seq<seq<byte>>, b: seq<byte>, c: seq<byte>)
    ensures Flatten(buffers + [b, c]) == Flatten(buffers) + b + c
  {
    FlattenPush(buffers, b);
    FlattenPush(buffers + [b], c);
    assert buffers + [b, c] == buffers + [b] + [c];
  }

  lemma {:induction false} FlattenPushThree(buffers: seq<seq<byte>>, b: seq<byte>, c: seq<byte>, d: seq<byte>)
    ensures Flatten(buffers + [b, c, d]) == Flatten(buffers) + b + c + d
  {
    FlattenPushTwo(buffers, b, c);
    FlattenPush(buffers + [b, c], d);
    assert buffers + [b, c, d] == buffers + [b, c] + [d];
  }

  /** Writes the archive exactly when every field fits, and then writes exactly `Archive`. */
  method Export(files: seq<File>) returns (result: Result<seq<byte>, Error>)
    ensures Fits(files) <==> result.Ok?
    ensures result.Ok? ==> result.value == Archive(files)
  {
    hide LocalHeader, CentralHeader, EndRecord;
    var parts: seq<seq<byte>>, directory: seq<seq<byte>>, offset := [], [], 0;
    for i := 0 to |files|
      invariant PrefixFits(files, i)
      invariant Flatten(parts) == Locals(files, i)
      invariant Flatten(directory) == Directory(files, i)
      invariant offset == LocalSize(files, i)
    {
      var path, content := files[i].path, files[i].content;
      var headers := BuildHeaders(files[i], offset);
      if headers.Err? {
        MisfitSpoilsAll(files, i);
        return Err(OutOfRange);
      }
      var (header, central) := headers.value;
      OneMoreFile(files, i);
      FlattenPushThree(parts, header, path, content);
      FlattenPushTwo(directory, central, path);
      parts := parts + [header, path, content];
      directory := directory + [central, path];
      offset := offset + |header| + |path| + |content|;
    }
    var end := BuildEndRecord(|files|, TotalLength(directory), offset);
    if end.Err? {
      return Err(OutOfRange);
    }
    FlattenConcat(parts, directory);
    FlattenPush(parts + directory, end.value);
    return Ok(Flatten(parts + directory + [end.value]));
  }

  // ---- The reader ----

  datatype Entry = Entry(path: seq<byte>, sum: nat, size: nat, offset: nat, next: nat)

  /** One central directory header at `pos`: stored data only, as section 4.3.12 lays it out. */
  function ReadCentral(a: seq<byte>, pos: nat): Option<Entry> {
    if |a| < pos + 46 || U32(a, pos) != CENTRAL_SIGNATURE || U16(a, pos + 10) != 0
      || U32(a, pos + 20) != U32(a, pos + 24) || |a| < pos + 46 + U16(a, pos + 28) then None
    else
      var length := U16(a, pos + 28);
      Some(Entry(a[pos + 46..pos + 46 + length], U32(a, pos + 16), U32(a, pos + 24), U32(a, pos + 42),
        pos + 46 + length + U16(a, pos + 30) + U16(a, pos + 32)))
  }

  /**
   The local record a directory entry points to: its header must repeat the entry's checksum and sizes,
   and its content must have that checksum. All field values are plain values, none marks a larger one.
  */
  function ReadLocal(a: seq<byte>, e: Entry): Option<File> {
    var pos := e.offset;
    if |a| < pos + 30 || U32(a, pos) != LOCAL_SIGNATURE
      || U32(a, pos + 14) != e.sum || U32(a, pos + 18) != e.size || U32(a, pos + 22) != e.size then None
    else
      var name := pos + 30;
      var start := name + U16(a, pos + 26) + U16(a, pos + 28);
      if |a| < start + e.size || a[name..name + U16(a, pos + 26)] != e.path then None
      else
        var content := a[start..start + e.size];
        if Crc32.Checksum(content) == e.sum then Some(File(e.path, content)) else None
  }

  function ReadEntries(a: seq<byte>, pos: nat, count: nat): Option<seq<File>>
    decreases count
  {
    if count == 0 then Some([])
    else match ReadCentral(a, pos)
      case None => None
      case Some(entry) =>
        match ReadLocal(a, entry)
        case None => None
        case Some(file) =>
          match ReadEntries(a, entry.next, count - 1)
          case None => None
          case Some(rest) => Some([file] + rest)
  }

  /** From the end record to the central directory to each local record. */
  function ReadArchive(a: seq<byte>): Option<seq<File>> {
    if |a| < 22 then None
    else
      var end := |a| - 22;
      if U32(a, end) != END_SIGNATURE || U16(a, end + 20) != 0
        || U16(a, end + 8) != U16(a, end + 10) || U32(a, end + 16) + U32(a, end + 12) != end then None
      else ReadEntries(a, U32(a, end + 16), U16(a, end + 10))
  }

  // ---- The round trip ----

  /** The bytes `x` lie in `a` at `pos`. */
  predicate Holds(a: seq<byte>, pos: nat, x: seq<byte>) {
    pos + |x| <= |a| && a[pos..pos + |x|] == x
  }

  lemma HeldFields(a: seq<byte>, pos: nat, x: seq<byte>, at: nat)
    requires Holds(a, pos, x)
    ensures at + 2 <= |x| ==> U16(a, pos + at) == U16(x, at)
    ensures at + 4 <= |x| ==> U32(a, pos + at) == U32(x, at)
  {
    assert forall k :: pos <= k < pos + |x| ==> a[k] == a[pos..pos + |x|][k - pos];
  }

  lemma PutThenRead32(r: seq<byte>, at: nat, n: nat)
    requires |r| <= at && n <= MAX32
    ensures U32(Put(r, at, LE32(n)), at) == n
  {
    ReadBack32(n);
    var p := Put(r, at, LE32(n));
    assert p[at..] == LE32(n);
    assert forall k :: 0 <= k < 4 ==> p[at + k] == p[at..][k];
  }

  lemma PutThenRead16(r: seq<byte>, at: nat, n: nat)
    requires |r| <= at && n <= MAX16
    ensures U16(Put(r, at, LE16(n)), at) == n
  {
    var p := Put(r, at, LE16(n));
    assert p[at..] == LE16(n);
    assert forall k :: 0 <= k < 2 ==> p[at + k] == p[at..][k];
  }

  lemma PutLeavesGap(r: seq<byte>, at: nat, field: seq<byte>, gap: nat)
    requires |r| <= gap && gap + 2 <= at
    ensures U16(Put(r, at, field), gap) == 0
  {
  }

  lemma PrefixFields(x: seq<byte>, y: seq<byte>, at: nat)
    requires x <= y
    ensures at + 2 <= |x| ==> U16(y, at) == U16(x, at)
    ensures at + 4 <= |x| ==> U32(y, at) == U32(x, at)
  {
  }

  lemma LocalFields(f: File)
    requires FileFits(f)
    ensures var h := LocalHeader(f);
            U32(h, 0) == LOCAL_SIGNATURE && U16(h, 26) == |f.path| && U16(h, 28) == 0 &&
            U32(h, 14) == Sum(f) && U32(h, 18) == |f.content| && U32(h, 22) == |f.content|
  {
    var r0 := Put([], 0, LE32(LOCAL_SIGNATURE));
    var r1 := Put(r0, 4, LE16(20));
    var r2 := Put(r1, 14, LE32(Sum(f)));
    var r3 := Put(r2, 18, LE32(|f.content|));
    var r4 := Put(r3, 22, LE32(|f.content|));
    var r5 := Put(r4, 26, LE16(|f.path|));
    PutThenRead32([], 0, LOCAL_SIGNATURE);
    PutThenRead32(r1, 14, Sum(f));
    PutThenRead32(r2, 18, |f.content|);
    PutThenRead32(r3, 22, |f.content|);
    PutThenRead16(r4, 26, |f.path|);
    assert r0 <= r1 <= r2 <= r3 <= r4 <= r5 <= LocalHeader(f);
    PrefixFields(r0, LocalHeader(f), 0);
    PrefixFields(r2, LocalHeader(f), 14);
    PrefixFields(r3, LocalHeader(f), 18);
    PrefixFields(r4, LocalHeader(f), 22);
    PrefixFields(r5, LocalHeader(f), 26);
  }

  lemma CentralSizes(f: File, offset: nat)
    requires FileFits(f) && offset <= MAX32
    ensures var h := CentralHeader(f, offset);
            U32(h, 0) == CENTRAL_SIGNATURE && U16(h, 10) == 0 && U32(h, 16) == Sum(f) &&
            U32(h, 20) == |f.content| && U32(h, 24) == |f.content|
  {
    var r0 := Put([], 0, LE32(CENTRAL_SIGNATURE));
    var r1 := Put(r0, 4, LE16(20));
    var r2 := Put(r1, 6, LE16(20));
    var r3 := Put(r2, 16, LE32(Sum(f)));
    var r4 := Put(r3, 20, LE32(|f.content|));
    var r5 := Put(r4, 24, LE32(|f.content|));
    PutThenRead32([], 0, CENTRAL_SIGNATURE);
    PutThenRead32(r2, 16, Sum(f));
    PutThenRead32(r3, 20, |f.content|);
    PutThenRead32(r4, 24, |f.content|);
    PutLeavesGap(r2, 16, LE32(Sum(f)), 10);
    assert r0 <= r1 <= r2 <= r3 <= r4 <= r5 <= CentralHeader(f, offset);
    PrefixFields(r0, CentralHeader(f, offset), 0);
    PrefixFields(r3, CentralHeader(f, offset), 10);
    PrefixFields(r3, CentralHeader(f, offset), 16);
    PrefixFields(r4, CentralHeader(f, offset), 20);
    PrefixFields(r5, CentralHeader(f, offset), 24);
  }

  lemma CentralLengths(f: File, offset: nat)
    requires FileFits(f) && offset <= MAX32
    ensures var h := CentralHeader(f, offset);
            U16(h, 28) == |f.path| && U16(h, 30) == 0 && U16(h, 32) == 0 && U32(h, 42) == offset
  {
    var r0 := Put([], 0, LE32(CENTRAL_SIGNATURE));
    var r1 := Put(r0, 4, LE16(20));
    var r2 := Put(r1, 6, LE16(20));
    var r3 := Put(r2, 16, LE32(Sum(f)));
    var r4 := Put(r3, 20, LE32(|f.content|));
    var r5 := Put(r4, 24, LE32(|f.content|));
    var r6 := Put(r5, 28, LE16(|f.path|));
    PutThenRead16(r5, 28, |f.path|);
    PutThenRead32(r6, 42, offset);
    PutLeavesGap(r6, 42, LE32(offset), 30);
    PutLeavesGap(r6, 42, LE32(offset), 32);
    PrefixFields(r6, CentralHeader(f, offset), 28);
  }

  lemma EndFields(count: nat, size: nat, offset: nat)
    requires count <= MAX16 && size <= MAX32 && offset <= MAX32
    ensures var h := EndRecord(count, size, offset);
            U32(h, 0) == END_SIGNATURE && U16(h, 8) == count && U16(h, 10) == count && U32(h, 12) == size &&
            U32(h, 16) == offset && U16(h, 20) == 0
  {
    var r0 := Put([], 0, LE32(END_SIGNATURE));
    var r1 := Put(r0, 8, LE16(count));
    var r2 := Put(r1, 10, LE16(count));
    var r3 := Put(r2, 12, LE32(size));
    var r4 := Put(r3, 16, LE32(offset));
    var h := EndRecord(count, size, offset);
    PutThenRead32([], 0, END_SIGNATURE);
    PutThenRead16(r0, 8, count);
    PutThenRead16(r1, 10, count);
    PutThenRead32(r2, 12, size);
    PutThenRead32(r3, 16, offset);
    assert r0 <= r1 <= r2 <= r3 <= r4 <= h;
    PrefixFields(r0, h, 0);
    PrefixFields(r1, h, 8);
    PrefixFields(r2, h, 10);
    PrefixFields(r3, h, 12);
    PrefixFields(r4, h, 16);
  }

  /** File k's local record lies where the sizes before it say. */
  lemma {:induction false} LocalRecordAt(files: seq<File>, k: nat, n: nat)
    requires k < n <= |files| && PrefixFits(files, n)
    ensures PrefixFits(files, k) && FileFits(files[k]) && LocalSize(files, k) <= MAX32
    ensures Holds(Locals(files, n), LocalSize(files, k), LocalRecord(files[k]))
    decreases n
  {
    hide LocalRecord;
    if k < n - 1 {
      LocalRecordAt(files, k, n - 1);
      HoldsInPrefix(Locals(files, n - 1), Locals(files, n), LocalSize(files, k), LocalRecord(files[k]));
    }
  }

  /** File k's directory entry likewise, holding the offset of its local record. */
  lemma {:induction false} CentralRecordAt(files: seq<File>, k: nat, n: nat)
    requires k < n <= |files| && PrefixFits(files, n)
    requires FileFits(files[k]) && LocalSize(files, k) <= MAX32
    ensures Holds(Directory(files, n), DirectorySize(files, k), CentralRecord(files[k], LocalSize(files, k)))
    decreases n
  {
    hide CentralRecord;
    if k < n - 1 {
      CentralRecordAt(files, k, n - 1);
      var record := CentralRecord(files[k], LocalSize(files, k));
      HoldsInPrefix(Directory(files, n - 1), Directory(files, n), DirectorySize(files, k), record);
    }
  }

  lemma HoldsInPrefix(a: seq<byte>, b: seq<byte>, pos: nat, x: seq<byte>)
    requires Holds(a, pos, x) && a <= b
    ensures Holds(b, pos, x)
  {
    assert b[pos..pos + |x|] == b[..|a|][pos..pos + |x|];
  }

  lemma HoldsAfter(a: seq<byte>, front: seq<byte>, pos: nat, x: seq<byte>)
    requires Holds(a, pos, x)
    ensures Holds(front + a, |front| + pos, x)
  {
    assert (front + a)[|front| + pos..|front| + pos + |x|] == a[pos..pos + |x|];
  }

  lemma HoldsParts(a: seq<byte>, pos: nat, x: seq<byte>, y: seq<byte>)
    requires Holds(a, pos, x + y)
    ensures Holds(a, pos, x) && Holds(a, pos + |x|, y)
  {
    assert (x + y)[..|x|] == x && (x + y)[|x|..] == y;
    assert a[pos..pos + |x|] == a[pos..pos + |x + y|][..|x|];
    assert a[pos + |x|..pos + |x| + |y|] == a[pos..pos + |x + y|][|x|..];
  }

  /** What the reader makes of any directory entry with these fields. */
  lemma ReadsEntry(a: seq<byte>, pos: nat, h: seq<byte>, path: seq<byte>, sum: nat, size: nat, offset: nat)
    requires |h| == 46 && Holds(a, pos, h + path)
    requires U32(h, 0) == CENTRAL_SIGNATURE && U16(h, 10) == 0 && U32(h, 16) == sum
    requires U32(h, 20) == size && U32(h, 24) == size && U16(h, 28) == |path|
    requires U16(h, 30) == 0 && U16(h, 32) == 0 && U32(h, 42) == offset
    ensures ReadCentral(a, pos) == Some(Entry(path, sum, size, offset, pos + 46 + |path|))
  {
    HoldsParts(a, pos, h, path);
    HeldFields(a, pos, h, 0);
    HeldFields(a, pos, h, 10);
    HeldFields(a, pos, h, 16);
    HeldFields(a, pos, h, 20);
    HeldFields(a, pos, h, 24);
    HeldFields(a, pos, h, 28);
    HeldFields(a, pos, h, 30);
    HeldFields(a, pos, h, 32);
    HeldFields(a, pos, h, 42);
  }

  /** What the reader makes of a local record that agrees with its directory entry. */
  lemma ReadsRecord(a: seq<byte>, e: Entry, h: seq<byte>, content: seq<byte>)
    requires |h| == 30 && Holds(a, e.offset, h + e.path + content)
    requires U32(h, 0) == LOCAL_SIGNATURE && U16(h, 26) == |e.path| && U16(h, 28) == 0
    requires U32(h, 14) == e.sum && U32(h, 18) == e.size && U32(h, 22) == e.size
    requires e.size == |content| && e.sum == Crc32.Checksum(content)
    ensures ReadLocal(a, e) == Some(File(e.path, content))
  {
    hide Crc32.Checksum, U16, U32;
    HoldsParts(a, e.offset, h + e.path, content);
    HoldsParts(a, e.offset, h, e.path);
    HeldFields(a, e.offset, h, 0);
    HeldFields(a, e.offset, h, 14);
    HeldFields(a, e.offset, h, 18);
    HeldFields(a, e.offset, h, 22);
    HeldFields(a, e.offset, h, 26);
    HeldFields(a, e.offset, h, 28);
  }

  /** What the reader makes of an end record with these fields. */
  lemma {:induction false} ReadsEnd(a: seq<byte>, front: seq<byte>, h: seq<byte>, count: nat, size: nat, offset: nat)
    requires |h| == 22 && a == front + h && size + offset == |front|
    requires U32(h, 0) == END_SIGNATURE && U16(h, 8) == count && U16(h, 10) == count
    requires U32(h, 12) == size && U32(h, 16) == offset && U16(h, 20) == 0
    ensures ReadArchive(a) == ReadEntries(a, offset, count)
  {
    hide ReadEntries;
    assert Holds(a, |front|, h);
    HeldFields(a, |front|, h, 0);
    HeldFields(a, |front|, h, 8);
    HeldFields(a, |front|, h, 10);
    HeldFields(a, |front|, h, 12);
    HeldFields(a, |front|, h, 16);
    HeldFields(a, |front|, h, 20);
  }

  /** Both records of file k, in the whole archive. */
  lemma {:induction false} RecordsInArchive(files: seq<File>, k: nat)
    requires Fits(files) && k < |files|
    ensures FileFits(files[k]) && LocalSize(files, k) <= MAX32
    ensures Holds(Archive(files), LocalSize(files, k), LocalRecord(files[k]))
    ensures Holds(Archive(files), LocalSize(files, |files|) + DirectorySize(files, k),
                  CentralRecord(files[k], LocalSize(files, k)))
  {
    hide LocalRecord, CentralRecord, EndRecord;
    var n := |files|;
    LocalRecordAt(files, k, n);
    CentralRecordAt(files, k, n);
    var record, entry := LocalRecord(files[k]), CentralRecord(files[k], LocalSize(files, k));
    var locals, directory, a := Locals(files, n), Directory(files, n), Archive(files);
    HoldsInPrefix(locals, a, LocalSize(files, k), record);
    HoldsAfter(directory, locals, DirectorySize(files, k), entry);
    HoldsInPrefix(locals + directory, a, LocalSize(files, n) + DirectorySize(files, k), entry);
  }

  /** The directory entry of one file, with the place where the next entry starts. */
  function EntryOf(f: File, offset: nat, pos: nat): Entry {
    Entry(f.path, Sum(f), |f.content|, offset, pos + 46 + |f.path|)
  }

  lemma ReadsOne(a: seq<byte>, pos: nat, f: File, offset: nat)
    requires FileFits(f) && offset <= MAX32
    requires Holds(a, pos, CentralRecord(f, offset)) && Holds(a, offset, LocalRecord(f))
    ensures ReadCentral(a, pos) == Some(EntryOf(f, offset, pos))
    ensures ReadLocal(a, EntryOf(f, offset, pos)) == Some(f)
  {
    hide LocalHeader, CentralHeader, Crc32.Checksum, ReadCentral, ReadLocal, Holds;
    CentralSizes(f, offset);
    CentralLengths(f, offset);
    LocalFields(f);
    ReadsEntry(a, pos, CentralHeader(f, offset), f.path, Sum(f), |f.content|, offset);
    ReadsRecord(a, EntryOf(f, offset, pos), LocalHeader(f), f.content);
  }

  lemma {:induction false} ReadsOneMore(a: seq<byte>, pos: nat, count: nat, e: Entry, f: File, rest: seq<File>)
    requires ReadCentral(a, pos) == Some(e) && ReadLocal(a, e) == Some(f)
    requires ReadEntries(a, e.next, count) == Some(rest)
    ensures ReadEntries(a, pos, count + 1) == Some([f] + rest)
  {
    hide ReadCentral, ReadLocal;
  }

  /** Reading from the directory entry of file k on. */
  lemma {:induction false} ReadsFrom(files: seq<File>, k: nat)
    requires Fits(files) && k <= |files|
    ensures ReadEntries(Archive(files), LocalSize(files, |files|) + DirectorySize(files, k), |files| - k)
         == Some(files[k..])
    decreases |files| - k
  {
    hide Archive, ReadCentral, ReadLocal, Sum;
    if k < |files| {
      hide ReadEntries, LocalRecord, CentralRecord, Holds;
      RecordsInArchive(files, k);
      var f, offset := files[k], LocalSize(files, k);
      var pos := LocalSize(files, |files|) + DirectorySize(files, k);
      ReadsOne(Archive(files), pos, f, offset);
      ReadsFrom(files, k + 1);
      ReadsOneMore(Archive(files), pos, |files| - (k + 1), EntryOf(f, offset, pos), f, files[k + 1..]);
      assert files[k..] == [f] + files[k + 1..];
    } else {
      assert files[k..] == [];
    }
  }

  /** Reading an exported archive gives back exactly the files written, in order. */
  lemma RoundTrip(files: seq<File>)
    requires Fits(files)
    ensures ReadArchive(Archive(files)) == Some(files)
  {
    hide ReadArchive, ReadEntries, EndRecord, Locals, Directory;
    var n := |files|;
    var size, offset := DirectorySize(files, n), LocalSize(files, n);
    EndFields(n, size, offset);
    ReadsEnd(Archive(files), Locals(files, n) + Directory(files, n), EndRecord(n, size, offset), n, size, offset);
    ReadsFrom(files, 0);
    assert files[0..] == files;
  }
}
