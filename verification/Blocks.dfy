/** Block addresses: the READ(10)/WRITE(10) command block, and block transfers on a backing file. */
module Blocks {
  import opened Base

  const ULONG_SIZE: nat := 0x1_0000_0000
  const BLOCK_SIZE: nat := 512
  const BUFFER_SIZE: nat := 256 * 1024
  const SCSIOP_READ: Byte := 0x28
  const SCSIOP_WRITE: Byte := 0x2A

  /** The fields of a command block that the driver hands to the service. */
  datatype Extent = Extent(lba: nat, blocks: nat)

  /** A ULONG from its four bytes, `byte0` being the least significant one. */
  function Ulong(byte3: nat, byte2: nat, byte1: nat, byte0: nat): nat {
    0x100_0000 * byte3 + 0x1_0000 * byte2 + 0x100 * byte1 + byte0
  }

  function Ushort(byte1: nat, byte0: nat): nat {
    0x100 * byte1 + byte0
  }

  /** Bytes 2..5 hold the logical block address and bytes 7..8 the transfer length. */
  function DecodeCdb(cdb: seq<Byte>): Extent
    requires |cdb| == 10
  {
    Extent(Ulong(cdb[2], cdb[3], cdb[4], cdb[5]), Ushort(cdb[7], cdb[8]))
  }

  /** Big-endian encoding of `v` in `n` bytes, as SBC-2 sections 5.6 and 5.25 lay fields out. */
  function BigEndian(v: nat, n: nat): (r: seq<Byte>)
    ensures |r| == n
  {
    if n == 0 then [] else BigEndian(v / 0x100, n - 1) + [v % 0x100]
  }

  function EncodeCdb(op: Byte, extent: Extent): (cdb: seq<Byte>)
    ensures |cdb| == 10
  {
    [op, 0] + BigEndian(extent.lba, 4) + [0] + BigEndian(extent.blocks, 2) + [0]
  }

  lemma BigEndian4(v: nat)
    ensures BigEndian(v, 4) == [v / 0x100 / 0x100 / 0x100 % 0x100, v / 0x100 / 0x100 % 0x100, v / 0x100 % 0x100, v % 0x100]
  {
    var a := v / 0x100;
    var b := a / 0x100;
    var c := b / 0x100;
    assert BigEndian(c, 1) == [c % 0x100];
    assert BigEndian(b, 2) == [c % 0x100, b % 0x100];
    assert BigEndian(a, 3) == [c % 0x100, b % 0x100, a % 0x100];
  }

  lemma BigEndian2(v: nat)
    ensures BigEndian(v, 2) == [v / 0x100 % 0x100, v % 0x100]
  {
    assert BigEndian(v / 0x100, 1) == [v / 0x100 % 0x100];
  }

  /** Decoding inverts the big-endian encoding for every 32-bit address and 16-bit count. */
  lemma DecodeInvertsEncode(op: Byte, extent: Extent)
    requires extent.lba < ULONG_SIZE && extent.blocks < 0x1_0000
    ensures DecodeCdb(EncodeCdb(op, extent)) == extent
    ensures EncodeCdb(op, extent)[0] == op
  {
    BigEndian4(extent.lba);
    BigEndian2(extent.blocks);
  }

  lemma SplitByte(q: nat, r: nat)
    requires r < 0x100
    ensures (0x100 * q + r) / 0x100 == q && (0x100 * q + r) % 0x100 == r
  {
  }

  /** The four bytes of a ULONG come back by repeated division. */
  lemma UlongBytes(byte3: nat, byte2: nat, byte1: nat, byte0: nat)
    requires byte3 < 0x100 && byte2 < 0x100 && byte1 < 0x100 && byte0 < 0x100
    ensures var v := Ulong(byte3, byte2, byte1, byte0);
            && v < ULONG_SIZE && v % 0x100 == byte0 && v / 0x100 % 0x100 == byte1
            && v / 0x100 / 0x100 % 0x100 == byte2 && v / 0x100 / 0x100 / 0x100 % 0x100 == byte3
  {
    var high := Ushort(byte3, byte2);
    var upper := Ulong(0, byte3, byte2, byte1);
    SplitByte(upper, byte0);
    SplitByte(high, byte1);
    SplitByte(byte3, byte2);
    SplitByte(0, byte3);
    assert Ulong(byte3, byte2, byte1, byte0) == 0x100 * upper + byte0;
    assert upper == 0x100 * high + byte1;
  }

  /** The other direction: re-encoding what was decoded restores all six significant bytes, so nothing is lost. */
  lemma EncodeInvertsDecode(cdb: seq<Byte>)
    requires |cdb| == 10
    ensures var e := DecodeCdb(cdb);
            && e.lba < ULONG_SIZE && e.blocks < 0x1_0000
            && EncodeCdb(cdb[0], e)[2..6] == cdb[2..6] && EncodeCdb(cdb[0], e)[7..9] == cdb[7..9]
  {
    var e := DecodeCdb(cdb);
    BigEndian4(e.lba);
    BigEndian2(e.blocks);
    UlongBytes(cdb[2], cdb[3], cdb[4], cdb[5]);
    SplitByte(cdb[7], cdb[8]);
    SplitByte(0, cdb[7]);
    assert cdb[2..6] == [cdb[2], cdb[3], cdb[4], cdb[5]];
    assert cdb[7..9] == [cdb[7], cdb[8]];
  }

  /** The layout on literal command blocks: most significant byte first, the address in bytes 2 to 5 and the count in
      bytes 7 and 8. */
  lemma LiteralCommandBlocks()
    ensures DecodeCdb([0x28, 0, 0x12, 0x34, 0x56, 0x78, 0, 0x9A, 0xBC, 0]) == Extent(0x1234_5678, 0x9ABC)
    ensures DecodeCdb([0x2A, 0, 0, 0, 0, 1, 0, 2, 0, 0]) == Extent(1, 0x200)
  {
  }

  /** Byte offset of a transfer: a 64-bit product (fileplugin.cpp, line 93). */
  function Offset(lba: nat, blockSize: nat): nat {
    lba * blockSize
  }

  /** Byte length of a transfer: a 32-bit product, which would wrap (fileplugin.cpp, line 92). */
  function Length(blocks: nat, blockSize: nat): (n: nat)
    ensures n < ULONG_SIZE
    ensures blocks * blockSize < ULONG_SIZE ==> n == blocks * blockSize
  {
    blocks * blockSize % ULONG_SIZE
  }

  /** The file-size test of `Init`: the upper half of the 64-bit size is below 512. */
  predicate SizeAccepted(size: nat) {
    size / ULONG_SIZE < 512
  }

  /** The block count `Init` stores: the quotient cast to 32 bits. */
  function StoredBlocks(size: nat): nat {
    size / BLOCK_SIZE % ULONG_SIZE
  }

  /** The test accepts exactly the sizes below 2^41, and they are exactly the sizes whose
      block count survives the cast to 32 bits. */
  lemma SizeTestIsExact(size: nat)
    ensures SizeAccepted(size) <==> size < 0x200_0000_0000
    ensures SizeAccepted(size) <==> StoredBlocks(size) == size / BLOCK_SIZE
  {
    assert size / ULONG_SIZE < 512 <==> size < 512 * ULONG_SIZE;
    if StoredBlocks(size) == size / BLOCK_SIZE {
      assert size / BLOCK_SIZE < ULONG_SIZE;
    }
  }

  /** A transfer that stays below the stored block count stays inside an accepted file, and its 32-bit length is
      the true length. */
  lemma InRangeStaysInFile(size: nat, lba: nat, blocks: nat)
    requires SizeAccepted(size) && blocks < 0x1_0000
    requires lba + blocks <= StoredBlocks(size)
    ensures Length(blocks, BLOCK_SIZE) == blocks * BLOCK_SIZE
    ensures Offset(lba, BLOCK_SIZE) + Length(blocks, BLOCK_SIZE) <= size < 0x8000_0000_0000_0000
  {
    SizeTestIsExact(size);
    assert BLOCK_SIZE * (size / BLOCK_SIZE) <= size;
  }

  function Min(a: nat, b: nat): nat {
    if a < b then a else b
  }

  /** What ReadFile returns at `offset` for `n` requested bytes: short or empty past the end of the file. */
  function ReadAt(file: seq<Byte>, offset: nat, n: nat): (r: seq<Byte>)
    ensures |r| <= n
    ensures offset + n <= |file| ==> |r| == n
  {
    if offset >= |file| then [] else if offset + n <= |file| then file[offset..offset + n] else file[offset..]
  }

  /** Byte by byte, wherever the extent lies: as many bytes as are asked for and left after the offset, and these. */
  lemma ReadAtByte(file: seq<Byte>, offset: nat, n: nat)
    ensures |ReadAt(file, offset, n)| == Min(n, if offset < |file| then |file| - offset else 0)
    ensures forall k :: 0 <= k < |ReadAt(file, offset, n)| ==> ReadAt(file, offset, n)[k] == file[offset + k]
  {
  }

  function Zeros(n: nat): (r: seq<Byte>)
    ensures |r| == n
  {
    seq(n, _ => 0)
  }

  /** What WriteFile leaves: the gap up to `offset` is zero-filled and an empty write changes nothing. */
  function WriteAt(file: seq<Byte>, offset: nat, data: seq<Byte>): (r: seq<Byte>)
    ensures data == [] ==> r == file
    ensures data != [] ==> |r| == (if offset + |data| > |file| then offset + |data| else |file|)
  {
    if data == [] then file
    else
      var padded := if |file| < offset then file + Zeros(offset - |file|) else file;
      padded[..offset] + data + (if offset + |data| <= |padded| then padded[offset + |data|..] else [])
  }

  /** Byte by byte: the data inside the extent, the old file outside it. */
  lemma WriteAtByte(file: seq<Byte>, offset: nat, data: seq<Byte>, k: nat)
    requires data != [] && k < |WriteAt(file, offset, data)|
    ensures WriteAt(file, offset, data)[k] ==
            if offset <= k < offset + |data| then data[k - offset] else if k < |file| then file[k] else 0
  {
  }

  /** Reading back the extent just written yields the data. */
  lemma ReadBack(file: seq<Byte>, offset: nat, data: seq<Byte>)
    requires data != []
    ensures ReadAt(WriteAt(file, offset, data), offset, |data|) == data
  {
    var r := ReadAt(WriteAt(file, offset, data), offset, |data|);
    forall k | 0 <= k < |data| ensures r[k] == data[k] {
      WriteAtByte(file, offset, data, offset + k);
    }
  }

  /** A write leaves every disjoint in-file extent as it was. */
  lemma WriteFrame(file: seq<Byte>, offset: nat, data: seq<Byte>, other: nat, n: nat)
    requires other + n <= |file| && (other + n <= offset || offset + |data| <= other)
    ensures ReadAt(WriteAt(file, offset, data), other, n) == ReadAt(file, other, n)
  {
    if data != [] && n > 0 {
      var w := WriteAt(file, offset, data);
      var r := ReadAt(w, other, n);
      forall k | 0 <= k < n ensures r[k] == file[other + k] {
        WriteAtByte(file, offset, data, other + k);
      }
    }
  }

  /** The operating system's verdict on a storage call: carried out, the seek failed, or the transfer failed, leaving
      `left` behind and `count` in the caller's byte count. */
  datatype Transfer = Completes | SeekFails | TransferFails(left: seq<Byte>, count: nat)

  /** The file-backed storage plug-in. The operating system's verdicts arrive as parameters. */
  class FileStorage {
    var isOpen: bool
    var file: seq<Byte>
    var position: nat
    var blockSize: nat
    var nBlocks: nat

    constructor ()
      ensures !isOpen && blockSize == 0 && nBlocks == 0
    {
      isOpen, file, position, blockSize, nBlocks := false, [], 0, 0, 0;
    }

    /** `found` is the existing file, if CreateFile opens it; `sized` is GetFileSizeEx's verdict. */
    method Init(found: Option<seq<Byte>>, sized: bool) returns (ok: bool)
      requires !isOpen && blockSize == 0 && nBlocks == 0
      modifies this
      ensures ok <==> found.Some? && sized && |found.value| < 0x200_0000_0000
      ensures ok ==> isOpen && file == found.value && position == 0 && blockSize == BLOCK_SIZE && nBlocks == |file| / BLOCK_SIZE
      ensures !ok ==> blockSize == 0 && nBlocks == 0 && isOpen == found.Some?
    {
      if found.None? {
        return false;
      }
      isOpen, file, position := true, found.value, 0;
      if !sized {
        return false;
      }
      SizeTestIsExact(|file|);
      if |file| / ULONG_SIZE >= 512 {
        return false;
      }
      blockSize := BLOCK_SIZE;
      nBlocks := |file| / BLOCK_SIZE % ULONG_SIZE;
      return true;
    }

    /** `previous` is what the caller's byte count holds before the call. A failed transfer leaves anything in the
        part of the buffer it was to fill. */
    method ReadBlocks(lba: nat, blocks: nat, buffer: array<Byte>, previous: nat, verdict: Transfer) returns (ok: bool, nBytes: nat)
      requires isOpen && Length(blocks, blockSize) <= buffer.Length
      requires verdict.TransferFails? ==> |verdict.left| <= Length(blocks, blockSize)
      modifies this`position, buffer
      ensures ok <==> verdict.Completes?
      ensures verdict.SeekFails? ==> buffer[..] == old(buffer[..]) && position == old(position) && nBytes == previous
      ensures verdict.TransferFails? ==> buffer[..] == Overlay(old(buffer[..]), verdict.left, |verdict.left|) && nBytes == verdict.count
      ensures ok ==> var bytes := ReadAt(file, lba * blockSize, Length(blocks, blockSize));
                     && nBytes == |bytes|
                     && buffer[..] == Overlay(old(buffer[..]), bytes, nBytes)
                     && position == lba * blockSize + nBytes
      ensures ok ==> && nBytes == Min(Length(blocks, blockSize), if lba * blockSize < |file| then |file| - lba * blockSize else 0)
                     && (forall k :: 0 <= k < nBytes ==> buffer[k] == file[lba * blockSize + k])
                     && (forall k :: nBytes <= k < buffer.Length ==> buffer[k] == old(buffer[k]))
    {
      if verdict.SeekFails? {
        return false, previous;
      }
      position := lba * blockSize;
      var bytes := if verdict.TransferFails? then verdict.left else ReadAt(file, position, blocks * blockSize % ULONG_SIZE);
      forall k | 0 <= k < |bytes| {
        buffer[k] := bytes[k];
      }
      if verdict.TransferFails? {
        return false, verdict.count;
      }
      ReadAtByte(file, position, blocks * blockSize % ULONG_SIZE);
      position := position + |bytes|;
      return true, |bytes|;
    }

    /** A failed transfer leaves anything in the file. */
    method WriteBlocks(lba: nat, blocks: nat, buffer: array<Byte>, previous: nat, verdict: Transfer) returns (ok: bool, nBytes: nat)
      requires isOpen && Length(blocks, blockSize) <= buffer.Length
      modifies this`position, this`file
      ensures ok <==> verdict.Completes?
      ensures verdict.SeekFails? ==> file == old(file) && position == old(position) && nBytes == previous
      ensures verdict.TransferFails? ==> file == verdict.left && nBytes == verdict.count
      ensures ok ==> && nBytes == Length(blocks, blockSize)
                     && file == WriteAt(old(file), lba * blockSize, buffer[..nBytes])
                     && position == lba * blockSize + nBytes
      ensures ok && nBytes == 0 ==> file == old(file)
      ensures ok && nBytes > 0 ==>
                forall k :: 0 <= k < |file| ==>
                  file[k] == if lba * blockSize <= k < lba * blockSize + nBytes then buffer[k - lba * blockSize]
                             else if k < |old(file)| then old(file)[k] else 0
    {
      if verdict.SeekFails? {
        return false, previous;
      }
      position := lba * blockSize;
      if verdict.TransferFails? {
        file := verdict.left;
        return false, verdict.count;
      }
      nBytes := blocks * blockSize % ULONG_SIZE;
      ghost var before := file;
      file := WriteAt(file, position, buffer[..nBytes]);
      forall k | 0 <= k < |file| && nBytes > 0
        ensures file[k] == if position <= k < position + nBytes then buffer[k - position] else if k < |before| then before[k] else 0
      {
        WriteAtByte(before, position, buffer[..nBytes], k);
      }
      position := position + nBytes;
      return true, nBytes;
    }
  }
}
