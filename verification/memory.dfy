/** The 64K byte address space of the emulated machine.

    Bytes below 0x8000 are RAM; writes through the bus at or above 0x8000 are
    silently discarded (the region holds the OS ROM). Reads are total: the
    address is masked to 16 bits. Loading the OS image is the one operation
    that may store into the protected region. */
module Memory {

  /** One byte of memory or one register value. */
  type Byte = b: int | 0 <= b < 0x100

  /** The whole address space: exactly 64K bytes. */
  type Ram = s: seq<Byte> | |s| == 0x10000 witness Blank()

  /** The first address that the bus write path refuses to change. */
  const ProtectedBase: nat := 0x8000

  /** Where the OS image is copied to, and how long a ROM image must be. */
  const OsBase: nat := 0xC000
  const RomSize: nat := 0x4000

  /** Power-on memory: every byte zero. */
  function Blank(): (r: seq<Byte>)
    ensures |r| == 0x10000
    ensures forall a :: 0 <= a < 0x10000 ==> r[a] == 0
  {
    seq(0x10000, _ => 0)
  }

  /** Reads one byte; the address is reduced to 16 bits first. Dafny's `%`
      is Euclidean, so this agrees with masking by 0xffff for negative
      offsets as well. */
  function ReadByte(m: Ram, offset: int): (b: Byte)
  {
    m[offset % 0x10000]
  }

  /** Reading is total, periodic in 64K, and the identity inside 0..0xFFFF. */
  lemma ReadByteMasks(m: Ram, offset: int)
    ensures 0 <= offset < 0x10000 ==> ReadByte(m, offset) == m[offset]
    ensures ReadByte(m, offset + 0x10000) == ReadByte(m, offset)
    ensures ReadByte(m, offset - 0x10000) == ReadByte(m, offset)
  {
  }

  /** Reads a little-endian 16-bit word made of the bytes at `offset` and
      `offset + 1`, each address masked on its own. */
  function ReadWord(m: Ram, offset: int): (r: nat)
    ensures r < 0x10000
    ensures r % 0x100 == ReadByte(m, offset)
    ensures r / 0x100 == ReadByte(m, offset + 1)
  {
    ReadByte(m, offset) as int + 256 * (ReadByte(m, offset + 1) as int)
  }

  /** The word at the top of memory takes its high byte from address 0. */
  lemma ReadWordWrapsAtTop(m: Ram)
    ensures ReadWord(m, 0xFFFF) == m[0xFFFF] as int + 256 * (m[0] as int)
  {
  }

  /** A bus write: stores `value` only when `offset` is below 0x8000. */
  function WriteByte(m: Ram, offset: nat, value: Byte): (r: Ram)
    ensures offset < ProtectedBase ==> r[offset] == value
    ensures offset >= ProtectedBase ==> r == m
    ensures forall a :: 0 <= a < 0x10000 && a != offset ==> r[a] == m[a]
  {
    if offset < ProtectedBase then m[offset := value] else m
  }

  /** Reading back a write to RAM yields the value written; a write to the
      protected region is invisible to every read. */
  lemma WriteThenRead(m: Ram, offset: nat, value: Byte, a: int)
    ensures offset < ProtectedBase ==>
      ReadByte(WriteByte(m, offset, value), offset) == value
    ensures offset >= ProtectedBase ==>
      ReadByte(WriteByte(m, offset, value), a) == ReadByte(m, a)
    ensures a % 0x10000 != offset ==>
      ReadByte(WriteByte(m, offset, value), a) == ReadByte(m, a)
  {
  }

  /** What copying an OS image leaves behind: the memory, and whether every
      byte of the image found a place (the copy loop raises an index error at
      the first byte past 0xFFFF, after storing all earlier ones). */
  datatype LoadOutcome = LoadOutcome(mem: Ram, complete: bool)

  /** Copies `data[i..]` to `OsBase + i` onwards, ignoring write protection. */
  function LoadOsFrom(m: Ram, data: seq<Byte>, i: nat): (r: LoadOutcome)
    requires i <= |data| && i <= RomSize
    ensures r.complete <==> |data| <= RomSize
    ensures forall j :: i <= j < |data| && j < RomSize ==> r.mem[OsBase + j] == data[j]
    ensures forall a :: 0 <= a < OsBase + i ==> r.mem[a] == m[a]
    ensures forall a :: OsBase + |data| <= a < 0x10000 ==> r.mem[a] == m[a]
    decreases |data| - i
  {
    if i == |data| then LoadOutcome(m, true)
    else if OsBase + i >= 0x10000 then LoadOutcome(m, false)
    else LoadOsFrom(m[OsBase + i := data[i]], data, i + 1)
  }

  /** Copies an OS image to 0xC000. */
  function LoadOs(m: Ram, data: seq<Byte>): (r: LoadOutcome)
    ensures r.complete <==> |data| <= RomSize
    ensures forall j :: 0 <= j < |data| && j < RomSize ==> r.mem[OsBase + j] == data[j]
    ensures forall a :: 0 <= a < 0x10000 && (a < OsBase || a >= OsBase + |data|) ==>
      r.mem[a] == m[a]
  {
    LoadOsFrom(m, data, 0)
  }

  /** The outcome of reading a ROM file: its bytes, or the size that was
      rejected. */
  datatype RomCheck = Rom(data: seq<Byte>) | BadRomSize(size: nat)

  /** The length guard of the ROM loader: an image is accepted only when it
      is exactly 16K long, and is then passed through unchanged. */
  function CheckRom(data: seq<Byte>): (r: RomCheck)
    ensures r.Rom? <==> |data| == RomSize
    ensures r.Rom? ==> r.data == data
    ensures r.BadRomSize? ==> r.size == |data|
  {
    if |data| != RomSize then BadRomSize(|data|) else Rom(data)
  }

  /** An accepted ROM always fits: loading it completes and fills exactly
      0xC000..0xFFFF. */
  lemma AcceptedRomFillsTop(m: Ram, data: seq<Byte>)
    requires CheckRom(data).Rom?
    ensures LoadOs(m, data).complete
    ensures forall a :: OsBase <= a < 0x10000 ==> LoadOs(m, data).mem[a] == data[a - OsBase]
    ensures forall a :: 0 <= a < OsBase ==> LoadOs(m, data).mem[a] == m[a]
  {
    var r := LoadOs(m, data);
    forall a | OsBase <= a < 0x10000
      ensures r.mem[a] == data[a - OsBase]
    {
      var j := a - OsBase;
      assert r.mem[OsBase + j] == data[j];
    }
  }
}
