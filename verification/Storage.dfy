/** The terminal's EEPROM with its RAM cache: byte-level layout, little-endian counter and reboots.
    Shifts and masks on `uint32_t` are written as division and remainder by powers of 256. */
module Storage {
  import opened Prelude

  newtype Byte = b: int | 0 <= b < 256
  newtype Word = w: int | 0 <= w < 0x1_0000_0000

  const SIZE := 1024
  const MAGIC_ADDR := 0x00
  const MAGIC_VAL := 0x5653
  const DEVICE_ID_ADDR := 0x02
  const SEQ_ADDR := 0x0A
  const TAMPER_ADDR := 0x0E
  const CONFIG_HASH_ADDR := 0x0F
  const PAUSE_ADDR := 0x56
  const DEVICE_ID_STR := "EVM-001"
  const EXPECTED_CONFIG_HASH := "34d70b0c609559c403328e1215b3e6c0c5980e07cb185b3db5c088c445a49f87"

  function Ascii(s: string): (r: seq<Byte>)
    ensures |r| == |s|
  {
    seq(|s|, i requires 0 <= i < |s| => (s[i] as int % 256) as Byte)
  }

  // ---------- Memory ----------

  type Memory = m: seq<Byte> | |m| == SIZE witness seq(SIZE, _ => 0)

  function Overwrite(m: Memory, at: nat, bytes: seq<Byte>): Memory
    requires at + |bytes| <= SIZE
  {
    m[..at] + bytes + m[at + |bytes|..]
  }

  lemma OverwriteMore(m: Memory, at: nat, bytes: seq<Byte>, x: Byte)
    requires at + |bytes| < SIZE
    ensures Overwrite(m, at, bytes)[at + |bytes| := x] == Overwrite(m, at, bytes + [x])
  {
  }

  function LittleEndian(v: Word): (r: seq<Byte>)
    ensures |r| == 4
  {
    var n := v as int;
    [(n % 256) as Byte, (n / 256 % 256) as Byte, (n / 65536 % 256) as Byte, (n / 16777216 % 256) as Byte]
  }

  function ReadWord(m: Memory, at: nat): Word
    requires at + 4 <= SIZE
  {
    (m[at] as int + 256 * m[at + 1] as int + 65536 * m[at + 2] as int + 16777216 * m[at + 3] as int) as Word
  }

  lemma BytesOfWord(n: nat)
    requires n < 0x1_0000_0000
    ensures n == n % 256 + 256 * (n / 256 % 256) + 65536 * (n / 65536 % 256) + 16777216 * (n / 16777216 % 256)
  {
    var a := n / 256;
    var b := a / 256;
    var c := b / 256;
    assert n / 65536 == b;
    assert n / 16777216 == c;
    assert c < 256;
  }

  lemma WordRoundTrip(m: Memory, at: nat, v: Word)
    requires at + 4 <= SIZE
    ensures ReadWord(Overwrite(m, at, LittleEndian(v)), at) == v
  {
    BytesOfWord(v as int);
    var w := Overwrite(m, at, LittleEndian(v));
    assert w[at] == LittleEndian(v)[0] && w[at + 1] == LittleEndian(v)[1];
    assert w[at + 2] == LittleEndian(v)[2] && w[at + 3] == LittleEndian(v)[3];
  }

  // ---------- C strings ----------

  predicate NoNul(s: seq<Byte>) {
    forall i :: 0 <= i < |s| ==> s[i] != 0
  }

  type CString = s: seq<Byte> | NoNul(s)

  function Truncate(s: CString, n: nat): CString {
    if |s| <= n then s else s[..n]
  }

  function Zeros(n: nat): (z: seq<Byte>)
    ensures |z| == n && forall i :: 0 <= i < n ==> z[i] == 0
  {
    seq(n, _ => 0)
  }

  /** The buffer after strncpy(buffer, s, n). */
  function Copied(buffer: seq<Byte>, s: CString, n: nat): (r: seq<Byte>)
    requires n <= |buffer|
    ensures |r| == |buffer|
  {
    Truncate(s, n) + Zeros(n - |Truncate(s, n)|) + buffer[n..]
  }

  /** The position of the first NUL, or the end. */
  function NulAt(buffer: seq<Byte>): (k: nat)
    ensures k <= |buffer| && 0 !in buffer[..k]
    ensures k == |buffer| || buffer[k] == 0
  {
    if buffer == [] || buffer[0] == 0 then 0
    else
      var k := NulAt(buffer[1..]);
      assert buffer[..k + 1] == [buffer[0]] + buffer[1..][..k];
      k + 1
  }

  /** The string a buffer holds, up to its first NUL. */
  function CStr(buffer: seq<Byte>): (s: CString)
    ensures |s| <= |buffer| && s == buffer[..|s|]
    ensures |s| == |buffer| || buffer[|s|] == 0
  {
    var s := buffer[..NulAt(buffer)];
    assert NoNul(s) by {
      assert forall i :: 0 <= i < |s| ==> s[i] in s;
    }
    s
  }

  lemma CStrUnique(buffer: seq<Byte>, s: CString)
    requires |s| < |buffer| && s == buffer[..|s|] && buffer[|s|] == 0
    ensures CStr(buffer) == s
  {
    var k := NulAt(buffer);
    assert k >= |s| by {
      assert forall i :: 0 <= i < |s| ==> buffer[i] == s[i] != 0;
    }
    assert k <= |s| by {
      assert forall i :: 0 <= i < k ==> buffer[..k][i] == buffer[i] && buffer[..k][i] in buffer[..k];
    }
  }

  // ---------- The device on values ----------

  datatype Device = Device(
    eeprom: Memory,
    seqNo: Word,
    tamper: Byte,
    pause: Byte,
    deviceId: seq<Byte>,
    configHash: seq<Byte>)
  {
    predicate Sized() {
      |deviceId| == 16 && |configHash| == 68
    }
  }

  /** The string literals, as C reads them. */
  function DefaultId(): (id: CString)
    ensures |id| <= 7
  {
    CStr(Ascii(DEVICE_ID_STR))
  }

  function DefaultHash(): (h: CString)
    ensures |h| <= 64
  {
    CStr(Ascii(EXPECTED_CONFIG_HASH))
  }

  function Bumped(v: Word): Word {
    ((v as int + 1) % 0x1_0000_0000) as Word
  }

  function HasMagic(m: Memory): bool {
    m[MAGIC_ADDR] as int + 256 * m[MAGIC_ADDR + 1] as int == MAGIC_VAL
  }

  function FormattedMemory(m: Memory, id: CString, hash: CString): Memory {
    var m0 := Overwrite(m, MAGIC_ADDR, [0x53, 0x56]);
    var m1 := Overwrite(m0, DEVICE_ID_ADDR, Copied(Zeros(8), id, 8));
    var m2 := Overwrite(m1, SEQ_ADDR, LittleEndian(0));
    var m3 := m2[TAMPER_ADDR := 0][PAUSE_ADDR := 0];
    Overwrite(m3, CONFIG_HASH_ADDR, Copied(Zeros(65), hash, 65))
  }

  function Formatted(d: Device): (f: Device)
    requires d.Sized()
    ensures f.Sized()
  {
    Device(FormattedMemory(d.eeprom, DefaultId(), DefaultHash()), 0, 0, 0,
           Copied(d.deviceId, DefaultId(), 15), Copied(d.configHash, DefaultHash(), 67))
  }

  function Initialised(d: Device): (r: Device)
    requires d.Sized()
    ensures r.Sized()
  {
    if !HasMagic(d.eeprom) then Formatted(d)
    else
      Device(d.eeprom, ReadWord(d.eeprom, SEQ_ADDR), d.eeprom[TAMPER_ADDR], d.eeprom[PAUSE_ADDR],
             d.eeprom[DEVICE_ID_ADDR..DEVICE_ID_ADDR + 7] + [0] + d.deviceId[8..],
             d.eeprom[CONFIG_HASH_ADDR..CONFIG_HASH_ADDR + 64] + [0] + d.configHash[65..])
  }

  /** Power is applied: RAM holds zeros, the EEPROM its contents, and storage is initialised. */
  function Boot(m: Memory): (r: Device)
    ensures r.Sized()
  {
    Initialised(Device(m, 0, 0, 0, Zeros(16), Zeros(68)))
  }

  function Incremented(d: Device): Device {
    var v := Bumped(d.seqNo);
    d.(seqNo := v, eeprom := Overwrite(d.eeprom, SEQ_ADDR, LittleEndian(v)))
  }

  function WithTamper(d: Device, flag: Byte): Device {
    d.(tamper := flag, eeprom := d.eeprom[TAMPER_ADDR := flag])
  }

  function WithPause(d: Device, flag: Byte): Device {
    d.(pause := flag, eeprom := d.eeprom[PAUSE_ADDR := flag])
  }

  function WithDeviceId(d: Device, id: Option<CString>): (r: Device)
    requires d.Sized()
    ensures r.Sized()
  {
    if id.None? then d
    else
      var buffer := Copied(d.deviceId, id.value, 7)[7 := 0];
      d.(deviceId := buffer, eeprom := Overwrite(d.eeprom, DEVICE_ID_ADDR, buffer[..8]))
  }

  function WithConfigHash(d: Device, hash: Option<CString>): (r: Device)
    requires d.Sized()
    ensures r.Sized()
  {
    if hash.None? then d
    else
      var buffer := Copied(d.configHash, hash.value, 64)[64 := 0];
      d.(configHash := buffer, eeprom := Overwrite(d.eeprom, CONFIG_HASH_ADDR, buffer[..64] + [0]))
  }

  // ---------- The module as the firmware runs it ----------

  class Store {
    const eeprom: array<Byte>
    var cachedSeq: Word
    var cachedTamper: Byte
    var cachedPause: Byte
    const cachedDeviceId: array<Byte>
    const cachedConfigHash: array<Byte>

    ghost predicate Valid()
      reads this
    {
      && eeprom.Length == SIZE
      && cachedDeviceId.Length == 16
      && cachedConfigHash.Length == 68
      && eeprom != cachedDeviceId && eeprom != cachedConfigHash && cachedDeviceId != cachedConfigHash
    }

    ghost function State(): (d: Device)
      requires Valid()
      reads this, eeprom, cachedDeviceId, cachedConfigHash
      ensures d.Sized()
    {
      Device(eeprom[..], cachedSeq, cachedTamper, cachedPause, cachedDeviceId[..], cachedConfigHash[..])
    }

    /** Power on over given EEPROM contents; `Init` follows. */
    constructor (contents: Memory)
      ensures Valid() && fresh(eeprom) && fresh(cachedDeviceId) && fresh(cachedConfigHash)
      ensures State() == Device(contents, 0, 0, 0, Zeros(16), Zeros(68))
    {
      eeprom := new Byte[SIZE](i requires 0 <= i < SIZE => contents[i]);
      cachedSeq, cachedTamper, cachedPause := 0, 0, 0;
      cachedDeviceId := new Byte[16](_ => 0);
      cachedConfigHash := new Byte[68](_ => 0);
      new;
      assert eeprom[..] == contents;
      assert cachedDeviceId[..] == Zeros(16);
      assert cachedConfigHash[..] == Zeros(68);
    }

    method Strncpy(buffer: array<Byte>, s: CString, n: nat)
      requires n <= buffer.Length
      modifies buffer
      ensures buffer[..] == Copied(old(buffer[..]), s, n)
    {
      for i := 0 to n
        invariant forall k :: 0 <= k < i ==> buffer[k] == if k < |s| then s[k] else 0
        invariant buffer[i..] == old(buffer[i..])
      {
        buffer[i] := if i < |s| then s[i] else 0;
      }
      assert buffer[..] == buffer[..n] + buffer[n..];
      assert buffer[..n] == Truncate(s, n) + Zeros(n - |Truncate(s, n)|);
    }

    /** Little-endian reads and writes. */
    method ReadUint16(at: nat) returns (v: nat)
      requires Valid() && at + 2 <= SIZE
      ensures v == eeprom[at] as int + 256 * eeprom[at + 1] as int
    {
      var low, high := eeprom[at], eeprom[at + 1];
      v := low as int + high as int * 256;
    }

    method ReadUint32(at: nat) returns (v: Word)
      requires Valid() && at + 4 <= SIZE
      ensures v == ReadWord(eeprom[..], at)
    {
      var n, weight := 0, 1;
      for i := 0 to 4
        invariant weight == [1, 256, 65536, 16777216, 4294967296][i]
        invariant 0 <= n < weight
        invariant i == 1 ==> n == eeprom[at] as int
        invariant i == 2 ==> n == eeprom[at] as int + 256 * eeprom[at + 1] as int
        invariant i == 3 ==> n == eeprom[at] as int + 256 * eeprom[at + 1] as int + 65536 * eeprom[at + 2] as int
        invariant i == 4 ==> n == ReadWord(eeprom[..], at) as int
      {
        n := n + eeprom[at + i] as int * weight;
        weight := weight * 256;
      }
      v := n as Word;
    }

    method WriteUint32(at: nat, v: Word)
      requires Valid() && at + 4 <= SIZE
      modifies eeprom
      ensures eeprom[..] == Overwrite(old(eeprom[..]), at, LittleEndian(v))
    {
      var n := v as int;
      ghost var was := eeprom[..];
      for i := 0 to 4
        invariant i == 0 ==> n == v as int
        invariant i == 1 ==> n == v as int / 256
        invariant i == 2 ==> n == v as int / 65536
        invariant i == 3 ==> n == v as int / 16777216
        invariant eeprom[..] == Overwrite(was, at, LittleEndian(v)[..i])
      {
        OverwriteMore(was, at, LittleEndian(v)[..i], (n % 256) as Byte);
        assert LittleEndian(v)[..i + 1] == LittleEndian(v)[..i] + [(n % 256) as Byte];
        eeprom[at + i] := (n % 256) as Byte;
        n := n / 256;
      }
      assert LittleEndian(v)[..4] == LittleEndian(v);
    }

    /** A loop of raw writes: bytes bytes[..n] from `at` on. */
    method WriteBytes(at: nat, bytes: seq<Byte>)
      requires Valid() && at + |bytes| <= SIZE
      modifies eeprom
      ensures eeprom[..] == Overwrite(old(eeprom[..]), at, bytes)
    {
      ghost var was := eeprom[..];
      assert Overwrite(was, at, bytes[..0]) == was;
      for i := 0 to |bytes|
        invariant eeprom[..] == Overwrite(was, at, bytes[..i])
      {
        OverwriteMore(was, at, bytes[..i], bytes[i]);
        assert bytes[..i + 1] == bytes[..i] + [bytes[i]];
        eeprom[at + i] := bytes[i];
      }
      assert bytes[..|bytes|] == bytes;
    }

    /** A loop of raw reads: n bytes from `at` on fill the front of a buffer. */
    method ReadBytes(buffer: array<Byte>, at: nat, n: nat)
      requires Valid() && at + n <= SIZE && n <= buffer.Length && buffer != eeprom
      modifies buffer
      ensures buffer[..] == eeprom[at..at + n] + old(buffer[n..])
    {
      for i := 0 to n
        invariant forall k :: 0 <= k < i ==> buffer[k] == eeprom[at + k]
        invariant buffer[i..] == old(buffer[i..])
      {
        buffer[i] := eeprom[at + i];
      }
    }

    /** The writes of a format to the EEPROM, in order. */
    method FormatEeprom(id: CString, hash: CString)
      requires Valid()
      modifies eeprom
      ensures eeprom[..] == FormattedMemory(old(eeprom[..]), id, hash)
    {
      hide Overwrite, Copied, LittleEndian;
      WriteBytes(MAGIC_ADDR, [0x53, 0x56]);
      WriteBytes(DEVICE_ID_ADDR, Copied(Zeros(8), id, 8));
      WriteUint32(SEQ_ADDR, 0);
      eeprom[TAMPER_ADDR] := 0;
      eeprom[PAUSE_ADDR] := 0;
      WriteBytes(CONFIG_HASH_ADDR, Copied(Zeros(65), hash, 65));
    }

    method Format()
      requires Valid()
      modifies this, eeprom, cachedDeviceId, cachedConfigHash
      ensures Valid() && State() == Formatted(old(State()))
    {
      hide FormattedMemory, Copied;
      var id, hash := DefaultId(), DefaultHash();
      FormatEeprom(id, hash);
      cachedSeq, cachedTamper, cachedPause := 0, 0, 0;
      Strncpy(cachedDeviceId, id, 15);
      Strncpy(cachedConfigHash, hash, 67);
    }

    method Init()
      requires Valid()
      modifies this, eeprom, cachedDeviceId, cachedConfigHash
      ensures Valid() && State() == Initialised(old(State()))
    {
      hide Formatted, ReadWord;
      ghost var was := State();
      var magic := ReadUint16(MAGIC_ADDR);
      assert HasMagic(was.eeprom) <==> magic == MAGIC_VAL;
      if magic != MAGIC_VAL {
        Format();
        return;
      }
      cachedSeq := ReadUint32(SEQ_ADDR);
      cachedTamper := eeprom[TAMPER_ADDR];
      cachedPause := eeprom[PAUSE_ADDR];
      ReadBytes(cachedDeviceId, DEVICE_ID_ADDR, 8);
      cachedDeviceId[7] := 0;
      assert cachedDeviceId[..] == was.eeprom[DEVICE_ID_ADDR..DEVICE_ID_ADDR + 7] + [0] + was.deviceId[8..];
      ReadBytes(cachedConfigHash, CONFIG_HASH_ADDR, 64);
      cachedConfigHash[64] := 0;
      assert cachedConfigHash[..] == was.eeprom[CONFIG_HASH_ADDR..CONFIG_HASH_ADDR + 64] + [0] + was.configHash[65..];
    }

    method IncrementSequenceCounter() returns (v: Word)
      requires Valid()
      modifies this, eeprom
      ensures Valid() && State() == Incremented(old(State())) && v == cachedSeq
    {
      cachedSeq := Bumped(cachedSeq);
      WriteUint32(SEQ_ADDR, cachedSeq);
      return cachedSeq;
    }

    method SetTamperFlag(flag: Byte)
      requires Valid()
      modifies this, eeprom
      ensures Valid() && State() == WithTamper(old(State()), flag)
    {
      cachedTamper := flag;
      eeprom[TAMPER_ADDR] := flag;
    }

    method ClearTamperFlag()
      requires Valid()
      modifies this, eeprom
      ensures Valid() && State() == WithTamper(old(State()), 0)
    {
      cachedTamper := 0;
      eeprom[TAMPER_ADDR] := 0;
    }

    method SetPauseFlag(flag: Byte)
      requires Valid()
      modifies this, eeprom
      ensures Valid() && State() == WithPause(old(State()), flag)
    {
      cachedPause := flag;
      eeprom[PAUSE_ADDR] := flag;
    }

    method SetDeviceId(id: Option<CString>)
      requires Valid()
      modifies this, eeprom, cachedDeviceId
      ensures Valid() && State() == WithDeviceId(old(State()), id)
    {
      if id.Some? {
        Strncpy(cachedDeviceId, id.value, 7);
        cachedDeviceId[7] := 0;
        WriteBytes(DEVICE_ID_ADDR, cachedDeviceId[..8]);
      }
    }

    method SetConfigHash(hash: Option<CString>)
      requires Valid()
      modifies this, eeprom, cachedConfigHash
      ensures Valid() && State() == WithConfigHash(old(State()), hash)
    {
      if hash.Some? {
        Strncpy(cachedConfigHash, hash.value, 64);
        cachedConfigHash[64] := 0;
        WriteBytes(CONFIG_HASH_ADDR, cachedConfigHash[..64] + [0]);
      }
    }
  }
}
