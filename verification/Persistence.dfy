/** What the EEPROM module promises over whole runs: the cache and the stored bytes agree, a reboot
    is invisible, and fields do not disturb each other. */
module Persistence {
  import opened Prelude
  import opened Storage

  datatype Op =
    | Increment
    | SetTamper(flag: Byte)
    | ClearTamper
    | SetPause(flag: Byte)
    | SetDeviceId(id: Option<CString>)
    | SetConfigHash(hash: Option<CString>)
    | Reboot
    | Format

  type SizedDevice = d: Device | d.Sized()
    witness Device(seq(SIZE, _ => 0), 0, 0, 0, seq(16, _ => 0), seq(68, _ => 0))

  function Apply(d: SizedDevice, op: Op): SizedDevice {
    match op
    case Increment => Incremented(d)
    case SetTamper(flag) => WithTamper(d, flag)
    case ClearTamper => WithTamper(d, 0)
    case SetPause(flag) => WithPause(d, flag)
    case SetDeviceId(id) => WithDeviceId(d, id)
    case SetConfigHash(hash) => WithConfigHash(d, hash)
    case Reboot => Boot(d.eeprom)
    case Format => Formatted(d)
  }

  function Run(d: SizedDevice, ops: seq<Op>): SizedDevice {
    if ops == [] then d else Apply(Run(d, ops[..|ops| - 1]), ops[|ops| - 1])
  }

  // ---------- Independent fields: the simple machine the module stands for ----------

  datatype Settings = Settings(counter: Word, tamper: Byte, pause: Byte, deviceId: CString, configHash: CString)

  /** The settings the getters answer from RAM. */
  function Cached(d: SizedDevice): Settings {
    Settings(d.seqNo, d.tamper, d.pause, CStr(d.deviceId), CStr(d.configHash))
  }

  /** The settings held by the EEPROM alone. */
  function Stored(m: Memory): Settings {
    Settings(ReadWord(m, SEQ_ADDR), m[TAMPER_ADDR], m[PAUSE_ADDR],
             CStr(m[DEVICE_ID_ADDR..DEVICE_ID_ADDR + 7]), CStr(m[CONFIG_HASH_ADDR..CONFIG_HASH_ADDR + 64]))
  }

  function Expect(s: Settings, op: Op): Settings {
    match op
    case Increment => s.(counter := Bumped(s.counter))
    case SetTamper(flag) => s.(tamper := flag)
    case ClearTamper => s.(tamper := 0)
    case SetPause(flag) => s.(pause := flag)
    case SetDeviceId(None) => s
    case SetDeviceId(Some(id)) => s.(deviceId := Truncate(id, 7))
    case SetConfigHash(None) => s
    case SetConfigHash(Some(hash)) => s.(configHash := Truncate(hash, 64))
    case Reboot => s
    case Format => Settings(0, 0, 0, DefaultId(), DefaultHash())
  }

  function ExpectRun(s: Settings, ops: seq<Op>): Settings {
    if ops == [] then s else Expect(ExpectRun(s, ops[..|ops| - 1]), ops[|ops| - 1])
  }

  // ---------- Agreement of cache and EEPROM ----------

  predicate Synced(d: SizedDevice) {
    && HasMagic(d.eeprom)
    && d.seqNo == ReadWord(d.eeprom, SEQ_ADDR)
    && d.tamper == d.eeprom[TAMPER_ADDR]
    && d.pause == d.eeprom[PAUSE_ADDR]
    && d.deviceId == d.eeprom[DEVICE_ID_ADDR..DEVICE_ID_ADDR + 7] + Zeros(9)
    && d.configHash == d.eeprom[CONFIG_HASH_ADDR..CONFIG_HASH_ADDR + 64] + Zeros(4)
  }

  lemma ZerosTail(n: nat, k: nat)
    requires k < n
    ensures [0] + Zeros(n)[k + 1..] == Zeros(n - k)
  {
  }

  /** Cache and EEPROM agree exactly when a power cycle changes nothing at all. */
  lemma SyncedIsRebootInvisible(d: SizedDevice)
    ensures Synced(d) <==> Boot(d.eeprom) == d
  {
    ZerosTail(16, 7);
    ZerosTail(68, 64);
    if HasMagic(d.eeprom) {
      var id, hash := d.eeprom[DEVICE_ID_ADDR..DEVICE_ID_ADDR + 7], d.eeprom[CONFIG_HASH_ADDR..CONFIG_HASH_ADDR + 64];
      assert id + [0] + Zeros(16)[8..] == id + Zeros(9);
      assert hash + [0] + Zeros(68)[65..] == hash + Zeros(4);
    } else {
      FormattedLayout(Device(d.eeprom, 0, 0, 0, Zeros(16), Zeros(68)));
    }
  }

  /** A state in agreement is known from its EEPROM. */
  lemma SyncedFromEeprom(a: SizedDevice, b: SizedDevice)
    requires Synced(a) && Synced(b) && a.eeprom == b.eeprom
    ensures a == b
  {
    hide Synced, Boot;
    SyncedIsRebootInvisible(a);
    SyncedIsRebootInvisible(b);
  }

  lemma CStrOfPadded(prefix: seq<Byte>, n: nat)
    requires n > 0
    ensures CStr(prefix + Zeros(n)) == CStr(prefix)
  {
    var s := CStr(prefix);
    CStrUnique(prefix + Zeros(n), s);
  }

  lemma SyncedSettings(d: SizedDevice)
    requires Synced(d)
    ensures Stored(d.eeprom) == Cached(d)
  {
    CStrOfPadded(d.eeprom[DEVICE_ID_ADDR..DEVICE_ID_ADDR + 7], 9);
    CStrOfPadded(d.eeprom[CONFIG_HASH_ADDR..CONFIG_HASH_ADDR + 64], 4);
  }

  lemma OverwriteReads(m: Memory, at: nat, bytes: seq<Byte>, n: nat)
    requires at + |bytes| <= SIZE && n <= |bytes|
    ensures Overwrite(m, at, bytes)[at..at + n] == bytes[..n]
  {
  }

  lemma SameWord(m: Memory, w: Memory, at: nat)
    requires at + 4 <= SIZE && m[at..at + 4] == w[at..at + 4]
    ensures ReadWord(m, at) == ReadWord(w, at)
  {
    var a, b := m[at..at + 4], w[at..at + 4];
    assert a[0] == m[at] && a[1] == m[at + 1] && a[2] == m[at + 2] && a[3] == m[at + 3];
    assert b[0] == w[at] && b[1] == w[at + 1] && b[2] == w[at + 2] && b[3] == w[at + 3];
  }

  /** The bytes of the map that a write of [lo, hi) leaves alone. */
  predicate SameOutside(m: Memory, w: Memory, lo: nat, hi: nat) {
    forall i :: 0 <= i < SIZE && !(lo <= i < hi) ==> m[i] == w[i]
  }

  lemma SameSlice(m: Memory, w: Memory, lo: nat, hi: nat, from: nat, to: nat)
    requires SameOutside(m, w, lo, hi) && from <= to <= SIZE && (to <= lo || hi <= from)
    ensures m[from..to] == w[from..to]
  {
  }

  lemma IncrementKeepsSync(d: SizedDevice)
    requires Synced(d)
    ensures Synced(Incremented(d)) && SameOutside(d.eeprom, Incremented(d).eeprom, SEQ_ADDR, SEQ_ADDR + 4)
  {
    var m, w := d.eeprom, Incremented(d).eeprom;
    WordRoundTrip(m, SEQ_ADDR, Bumped(d.seqNo));
    assert SameOutside(m, w, SEQ_ADDR, SEQ_ADDR + 4);
    SameSlice(m, w, SEQ_ADDR, SEQ_ADDR + 4, DEVICE_ID_ADDR, DEVICE_ID_ADDR + 7);
    SameSlice(m, w, SEQ_ADDR, SEQ_ADDR + 4, CONFIG_HASH_ADDR, CONFIG_HASH_ADDR + 64);
  }

  lemma FlagKeepsSync(d: SizedDevice, flag: Byte)
    requires Synced(d)
    ensures Synced(WithTamper(d, flag)) && Synced(WithPause(d, flag))
    ensures SameOutside(d.eeprom, WithTamper(d, flag).eeprom, TAMPER_ADDR, TAMPER_ADDR + 1)
    ensures SameOutside(d.eeprom, WithPause(d, flag).eeprom, PAUSE_ADDR, PAUSE_ADDR + 1)
  {
    var m, t, p := d.eeprom, WithTamper(d, flag).eeprom, WithPause(d, flag).eeprom;
    SameSlice(m, t, TAMPER_ADDR, TAMPER_ADDR + 1, DEVICE_ID_ADDR, DEVICE_ID_ADDR + 7);
    SameSlice(m, t, TAMPER_ADDR, TAMPER_ADDR + 1, CONFIG_HASH_ADDR, CONFIG_HASH_ADDR + 64);
    SameSlice(m, p, PAUSE_ADDR, PAUSE_ADDR + 1, DEVICE_ID_ADDR, DEVICE_ID_ADDR + 7);
    SameSlice(m, p, PAUSE_ADDR, PAUSE_ADDR + 1, CONFIG_HASH_ADDR, CONFIG_HASH_ADDR + 64);
  }

  /** strncpy over a buffer whose tail is zero, then a NUL at the cut. */
  lemma CopiedString(buffer: seq<Byte>, s: CString, n: nat)
    requires n < |buffer| && buffer[n..] == Zeros(|buffer| - n)
    ensures Copied(buffer, s, n)[n := 0] == Copied(buffer, s, n)
    ensures Copied(buffer, s, n) == Copied(buffer, s, n)[..n] + Zeros(|buffer| - n)
    ensures CStr(Copied(buffer, s, n)) == Truncate(s, n)
  {
    var r := Copied(buffer, s, n);
    assert r[n] == buffer[n..][0] == 0;
    assert r[n..] == buffer[n..];
    CStrUnique(r, Truncate(s, n));
  }

  lemma DeviceIdKeepsSync(d: SizedDevice, id: CString)
    requires Synced(d)
    ensures Synced(WithDeviceId(d, Some(id))) && CStr(WithDeviceId(d, Some(id)).deviceId) == Truncate(id, 7)
    ensures SameOutside(d.eeprom, WithDeviceId(d, Some(id)).eeprom, DEVICE_ID_ADDR, DEVICE_ID_ADDR + 8)
  {
    var r := WithDeviceId(d, Some(id));
    CopiedString(d.deviceId, id, 7);
    var buffer := Copied(d.deviceId, id, 7);
    OverwriteReads(d.eeprom, DEVICE_ID_ADDR, buffer[..8], 7);
    assert buffer[..8][..7] == buffer[..7];
    assert SameOutside(d.eeprom, r.eeprom, DEVICE_ID_ADDR, DEVICE_ID_ADDR + 8);
    SameSlice(d.eeprom, r.eeprom, DEVICE_ID_ADDR, DEVICE_ID_ADDR + 8, SEQ_ADDR, SEQ_ADDR + 4);
    SameWord(d.eeprom, r.eeprom, SEQ_ADDR);
    SameSlice(d.eeprom, r.eeprom, DEVICE_ID_ADDR, DEVICE_ID_ADDR + 8, CONFIG_HASH_ADDR, CONFIG_HASH_ADDR + 64);
  }

  lemma ConfigHashKeepsSync(d: SizedDevice, hash: CString)
    requires Synced(d)
    ensures Synced(WithConfigHash(d, Some(hash)))
            && CStr(WithConfigHash(d, Some(hash)).configHash) == Truncate(hash, 64)
    ensures SameOutside(d.eeprom, WithConfigHash(d, Some(hash)).eeprom, CONFIG_HASH_ADDR, CONFIG_HASH_ADDR + 65)
  {
    var r := WithConfigHash(d, Some(hash));
    CopiedString(d.configHash, hash, 64);
    var buffer := Copied(d.configHash, hash, 64);
    OverwriteReads(d.eeprom, CONFIG_HASH_ADDR, buffer[..64] + [0], 64);
    assert (buffer[..64] + [0])[..64] == buffer[..64];
    assert SameOutside(d.eeprom, r.eeprom, CONFIG_HASH_ADDR, CONFIG_HASH_ADDR + 65);
    SameSlice(d.eeprom, r.eeprom, CONFIG_HASH_ADDR, CONFIG_HASH_ADDR + 65, SEQ_ADDR, SEQ_ADDR + 4);
    SameWord(d.eeprom, r.eeprom, SEQ_ADDR);
    SameSlice(d.eeprom, r.eeprom, CONFIG_HASH_ADDR, CONFIG_HASH_ADDR + 65, DEVICE_ID_ADDR, DEVICE_ID_ADDR + 7);
  }

  /** Where formatting leaves each field of the EEPROM; all other bytes stay. */
  predicate FormatLayout(m: Memory, w: Memory) {
    && HasMagic(w)
    && w[DEVICE_ID_ADDR..DEVICE_ID_ADDR + 8] == Copied(Zeros(8), DefaultId(), 8)
    && w[SEQ_ADDR..SEQ_ADDR + 4] == LittleEndian(0)
    && w[TAMPER_ADDR] == 0 && w[PAUSE_ADDR] == 0
    && w[CONFIG_HASH_ADDR..CONFIG_HASH_ADDR + 65] == Copied(Zeros(65), DefaultHash(), 65)
    && forall i :: 0 <= i < SIZE && Unmapped(i) ==> w[i] == m[i]
  }

  lemma OverwriteAt(m: Memory, at: nat, bytes: seq<Byte>)
    requires at + |bytes| <= SIZE
    ensures forall i :: 0 <= i < SIZE ==>
              Overwrite(m, at, bytes)[i] == if at <= i < at + |bytes| then bytes[i - at] else m[i]
  {
  }

  lemma FormattedLayout(d: SizedDevice)
    ensures FormatLayout(d.eeprom, Formatted(d).eeprom)
  {
    var id, zero, hash := Copied(Zeros(8), DefaultId(), 8), LittleEndian(0), Copied(Zeros(65), DefaultHash(), 65);
    var m0 := Overwrite(d.eeprom, MAGIC_ADDR, [0x53, 0x56]);
    var m1 := Overwrite(m0, DEVICE_ID_ADDR, id);
    var m2 := Overwrite(m1, SEQ_ADDR, zero);
    var m3 := m2[TAMPER_ADDR := 0][PAUSE_ADDR := 0];
    var w := Overwrite(m3, CONFIG_HASH_ADDR, hash);
    assert w == Formatted(d).eeprom;
    assert HasMagic(w) && w[DEVICE_ID_ADDR..DEVICE_ID_ADDR + 8] == id && w[SEQ_ADDR..SEQ_ADDR + 4] == zero
           && w[TAMPER_ADDR] == 0 && w[PAUSE_ADDR] == 0 && w[CONFIG_HASH_ADDR..CONFIG_HASH_ADDR + 65] == hash
           && forall i :: 0 <= i < SIZE && Unmapped(i) ==> w[i] == d.eeprom[i] by {
      hide Overwrite, Copied, LittleEndian;
      OverwriteAt(d.eeprom, MAGIC_ADDR, [0x53, 0x56]);
      OverwriteAt(m0, DEVICE_ID_ADDR, id);
      OverwriteAt(m1, SEQ_ADDR, zero);
      OverwriteAt(m3, CONFIG_HASH_ADDR, hash);
    }
  }

  /** Formatting byte by byte, at the addresses of the EEPROM map. */
  lemma FormattedBytes(d: SizedDevice)
    ensures var w := Formatted(d).eeprom;
            && w[0] == 0x53 && w[1] == 0x56
            && w[2..10] == Copied(Zeros(8), CStr(Ascii("EVM-001")), 8)
            && w[10..14] == [0, 0, 0, 0] && w[14] == 0
            && w[15..80]
               == Copied(Zeros(65), CStr(Ascii("34d70b0c609559c403328e1215b3e6c0c5980e07cb185b3db5c088c445a49f87")), 65)
            && w[86] == 0
            && forall i :: (80 <= i < 86 || 87 <= i < 1024) ==> w[i] == d.eeprom[i]
  {
    hide Formatted, Copied, Ascii, CStr;
    FormattedLayout(d);
    FormattedMagic(d);
  }

  lemma FormattedMagic(d: SizedDevice)
    ensures Formatted(d).eeprom[0] == 0x53 && Formatted(d).eeprom[1] == 0x56
  {
    hide Copied, LittleEndian;
  }

  /** What a start reads from a marked EEPROM, byte by byte. */
  lemma BootReads(m: Memory)
    requires m[0] == 0x53 && m[1] == 0x56
    ensures Boot(m).eeprom == m
    ensures Boot(m).seqNo as int == m[10] as int + 256 * m[11] as int + 65536 * m[12] as int + 16777216 * m[13] as int
    ensures Boot(m).tamper == m[14] && Boot(m).pause == m[86]
    ensures Boot(m).deviceId == m[2..9] + Zeros(9) && Boot(m).configHash == m[15..79] + Zeros(4)
  {
    ZerosTail(16, 7);
    ZerosTail(68, 64);
    assert m[2..9] + [0] + Zeros(16)[8..] == m[2..9] + Zeros(9);
    assert m[15..79] + [0] + Zeros(68)[65..] == m[15..79] + Zeros(4);
  }

  /** What the flags and the counter write, byte by byte. */
  lemma WrittenBytes(d: SizedDevice, flag: Byte)
    ensures WithTamper(d, flag) == d.(tamper := flag, eeprom := d.eeprom[14 := flag])
    ensures WithPause(d, flag) == d.(pause := flag, eeprom := d.eeprom[86 := flag])
    ensures var n, w := Incremented(d).seqNo as int, Incremented(d).eeprom;
            && n == (if d.seqNo == 0xFFFF_FFFF then 0 else d.seqNo as int + 1)
            && n == w[10] as int + 256 * w[11] as int + 65536 * w[12] as int + 16777216 * w[13] as int
            && Incremented(d) == d.(seqNo := Incremented(d).seqNo, eeprom := w)
            && forall i :: 0 <= i < 1024 && !(10 <= i < 14) ==> w[i] == d.eeprom[i]
  {
    WordRoundTrip(d.eeprom, SEQ_ADDR, Bumped(d.seqNo));
  }

  /**
   * Formatting restores agreement from any bytes, provided the unused tails of the RAM
   * buffers are zero, as they are from power-up on.
   */
  lemma FormatKeepsSync(d: SizedDevice)
    requires d.deviceId[8..] == Zeros(8) && d.configHash[65..] == Zeros(3)
    ensures Synced(Formatted(d)) && Cached(Formatted(d)) == Settings(0, 0, 0, DefaultId(), DefaultHash())
  {
    hide Overwrite, LittleEndian, Copied, CStr, ReadWord;
    FormattedLayout(d);
    FormattedBuffer(d.deviceId, DefaultId(), 8, 15);
    FormattedBuffer(d.configHash, DefaultHash(), 65, 67);
    var w := Formatted(d).eeprom;
    WordOfBytes(w, SEQ_ADDR, 0);
    assert w[DEVICE_ID_ADDR..DEVICE_ID_ADDR + 7] == w[DEVICE_ID_ADDR..DEVICE_ID_ADDR + 8][..7];
    assert w[CONFIG_HASH_ADDR..CONFIG_HASH_ADDR + 64] == w[CONFIG_HASH_ADDR..CONFIG_HASH_ADDR + 65][..64];
  }

  lemma WordOfBytes(m: Memory, at: nat, v: Word)
    requires at + 4 <= SIZE && m[at..at + 4] == LittleEndian(v)
    ensures ReadWord(m, at) == v
  {
    assert Overwrite(m, at, LittleEndian(v)) == m;
    WordRoundTrip(m, at, v);
  }

  lemma FormattedBuffer(buffer: seq<Byte>, s: CString, n: nat, copied: nat)
    requires |s| < n <= copied < |buffer| && buffer[n..] == Zeros(|buffer| - n)
    ensures CStr(Copied(buffer, s, copied)) == s
    ensures Copied(buffer, s, copied) == Copied(Zeros(n), s, n)[..n - 1] + Zeros(|buffer| - n + 1)
  {
    var r := Copied(buffer, s, copied);
    CStrUnique(r, s);
    assert r[copied..] == buffer[copied..];
    forall i | copied <= i < |buffer|
      ensures r[i] == 0
    {
      assert r[i] == buffer[i] == buffer[n..][i - n];
    }
  }

  lemma SyncedTails(d: SizedDevice)
    requires Synced(d)
    ensures d.deviceId[8..] == Zeros(8) && d.configHash[65..] == Zeros(3)
  {
  }

  // ---------- One step and whole runs ----------

  lemma BootIsSynced(m: Memory)
    ensures Synced(Boot(m))
    ensures HasMagic(m) ==> Cached(Boot(m)) == Stored(m)
  {
    var d := Device(m, 0, 0, 0, Zeros(16), Zeros(68));
    if HasMagic(m) {
      ZerosTail(16, 7);
      ZerosTail(68, 64);
      assert m[DEVICE_ID_ADDR..DEVICE_ID_ADDR + 7] + [0] + Zeros(16)[8..]
             == m[DEVICE_ID_ADDR..DEVICE_ID_ADDR + 7] + Zeros(9);
      assert m[CONFIG_HASH_ADDR..CONFIG_HASH_ADDR + 64] + [0] + Zeros(68)[65..]
          == m[CONFIG_HASH_ADDR..CONFIG_HASH_ADDR + 64] + Zeros(4);
      SyncedSettings(Boot(m));
    } else {
      FormatKeepsSync(d);
    }
  }

  lemma StepKeepsSync(d: SizedDevice, op: Op)
    requires Synced(d)
    ensures Synced(Apply(d, op)) && Cached(Apply(d, op)) == Expect(Cached(d), op)
  {
    match op
    case Increment => IncrementKeepsSync(d);
    case SetTamper(flag) => FlagKeepsSync(d, flag);
    case ClearTamper => FlagKeepsSync(d, 0);
    case SetPause(flag) => FlagKeepsSync(d, flag);
    case SetDeviceId(Some(id)) => DeviceIdKeepsSync(d, id); CopiedString(d.deviceId, id, 7);
    case SetDeviceId(None) =>
    case SetConfigHash(Some(hash)) => ConfigHashKeepsSync(d, hash); CopiedString(d.configHash, hash, 64);
    case SetConfigHash(None) =>
    case Reboot => SyncedIsRebootInvisible(d);
    case Format => SyncedTails(d); FormatKeepsSync(d);
  }

  /**
   * Whatever the EEPROM held at first and whatever is done since, the cache and the EEPROM
   * both hold exactly what the independent-fields machine holds, and a reboot here would
   * restore the very same state.
   */
  lemma {:induction false} CacheAndEepromAgree(m: Memory, ops: seq<Op>)
    ensures var d := Run(Boot(m), ops);
            && Synced(d)
            && Boot(d.eeprom) == d
            && Cached(d) == Stored(d.eeprom) == ExpectRun(Cached(Boot(m)), ops)
  {
    if ops == [] {
      BootIsSynced(m);
    } else {
      var before := ops[..|ops| - 1];
      CacheAndEepromAgree(m, before);
      StepKeepsSync(Run(Boot(m), before), ops[|ops| - 1]);
    }
    SyncedSettings(Run(Boot(m), ops));
    SyncedIsRebootInvisible(Run(Boot(m), ops));
  }

  // ---------- Bytes outside the map ----------

  predicate Unmapped(i: int) {
    0x50 <= i < PAUSE_ADDR || PAUSE_ADDR < i < SIZE
  }

  lemma StepKeepsUnmapped(d: SizedDevice, op: Op, i: nat)
    requires Synced(d) && Unmapped(i)
    ensures Apply(d, op).eeprom[i] == d.eeprom[i]
  {
    match op
    case Increment => IncrementKeepsSync(d);
    case SetTamper(flag) => FlagKeepsSync(d, flag);
    case ClearTamper => FlagKeepsSync(d, 0);
    case SetPause(flag) => FlagKeepsSync(d, flag);
    case SetDeviceId(Some(id)) => DeviceIdKeepsSync(d, id);
    case SetDeviceId(None) =>
    case SetConfigHash(Some(hash)) => ConfigHashKeepsSync(d, hash);
    case SetConfigHash(None) =>
    case Reboot => SyncedIsRebootInvisible(d);
    case Format => FormattedLayout(d);
  }

  /** The admin PIN area and everything past the map is never written. */
  lemma {:induction false} UnmappedBytesNeverChange(m: Memory, ops: seq<Op>, i: nat)
    requires Unmapped(i)
    ensures Run(Boot(m), ops).eeprom[i] == m[i]
  {
    if ops == [] {
      FormattedLayout(Device(m, 0, 0, 0, Zeros(16), Zeros(68)));
    } else {
      var before := ops[..|ops| - 1];
      UnmappedBytesNeverChange(m, before, i);
      CacheAndEepromAgree(m, before);
      StepKeepsUnmapped(Run(Boot(m), before), ops[|ops| - 1], i);
    }
  }

  // ---------- The counter ----------

  function Increments(ops: seq<Op>): nat {
    if ops == [] then 0
    else Increments(ops[..|ops| - 1]) + if ops[|ops| - 1].Increment? then 1 else 0
  }

  lemma {:induction false} ExpectedCounter(s: Settings, ops: seq<Op>)
    requires Format !in ops
    ensures ExpectRun(s, ops).counter as int == (s.counter as int + Increments(ops)) % 0x1_0000_0000
  {
    if ops != [] {
      var front, last := ops[..|ops| - 1], ops[|ops| - 1];
      ExpectedCounter(s, front);
      assert last in ops;
      CounterStep(ExpectRun(s, front), last);
      hide Expect, Bumped;
      assert Increments(ops) == Increments(front) + if last.Increment? then 1 else 0;
    }
  }

  lemma CounterStep(s: Settings, op: Op)
    requires op != Format
    ensures Expect(s, op).counter as int == (s.counter as int + if op.Increment? then 1 else 0) % 0x1_0000_0000
  {
  }

  lemma CounterCounts(m: Memory, ops: seq<Op>)
    requires Format !in ops
    ensures Run(Boot(m), ops).seqNo as int == (Boot(m).seqNo as int + Increments(ops)) % 0x1_0000_0000
  {
    hide Run, Boot, ExpectRun, Stored, Synced;
    CacheAndEepromAgree(m, ops);
    ExpectedCounter(Cached(Boot(m)), ops);
  }
}
