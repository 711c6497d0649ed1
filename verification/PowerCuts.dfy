/** What a power loss between two EEPROM byte writes leaves behind, and when a run with such cuts returns a
    sequence number twice. */
module PowerCuts {
  import opened Storage
  import opened Persistence
  import opened TextCuts

  // ---------- A cut increment ----------

  type ByteCount = k: nat | k <= 4

  /** Power fails after k of the counter's four bytes are written; the terminal then restarts. */
  function CutIncrement(d: SizedDevice, k: ByteCount): SizedDevice {
    Boot(Overwrite(d.eeprom, SEQ_ADDR, LittleEndian(Bumped(d.seqNo))[..k]))
  }

  /** A cut write disturbs nothing but the counter. */
  lemma CutIncrementState(d: SizedDevice, k: ByteCount)
    requires Synced(d)
    ensures var m := Overwrite(d.eeprom, SEQ_ADDR, LittleEndian(Bumped(d.seqNo))[..k]);
            CutIncrement(d, k) == d.(eeprom := m, seqNo := ReadWord(m, SEQ_ADDR))
  {
    var m := Overwrite(d.eeprom, SEQ_ADDR, LittleEndian(Bumped(d.seqNo))[..k]);
    assert SameOutside(d.eeprom, m, SEQ_ADDR, SEQ_ADDR + 4);
    SameSlice(d.eeprom, m, SEQ_ADDR, SEQ_ADDR + 4, DEVICE_ID_ADDR, DEVICE_ID_ADDR + 7);
    SameSlice(d.eeprom, m, SEQ_ADDR, SEQ_ADDR + 4, CONFIG_HASH_ADDR, CONFIG_HASH_ADDR + 64);
    SyncedIsRebootInvisible(d.(eeprom := m, seqNo := ReadWord(m, SEQ_ADDR)));
  }

  lemma WordDigits(b0: nat, b1: nat, b2: nat, b3: nat)
    requires b0 < 256 && b1 < 256 && b2 < 256 && b3 < 256
    ensures var n := b0 + 256 * b1 + 65536 * b2 + 16777216 * b3;
            && n < 0x1_0000_0000
            && LittleEndian(n as Word) == [b0 as Byte, b1 as Byte, b2 as Byte, b3 as Byte]
  {
    var n := b0 + 256 * b1 + 65536 * b2 + 16777216 * b3;
    assert n / 256 == b1 + 256 * b2 + 65536 * b3;
    assert n / 65536 == b2 + 256 * b3;
    assert n / 16777216 == b3;
  }

  lemma BumpedBytes(m: Memory, v: Word)
    requires ReadWord(m, SEQ_ADDR) == v && m[SEQ_ADDR] != 0xFF
    ensures LittleEndian(Bumped(v)) == [m[SEQ_ADDR] + 1, m[SEQ_ADDR + 1], m[SEQ_ADDR + 2], m[SEQ_ADDR + 3]]
  {
    var b0, b1, b2, b3 := m[SEQ_ADDR] as int, m[SEQ_ADDR + 1] as int, m[SEQ_ADDR + 2] as int, m[SEQ_ADDR + 3] as int;
    assert v as int + 1 == b0 + 1 + 256 * b1 + 65536 * b2 + 16777216 * b3;
    hide LittleEndian;
    WordDigits(b0 + 1, b1, b2, b3);
  }

  lemma BumpWithoutCarry(m: Memory, v: Word, k: ByteCount)
    requires ReadWord(m, SEQ_ADDR) == v && m[SEQ_ADDR] != 0xFF && 0 < k
    ensures Overwrite(m, SEQ_ADDR, LittleEndian(Bumped(v))[..k])
         == Overwrite(m, SEQ_ADDR, LittleEndian(Bumped(v)))
  {
    BumpedBytes(m, v);
    hide LittleEndian, Bumped, ReadWord;
  }

  /** 256 to the power k. */
  function Weight(k: ByteCount): nat {
    [1, 256, 65536, 16777216, 4294967296][k]
  }

  /** The low k bytes of v + 1 under the high bytes of v. */
  function Torn(v: Word, k: ByteCount): int {
    v as int - v as int % Weight(k) + (v as int + 1) % Weight(k)
  }

  lemma LowBytes(n: nat)
    requires n < 0x1_0000_0000
    ensures n % 65536 == n % 256 + 256 * (n / 256 % 256)
    ensures n % 16777216 == n % 256 + 256 * (n / 256 % 256) + 65536 * (n / 65536 % 256)
    ensures n == n % 16777216 + 16777216 * (n / 16777216 % 256)
  {
    var a := n / 256;
    var b := a / 256;
    var c := b / 256;
    assert n / 65536 == b;
    assert n / 16777216 == c;
    assert c < 256;
  }

  /** The bytes of a stored word are its digits to base 256. */
  lemma StoredDigits(m: Memory, v: Word)
    requires ReadWord(m, SEQ_ADDR) == v
    ensures m[SEQ_ADDR..SEQ_ADDR + 4] == LittleEndian(v)
  {
    hide LittleEndian;
    WordDigits(m[SEQ_ADDR] as int, m[SEQ_ADDR + 1] as int, m[SEQ_ADDR + 2] as int, m[SEQ_ADDR + 3] as int);
  }

  /** The word whose low k bytes are those of new and whose other bytes are those of v. */
  lemma MixedDigits(v: Word, new': Word, k: ByteCount)
    ensures var b, c := LittleEndian(v), LittleEndian(new');
            (if k > 0 then c[0] else b[0]) as int + 256 * (if k > 1 then c[1] else b[1]) as int
            + 65536 * (if k > 2 then c[2] else b[2]) as int + 16777216 * (if k > 3 then c[3] else b[3]) as int
            == v as int - v as int % Weight(k) + new' as int % Weight(k)
  {
    LowBytes(v as int);
    LowBytes(new' as int);
  }

  lemma BumpedLow(v: Word, k: ByteCount)
    ensures Bumped(v) as int % Weight(k) == (v as int + 1) % Weight(k)
  {
  }

  lemma TornWord(m: Memory, v: Word, k: ByteCount)
    requires ReadWord(m, SEQ_ADDR) == v
    ensures ReadWord(Overwrite(m, SEQ_ADDR, LittleEndian(Bumped(v))[..k]), SEQ_ADDR) as int == Torn(v, k)
  {
    hide LittleEndian, Bumped, Weight;
    var bytes, w := LittleEndian(Bumped(v)), Overwrite(m, SEQ_ADDR, LittleEndian(Bumped(v))[..k]);
    StoredDigits(m, v);
    assert forall i :: 0 <= i < 4 ==> m[SEQ_ADDR + i] == m[SEQ_ADDR..SEQ_ADDR + 4][i] == LittleEndian(v)[i];
    assert forall i :: 0 <= i < 4 ==> w[SEQ_ADDR + i] == if i < k then bytes[i] else LittleEndian(v)[i];
    MixedDigits(v, Bumped(v), k);
    BumpedLow(v, k);
  }

  /** What every cut leaves: a state in agreement, with the counter torn between old and new. */
  lemma CutReads(d: SizedDevice, k: ByteCount)
    requires Synced(d)
    ensures Synced(CutIncrement(d, k)) && CutIncrement(d, k).seqNo as int == Torn(d.seqNo, k)
  {
    CutIncrementState(d, k);
    TornWord(d.eeprom, d.seqNo, k);
    BootIsSynced(Overwrite(d.eeprom, SEQ_ADDR, LittleEndian(Bumped(d.seqNo))[..k]));
  }

  lemma CutAtCarry(d: SizedDevice)
    requires Synced(d) && d.eeprom[SEQ_ADDR] == 0xFF
    ensures CutIncrement(d, 1).seqNo as int == d.seqNo as int - 255
  {
    assert d.seqNo as int % 256 == 255;
    hide Synced, CutIncrement;
    CutReads(d, 1);
  }

  /** Every cut leaves the old or the new state exactly when the low byte does not carry. */
  lemma IncrementIsAtomicExactlyWithoutCarry(d: SizedDevice)
    requires Synced(d)
    ensures (forall k: ByteCount :: CutIncrement(d, k) == d || CutIncrement(d, k) == Incremented(d))
            <==> d.eeprom[SEQ_ADDR] != 0xFF
  {
    var bytes := LittleEndian(Bumped(d.seqNo));
    if d.eeprom[SEQ_ADDR] != 0xFF {
      forall k: ByteCount
        ensures CutIncrement(d, k) == d || CutIncrement(d, k) == Incremented(d)
      {
        CutIncrementState(d, k);
        if k == 0 {
          assert Overwrite(d.eeprom, SEQ_ADDR, bytes[..0]) == d.eeprom;
        } else {
          BumpWithoutCarry(d.eeprom, d.seqNo, k);
          WordRoundTrip(d.eeprom, SEQ_ADDR, Bumped(d.seqNo));
        }
      }
    } else {
      CutAtCarry(d);
      hide *;
      assert CutIncrement(d, 1) != d && CutIncrement(d, 1) != Incremented(d);
    }
  }

  /** A power loss brings the counter back to zero exactly when it strikes once every byte that carries is written. */
  lemma CutResetsExactly(d: SizedDevice, k: ByteCount)
    requires Synced(d)
    ensures CutIncrement(d, k).seqNo == 0 <==> d.seqNo as int + 1 == Weight(k)
  {
    hide Synced, CutIncrement;
    CutReads(d, k);
  }

  // ---------- A cut format ----------

  type Address = a: nat | a < SIZE

  datatype Write = Write(at: Address, byte: Byte)

  /** A loop of raw writes from an address on. */
  function Laid(at: nat, bytes: seq<Byte>): (ws: seq<Write>)
    requires at + |bytes| <= SIZE
    ensures |ws| == |bytes|
  {
    seq(|bytes|, i requires 0 <= i < |bytes| => Write(at + i, bytes[i]))
  }

  function Written(m: Memory, ws: seq<Write>): Memory {
    if ws == [] then m
    else
      var last := ws[|ws| - 1];
      Written(m, ws[..|ws| - 1])[last.at := last.byte]
  }

  const FORMAT_WRITES := 81

  /** The single-byte writes of storage_format, in order: the magic mark comes first. */
  function FormatWrites(): (ws: seq<Write>)
    ensures |ws| == FORMAT_WRITES
  {
    Laid(MAGIC_ADDR, [0x53, 0x56]) + Laid(DEVICE_ID_ADDR, Copied(Zeros(8), DefaultId(), 8))
    + Laid(SEQ_ADDR, LittleEndian(0)) + Laid(TAMPER_ADDR, [0]) + Laid(PAUSE_ADDR, [0])
    + Laid(CONFIG_HASH_ADDR, Copied(Zeros(65), DefaultHash(), 65))
  }

  type WriteCount = k: nat | k <= FORMAT_WRITES

  /** The EEPROM when power fails after k of the format's writes. */
  function CutFormat(m: Memory, k: WriteCount): Memory {
    Written(m, FormatWrites()[..k])
  }

  lemma {:induction false} WrittenConcat(m: Memory, a: seq<Write>, b: seq<Write>)
    ensures Written(m, a + b) == Written(Written(m, a), b)
  {
    if b == [] {
      assert a + b == a;
    } else {
      assert (a + b)[..|a + b| - 1] == a + b[..|b| - 1];
      WrittenConcat(m, a, b[..|b| - 1]);
    }
  }

  lemma {:induction false} WrittenLaid(m: Memory, at: nat, bytes: seq<Byte>)
    requires at + |bytes| <= SIZE
    ensures Written(m, Laid(at, bytes)) == Overwrite(m, at, bytes)
  {
    if bytes == [] {
      assert Overwrite(m, at, bytes) == m;
    } else {
      var front, last := bytes[..|bytes| - 1], bytes[|bytes| - 1];
      assert Laid(at, bytes)[..|bytes| - 1] == Laid(at, front);
      WrittenLaid(m, at, front);
      OverwriteMore(m, at, front, last);
      assert front + [last] == bytes;
    }
  }

  /** All the writes together are the format. */
  lemma WholeFormat(d: SizedDevice)
    ensures CutFormat(d.eeprom, FORMAT_WRITES) == Formatted(d).eeprom
  {
    var id, zero, hash := Copied(Zeros(8), DefaultId(), 8), LittleEndian(0), Copied(Zeros(65), DefaultHash(), 65);
    var m0 := Overwrite(d.eeprom, MAGIC_ADDR, [0x53, 0x56]);
    var m1 := Overwrite(m0, DEVICE_ID_ADDR, id);
    var m2 := Overwrite(m1, SEQ_ADDR, zero);
    var m3 := m2[TAMPER_ADDR := 0];
    var m4 := m3[PAUSE_ADDR := 0];
    assert Formatted(d).eeprom == Overwrite(m4, CONFIG_HASH_ADDR, hash);
    assert Overwrite(m2, TAMPER_ADDR, [0]) == m3 && Overwrite(m3, PAUSE_ADDR, [0]) == m4;
    var w0, w1, w2 := Laid(MAGIC_ADDR, [0x53, 0x56]), Laid(DEVICE_ID_ADDR, id), Laid(SEQ_ADDR, zero);
    var w3, w4, w5 := Laid(TAMPER_ADDR, [0]), Laid(PAUSE_ADDR, [0]), Laid(CONFIG_HASH_ADDR, hash);
    assert FormatWrites()[..FORMAT_WRITES] == w0 + w1 + w2 + w3 + w4 + w5;
    hide Written, Laid, Overwrite, Copied, LittleEndian, FormatWrites;
    WrittenLaid(d.eeprom, MAGIC_ADDR, [0x53, 0x56]);
    WrittenLaid(m0, DEVICE_ID_ADDR, id);
    WrittenLaid(m1, SEQ_ADDR, zero);
    WrittenLaid(m2, TAMPER_ADDR, [0]);
    WrittenLaid(m3, PAUSE_ADDR, [0]);
    WrittenLaid(m4, CONFIG_HASH_ADDR, hash);
    WrittenConcat(d.eeprom, w0, w1);
    WrittenConcat(d.eeprom, w0 + w1, w2);
    WrittenConcat(d.eeprom, w0 + w1 + w2, w3);
    WrittenConcat(d.eeprom, w0 + w1 + w2 + w3, w4);
    WrittenConcat(d.eeprom, w0 + w1 + w2 + w3 + w4, w5);
  }

  // ---------- When the restart repairs a cut format ----------

  /** The addresses in the order of the writes: no byte is written twice. */
  lemma FormatAddress(i: nat)
    requires i < FORMAT_WRITES
    ensures FormatWrites()[i].at == if i < 15 then i else if i == 15 then PAUSE_ADDR else i - 1
  {
    hide Copied, LittleEndian, DefaultId, DefaultHash;
  }

  lemma MagicWrites()
    ensures FormatWrites()[0] == Write(0, 0x53) && FormatWrites()[1] == Write(1, 0x56)
  {
    hide Copied, LittleEndian, DefaultId, DefaultHash;
  }

  lemma CutFormatStep(m: Memory, k: WriteCount)
    requires k < FORMAT_WRITES
    ensures CutFormat(m, k + 1) == CutFormat(m, k)[FormatWrites()[k].at := FormatWrites()[k].byte]
  {
    hide FormatWrites;
    var ws := FormatWrites();
    assert ws[..k + 1][..k] == ws[..k];
  }

  /** Each byte of the map is the default once written and the old byte before. */
  lemma {:induction false} CutFormatByte(m: Memory, k: WriteCount, i: nat)
    requires i < FORMAT_WRITES
    ensures CutFormat(m, k)[FormatWrites()[i].at]
            == if i < k then FormatWrites()[i].byte else m[FormatWrites()[i].at]
  {
    hide FormatWrites, Written;
    if k == 0 {
      NothingWritten(m);
    } else {
      CutFormatByte(m, k - 1, i);
      CutFormatStep(m, k - 1);
      FormatAddress(i);
      FormatAddress(k - 1);
    }
  }

  lemma NothingWritten(m: Memory)
    ensures CutFormat(m, 0) == m
  {
    hide FormatWrites;
  }

  /** Two runs over the same writes that differ nowhere else end alike. */
  lemma {:induction false} SameAfterWrites(m: Memory, w: Memory, ws: seq<Write>)
    requires forall a: Address :: m[a] == w[a] || exists i :: 0 <= i < |ws| && ws[i].at == a
    ensures Written(m, ws) == Written(w, ws)
    decreases |ws|
  {
    if ws == [] {
      assert forall a: Address :: m[a] == w[a];
      assert m == w;
    } else {
      var front, last := ws[..|ws| - 1], ws[|ws| - 1];
      var m', w' := m[last.at := last.byte], w[last.at := last.byte];
      forall a: Address
        ensures m'[a] == w'[a] || exists i :: 0 <= i < |front| && front[i].at == a
      {
        if m'[a] != w'[a] {
          var i :| 0 <= i < |ws| && ws[i].at == a;
          assert i < |front| && front[i] == ws[i];
        }
      }
      SameAfterWrites(m', w', front);
      EarlyWriteLost(m, front, last);
      EarlyWriteLost(w, front, last);
    }
  }

  /** Writing x first as well makes no difference to a sequence of writes that ends with x. */
  lemma {:induction false} EarlyWriteLost(m: Memory, ws: seq<Write>, x: Write)
    ensures Written(m[x.at := x.byte], ws)[x.at := x.byte] == Written(m, ws)[x.at := x.byte]
  {
    if ws != [] {
      var front, last := ws[..|ws| - 1], ws[|ws| - 1];
      EarlyWriteLost(m, front, x);
      var a, b := Written(m[x.at := x.byte], front), Written(m, front);
      assert forall i: Address :: i != x.at ==> a[i] == a[x.at := x.byte][i] == b[x.at := x.byte][i] == b[i];
      assert a[last.at := last.byte][x.at := x.byte] == b[last.at := last.byte][x.at := x.byte];
    }
  }

  lemma {:induction false} WrittenElsewhere(m: Memory, ws: seq<Write>, a: Address)
    requires forall i :: 0 <= i < |ws| ==> ws[i].at != a
    ensures Written(m, ws)[a] == m[a]
  {
    if ws != [] {
      WrittenElsewhere(m, ws[..|ws| - 1], a);
    }
  }

  /** Formatting again after a cut ends where the first format would have ended. */
  lemma FormatAgain(m: Memory, k: WriteCount)
    ensures CutFormat(CutFormat(m, k), FORMAT_WRITES) == CutFormat(m, FORMAT_WRITES)
  {
    hide FormatWrites, Written;
    var ws, w := FormatWrites(), CutFormat(m, k);
    assert ws[..FORMAT_WRITES] == ws;
    forall a: Address
      ensures w[a] == m[a] || exists i :: 0 <= i < |ws| && ws[i].at == a
    {
      if forall i :: 0 <= i < |ws| ==> ws[i].at != a {
        assert forall i :: 0 <= i < |ws[..k]| ==> ws[..k][i] == ws[i];
        WrittenElsewhere(m, ws[..k], a);
      }
    }
    SameAfterWrites(w, m, ws);
  }

  /** The magic mark stands after k writes. */
  predicate MagicStands(m: Memory, k: WriteCount) {
    k >= 2 || (m[1] == 0x56 && (k == 1 || m[0] == 0x53))
  }

  /** The writes from k on would change nothing. */
  predicate NothingLeft(m: Memory, k: WriteCount) {
    forall i :: k <= i < FORMAT_WRITES ==> m[FormatWrites()[i].at] == FormatWrites()[i].byte
  }

  lemma MagicAfterCut(m: Memory, k: WriteCount)
    ensures HasMagic(CutFormat(m, k)) <==> MagicStands(m, k)
  {
    hide FormatWrites, Written, CutFormat;
    MagicWrites();
    CutFormatByte(m, k, 0);
    CutFormatByte(m, k, 1);
  }

  lemma {:induction false} DoneMeansNothingLeft(m: Memory, k: WriteCount)
    ensures CutFormat(m, k) == CutFormat(m, FORMAT_WRITES) <==> NothingLeft(m, k)
    decreases FORMAT_WRITES - k
  {
    hide FormatWrites, Written, CutFormat;
    var ws, cut, full := FormatWrites(), CutFormat(m, k), CutFormat(m, FORMAT_WRITES);
    if cut == full {
      forall i | k <= i < FORMAT_WRITES
        ensures m[ws[i].at] == ws[i].byte
      {
        CutFormatByte(m, k, i);
        CutFormatByte(m, FORMAT_WRITES, i);
      }
    }
    if NothingLeft(m, k) && k < FORMAT_WRITES {
      DoneMeansNothingLeft(m, k + 1);
      CutFormatStep(m, k);
      CutFormatByte(m, k, k);
      assert cut[ws[k].at := ws[k].byte] == cut;
    }
  }

  /** Power-up without the magic mark finishes in the state of an undisturbed format. */
  lemma BlankBoot(m: Memory)
    ensures !HasMagic(m) ==> Boot(m).eeprom == CutFormat(m, FORMAT_WRITES)
    ensures HasMagic(m) ==> Boot(m).eeprom == m
    ensures Boot(CutFormat(m, FORMAT_WRITES)).eeprom == CutFormat(m, FORMAT_WRITES)
  {
    var d := Device(m, 0, 0, 0, Zeros(16), Zeros(68));
    WholeFormat(d);
    FormattedLayout(d);
    hide Formatted, CutFormat;
  }

  /**
   * A power loss after k writes of a format is repaired by the restart, which ends as if nothing had happened, if and
   * only if the magic mark does not stand yet or nothing is left to write.
   */
  lemma CutFormatRepairedExactly(m: Memory, k: WriteCount)
    ensures Boot(CutFormat(m, k)) == Boot(CutFormat(m, FORMAT_WRITES)) <==> !MagicStands(m, k) || NothingLeft(m, k)
  {
    hide Boot, CutFormat, HasMagic, Synced, MagicStands, NothingLeft;
    var cut, full := CutFormat(m, k), CutFormat(m, FORMAT_WRITES);
    MagicAfterCut(m, k);
    DoneMeansNothingLeft(m, k);
    FormatAgain(m, k);
    BlankBoot(cut);
    BlankBoot(m);
    BootIsSynced(cut);
    BootIsSynced(full);
    if Boot(cut).eeprom == Boot(full).eeprom {
      SyncedFromEeprom(Boot(cut), Boot(full));
    }
  }

  /** Formatting survives every power loss exactly over an EEPROM that holds the defaults already, the mark aside. */
  lemma FormatIsAtomicExactlyOverDefaults(m: Memory)
    ensures (forall k: WriteCount :: Boot(CutFormat(m, k)) == Boot(CutFormat(m, FORMAT_WRITES))) <==> NothingLeft(m, 2)
  {
    hide Boot, CutFormat, FormatWrites;
    forall k: WriteCount
      ensures Boot(CutFormat(m, k)) == Boot(CutFormat(m, FORMAT_WRITES)) <==> !MagicStands(m, k) || NothingLeft(m, k)
    {
      CutFormatRepairedExactly(m, k);
    }
    MagicWrites();
    assert MagicStands(m, 2);
    if NothingLeft(m, 2) {
      assert MagicStands(m, 0) ==> NothingLeft(m, 0);
      assert MagicStands(m, 1) ==> NothingLeft(m, 1);
    }
  }

  // ---------- Restarts that are cut as well ----------

  /** Power fails k writes into a power-up: only an unmarked EEPROM is written to. */
  function CutPowerUp(m: Memory, k: WriteCount): Memory {
    if HasMagic(m) then m else CutFormat(m, k)
  }

  /** One power-up after the other, each cut. */
  function CutPowerUps(m: Memory, ks: seq<WriteCount>): Memory
    decreases |ks|
  {
    if ks == [] then m else CutPowerUps(CutPowerUp(m, ks[0]), ks[1..])
  }

  /** The first cut at which the mark stands has nothing left to write. */
  predicate FirstMarkDone(m: Memory, ks: seq<WriteCount>) {
    forall i :: 0 <= i < |ks| && MagicStands(m, ks[i]) && (forall j :: 0 <= j < i ==> !MagicStands(m, ks[j]))
                ==> NothingLeft(m, ks[i])
  }

  lemma {:induction false} MarkedRestarts(m: Memory, ks: seq<WriteCount>)
    requires HasMagic(m)
    ensures CutPowerUps(m, ks) == m
    decreases |ks|
  {
    if ks != [] {
      MarkedRestarts(m, ks[1..]);
    }
  }

  /** A cut before the mark stands touches its first byte at most, which later cuts do not look at. */
  lemma UnmarkedCut(m: Memory, k: WriteCount, n: WriteCount)
    requires !MagicStands(m, k)
    ensures !HasMagic(m) && !HasMagic(CutFormat(m, k))
    ensures MagicStands(CutFormat(m, k), n) <==> MagicStands(m, n)
    ensures MagicStands(m, n) ==> (NothingLeft(CutFormat(m, k), n) <==> NothingLeft(m, n))
  {
    hide FormatWrites, Written, CutFormat;
    var c := CutFormat(m, k);
    MagicAfterCut(m, k);
    MagicWrites();
    CutFormatByte(m, k, 0);
    CutFormatByte(m, k, 1);
    assert k <= 1 && (MagicStands(m, n) ==> n >= 1);
    if n >= 1 {
      forall i | n <= i < FORMAT_WRITES
        ensures c[FormatWrites()[i].at] == m[FormatWrites()[i].at]
      {
        CutFormatByte(m, k, i);
      }
    }
  }

  lemma FirstMarkNow(m: Memory, k: WriteCount, ks: seq<WriteCount>)
    requires MagicStands(m, k)
    ensures FirstMarkDone(m, [k] + ks) <==> NothingLeft(m, k)
  {
    hide MagicStands, NothingLeft;
    var all := [k] + ks;
    assert all[0] == k;
    if NothingLeft(m, k) {
      forall i | 0 <= i < |all| && MagicStands(m, all[i]) && (forall j :: 0 <= j < i ==> !MagicStands(m, all[j]))
        ensures NothingLeft(m, all[i])
      {
        assert i == 0;
      }
    }
  }

  lemma FirstMarkLater(m: Memory, k: WriteCount, ks: seq<WriteCount>)
    requires !MagicStands(m, k)
    ensures FirstMarkDone(m, [k] + ks) <==> FirstMarkDone(m, ks)
  {
    hide MagicStands, NothingLeft;
    var all := [k] + ks;
    assert forall i :: 0 <= i < |ks| ==> all[i + 1] == ks[i];
    if FirstMarkDone(m, all) {
      forall i | 0 <= i < |ks| && MagicStands(m, ks[i]) && (forall j :: 0 <= j < i ==> !MagicStands(m, ks[j]))
        ensures NothingLeft(m, ks[i])
      {
        assert forall j :: 0 <= j < i + 1 ==> !MagicStands(m, all[j]);
        assert all[i + 1] == ks[i];
      }
    }
    if FirstMarkDone(m, ks) {
      forall i | 0 <= i < |all| && MagicStands(m, all[i]) && (forall j :: 0 <= j < i ==> !MagicStands(m, all[j]))
        ensures NothingLeft(m, all[i])
      {
        assert i > 0 && all[i] == ks[i - 1];
        assert forall j :: 0 <= j < i - 1 ==> ks[j] == all[j + 1];
      }
    }
  }

  lemma SameFirstMark(m: Memory, k: WriteCount, ks: seq<WriteCount>)
    requires !MagicStands(m, k)
    ensures FirstMarkDone(CutFormat(m, k), ks) <==> FirstMarkDone(m, ks)
  {
    hide MagicStands, NothingLeft, CutFormat, HasMagic;
    forall n: WriteCount
      ensures MagicStands(CutFormat(m, k), n) <==> MagicStands(m, n)
      ensures MagicStands(m, n) ==> (NothingLeft(CutFormat(m, k), n) <==> NothingLeft(m, n))
    {
      UnmarkedCut(m, k, n);
    }
  }

  /**
   * A format that loses power after k writes, and then any number of restarts that lose power as well: the first
   * undisturbed restart ends where an undisturbed format would if and only if the first cut at which the magic mark
   * stands, if any, has nothing left to write.
   */
  lemma {:induction false} RestartsRepairExactly(m: Memory, k: WriteCount, ks: seq<WriteCount>)
    ensures Boot(CutPowerUps(CutFormat(m, k), ks)) == Boot(CutFormat(m, FORMAT_WRITES)) <==> FirstMarkDone(m, [k] + ks)
    decreases |ks|
  {
    hide Boot, CutFormat, HasMagic, MagicStands, NothingLeft, FirstMarkDone;
    var c := CutFormat(m, k);
    MagicAfterCut(m, k);
    if MagicStands(m, k) {
      MarkedRestarts(c, ks);
      CutFormatRepairedExactly(m, k);
      FirstMarkNow(m, k, ks);
    } else {
      FirstMarkLater(m, k, ks);
      SameFirstMark(m, k, ks);
      FormatAgain(m, k);
      if ks == [] {
        CutFormatRepairedExactly(m, k);
        NoCuts(m);
      } else {
        RestartsRepairExactly(c, ks[0], ks[1..]);
        assert [ks[0]] + ks[1..] == ks;
      }
    }
  }

  lemma NoCuts(m: Memory)
    ensures FirstMarkDone(m, [])
  {
  }

  /** First power-ups that are cut, over an EEPROM without the mark. */
  lemma FirstPowerUpsExactly(m: Memory, ks: seq<WriteCount>)
    ensures !HasMagic(m) ==> (Boot(CutPowerUps(m, ks)) == Boot(m) <==> FirstMarkDone(m, ks))
    ensures HasMagic(m) ==> CutPowerUps(m, ks) == m
  {
    hide Boot, CutFormat, HasMagic, FirstMarkDone, Synced;
    if HasMagic(m) {
      MarkedRestarts(m, ks);
    } else {
      BlankBoot(m);
      BootIsSynced(m);
      BootIsSynced(CutFormat(m, FORMAT_WRITES));
      SyncedFromEeprom(Boot(m), Boot(CutFormat(m, FORMAT_WRITES)));
      if ks == [] {
        NoCuts(m);
      } else {
        RestartsRepairExactly(m, ks[0], ks[1..]);
        assert [ks[0]] + ks[1..] == ks;
      }
    }
  }

  /** First power-up over an erased EEPROM, cut after the mark: the terminal restarts with counter 2^32 - 1. */
  lemma ErasedCutKeepsGarbage()
    ensures var erased: Memory := seq(SIZE, _ => 0xFF);
            Boot(erased).seqNo == 0 && Boot(CutFormat(erased, 2)).seqNo == 0xFFFF_FFFF
  {
    var erased: Memory := seq(SIZE, _ => 0xFF);
    var cut := CutFormat(erased, 2);
    assert Boot(erased).seqNo == 0;
    assert forall i :: 10 <= i < 14 ==> cut[i] == 0xFF by {
      hide FormatWrites, CutFormat;
      forall i | 10 <= i < 14
        ensures cut[i] == 0xFF
      {
        CutFormatByte(erased, 2, i);
        FormatAddress(i);
      }
    }
    hide FormatWrites, CutFormat;
    MagicAfterCut(erased, 2);
    BootIsSynced(cut);
  }

  // ---------- Runs with power losses ----------

  /**
   * An operation, or one that a power loss cuts after some of its byte writes; a one-byte write cannot be cut. After a
   * cut format any number of restarts may lose power as well; after the other cuts a restart writes nothing.
   */
  datatype Event =
    | Done(op: Op)
    | Cut(bytes: ByteCount)
    | DeviceIdCut(id: CString, idBytes: IdByteCount)
    | ConfigHashCut(hash: CString, hashBytes: HashByteCount)
    | FormatCut(writes: WriteCount, restarts: seq<WriteCount>)

  function Handle(d: SizedDevice, e: Event): SizedDevice {
    match e
    case Done(op) => Apply(d, op)
    case Cut(k) => CutIncrement(d, k)
    case DeviceIdCut(id, k) => CutDeviceId(d, id, k)
    case ConfigHashCut(hash, k) => CutConfigHash(d, hash, k)
    case FormatCut(k, restarts) => Boot(CutPowerUps(CutFormat(d.eeprom, k), restarts))
  }

  function RunEvents(d: SizedDevice, es: seq<Event>): SizedDevice {
    if es == [] then d else Handle(RunEvents(d, es[..|es| - 1]), es[|es| - 1])
  }

  /** Whatever is cut and wherever, cache and EEPROM agree after the restart. */
  lemma {:induction false} EventsKeepSync(m: Memory, es: seq<Event>)
    ensures Synced(RunEvents(Boot(m), es))
  {
    hide Synced, Boot, Apply, CutIncrement, CutDeviceId, CutConfigHash, CutFormat, CutPowerUps;
    if es == [] {
      BootIsSynced(m);
    } else {
      var before := RunEvents(Boot(m), es[..|es| - 1]);
      EventsKeepSync(m, es[..|es| - 1]);
      match es[|es| - 1]
      case Done(op) => StepKeepsSync(before, op);
      case Cut(k) => CutReads(before, k);
      case DeviceIdCut(id, k) => CutDeviceIdState(before, id, k);
      case ConfigHashCut(hash, k) => CutConfigHashState(before, hash, k);
      case FormatCut(k, restarts) => BootIsSynced(CutPowerUps(CutFormat(before.eeprom, k), restarts));
    }
  }

  /** The sequence numbers that the completed increments returned, in order. */
  function Returned(d: SizedDevice, es: seq<Event>): seq<Word> {
    if es == [] then []
    else
      var front := es[..|es| - 1];
      Returned(d, front) + if es[|es| - 1] == Done(Increment) then [Bumped(RunEvents(d, front).seqNo)] else []
  }

  /** Increments begun, completed or not. */
  function Begun(es: seq<Event>): nat {
    if es == [] then 0
    else Begun(es[..|es| - 1]) + if es[|es| - 1] == Done(Increment) || es[|es| - 1].Cut? then 1 else 0
  }

  /** Every cut increment meets a low byte that ok admits. */
  ghost predicate CutsMeet(d: SizedDevice, es: seq<Event>, ok: Byte -> bool) {
    es != [] ==>
      var front := es[..|es| - 1];
      CutsMeet(d, front, ok) && (es[|es| - 1].Cut? ==> ok(RunEvents(d, front).eeprom[SEQ_ADDR]))
  }

  /** Nothing is formatted, in whole or in part. */
  predicate Unformatted(es: seq<Event>) {
    forall i :: 0 <= i < |es| ==> es[i] != Done(Format) && !es[i].FormatCut?
  }

  ghost predicate Increasing(s: seq<Word>) {
    forall i, j :: 0 <= i < j < |s| ==> s[i] < s[j]
  }

  ghost predicate NoRepeat(s: seq<Word>) {
    forall i, j :: 0 <= i < j < |s| ==> s[i] != s[j]
  }

  /** The counter moves with an increment, returns to zero with a format, and stays otherwise. */
  lemma StepCounter(d: SizedDevice, op: Op)
    requires Synced(d)
    ensures Synced(Apply(d, op))
    ensures Apply(d, op).seqNo == match op case Increment => Bumped(d.seqNo) case Format => 0 case _ => d.seqNo
  {
    hide Synced, Apply;
    StepKeepsSync(d, op);
  }

  /** Other setters, cut or not, leave the counter alone. */
  lemma QuietEvent(d: SizedDevice, e: Event)
    requires Synced(d) && e != Done(Format) && e != Done(Increment) && !e.Cut? && !e.FormatCut?
    ensures Synced(Handle(d, e)) && Handle(d, e).seqNo == d.seqNo
  {
    hide Synced, Apply, CutDeviceId, CutConfigHash;
    match e
    case Done(op) => StepCounter(d, op);
    case DeviceIdCut(id, k) => CutDeviceIdState(d, id, k);
    case ConfigHashCut(hash, k) => CutConfigHashState(d, hash, k);
  }

  /** One event: agreement is kept, and the counter moves up by at most one, unless storage is formatted. */
  lemma EventMovesUp(d: SizedDevice, e: Event)
    requires Synced(d) && e != Done(Format) && !e.FormatCut? && d.seqNo as int + 1 < 0x1_0000_0000
    requires e.Cut? ==> d.eeprom[SEQ_ADDR] != 0xFF
    ensures Synced(Handle(d, e))
    ensures Handle(d, e).seqNo == d.seqNo || (Handle(d, e).seqNo == Bumped(d.seqNo) && (e == Done(Increment) || e.Cut?))
    ensures e == Done(Increment) ==> Handle(d, e).seqNo == Bumped(d.seqNo)
    ensures Bumped(d.seqNo) as int == d.seqNo as int + 1
  {
    hide Synced, Apply, CutIncrement, CutDeviceId, CutConfigHash;
    match e
    case Done(op) =>
      StepCounter(d, op);
    case Cut(k) =>
      IncrementIsAtomicExactlyWithoutCarry(d);
      IncrementKeepsSync(d);
      assert CutIncrement(d, k) == d || CutIncrement(d, k) == Incremented(d);
    case _ =>
      QuietEvent(d, e);
  }

  /** What a run of events has kept. */
  ghost predicate Climbing(d: SizedDevice, es: seq<Event>) {
    var now := RunEvents(d, es);
    && Synced(now)
    && now.seqNo as int <= d.seqNo as int + Begun(es)
    && Increasing(Returned(d, es))
    && forall i :: 0 <= i < |Returned(d, es)| ==> Returned(d, es)[i] <= now.seqNo
  }

  lemma {:induction false} ReturnedClimb(d: SizedDevice, es: seq<Event>, ok: Byte -> bool)
    requires Synced(d) && Unformatted(es) && CutsMeet(d, es, ok) && !ok(0xFF)
    requires d.seqNo as int + Begun(es) < 0x1_0000_0000
    ensures Climbing(d, es)
  {
    if es != [] {
      ReturnedClimb(d, es[..|es| - 1], ok);
      ClimbOn(d, es, ok);
    }
  }

  lemma ClimbOn(d: SizedDevice, es: seq<Event>, ok: Byte -> bool)
    requires es != [] && Unformatted(es) && CutsMeet(d, es, ok) && !ok(0xFF)
    requires d.seqNo as int + Begun(es) < 0x1_0000_0000
    requires Climbing(d, es[..|es| - 1])
    ensures Climbing(d, es)
  {
    var front, last := es[..|es| - 1], es[|es| - 1];
    var now := RunEvents(d, front);
    assert last.Cut? ==> now.eeprom[SEQ_ADDR] != 0xFF;
    hide Synced, Handle, CutsMeet;
    if last == Done(Increment) || last.Cut? {
      assert Begun(es) == Begun(front) + 1;
      EventMovesUp(now, last);
    } else {
      QuietEvent(now, last);
    }
    assert RunEvents(d, es) == Handle(now, last);
    if last == Done(Increment) {
      assert Returned(d, es) == Returned(d, front) + [Bumped(now.seqNo)];
    } else {
      assert Returned(d, es) == Returned(d, front);
    }
    hide Returned, RunEvents;
  }

  /**
   * Before the counter wraps, no sequence number is returned twice, whatever happens in between, if no increment is
   * cut while the low byte is 0xFF.
   */
  lemma NumbersNeverRepeat(m: Memory, es: seq<Event>, ok: Byte -> bool)
    requires Unformatted(es) && CutsMeet(Boot(m), es, ok) && !ok(0xFF)
    requires Boot(m).seqNo as int + Begun(es) < 0x1_0000_0000
    ensures Increasing(Returned(Boot(m), es))
  {
    BootIsSynced(m);
    ReturnedClimb(Boot(m), es, ok);
  }

  // ---------- One cut among completed increments ----------

  function Many(n: nat): (es: seq<Event>)
    ensures |es| == n
  {
    if n == 0 then [] else Many(n - 1) + [Done(Increment)]
  }

  lemma {:induction false} EventsConcat(d: SizedDevice, a: seq<Event>, b: seq<Event>)
    ensures RunEvents(d, a + b) == RunEvents(RunEvents(d, a), b)
    ensures Returned(d, a + b) == Returned(d, a) + Returned(RunEvents(d, a), b)
  {
    hide Handle;
    if b == [] {
      assert a + b == a;
    } else {
      assert (a + b)[..|a + b| - 1] == a + b[..|b| - 1];
      EventsConcat(d, a, b[..|b| - 1]);
    }
  }

  /** Undisturbed increments return the numbers after the counter, one by one. */
  lemma {:induction false} ManyReturn(d: SizedDevice, n: nat)
    requires Synced(d) && d.seqNo as int + n < 0x1_0000_0000
    ensures Synced(RunEvents(d, Many(n))) && RunEvents(d, Many(n)).seqNo as int == d.seqNo as int + n
    ensures |Returned(d, Many(n))| == n
    ensures forall i :: 0 <= i < n ==> Returned(d, Many(n))[i] as int == d.seqNo as int + 1 + i
  {
    hide Synced, RunEvents, Returned;
    if n == 0 {
      NothingReturned(d);
    } else {
      ManyReturn(d, n - 1);
      OneReturn(RunEvents(d, Many(n - 1)));
      EventsConcat(d, Many(n - 1), [Done(Increment)]);
    }
  }

  lemma NothingReturned(d: SizedDevice)
    ensures RunEvents(d, []) == d && Returned(d, []) == []
  {
  }

  lemma OneReturn(d: SizedDevice)
    requires Synced(d) && d.seqNo as int + 1 < 0x1_0000_0000
    ensures var now := RunEvents(d, [Done(Increment)]); Synced(now) && now.seqNo as int == d.seqNo as int + 1
    ensures Returned(d, [Done(Increment)]) == [(d.seqNo as int + 1) as Word]
  {
    hide Synced, Handle;
    assert [Done(Increment)][..0] == [];
    NothingReturned(d);
    EventMovesUp(d, Done(Increment));
  }

  /** n completed increments, one cut after k bytes, then j completed ones. */
  function AroundCut(n: nat, k: ByteCount, j: nat): seq<Event> {
    Many(n) + [Cut(k)] + Many(j)
  }

  lemma CutAlone(d: SizedDevice, k: ByteCount)
    ensures RunEvents(d, [Cut(k)]) == CutIncrement(d, k) && Returned(d, [Cut(k)]) == []
  {
    hide CutIncrement;
    assert [Cut(k)][..0] == [];
    assert RunEvents(d, []) == d && Returned(d, []) == [];
  }

  /** Where a cut leaves a counter that does not wrap: at the old value, at the new one, or one weight below it. */
  lemma TornCases(v: Word, k: ByteCount)
    requires v as int + 1 < 0x1_0000_0000
    ensures 0 <= Torn(v, k) <= v as int + 1
    ensures k == 0 ==> Torn(v, k) == v as int
    ensures k > 0 && (v as int + 1) % Weight(k) != 0 ==> Torn(v, k) == v as int + 1
    ensures (v as int + 1) % Weight(k) == 0 ==> Torn(v, k) == v as int + 1 - Weight(k)
  {
  }

  lemma ReturnedAroundCut(d: SizedDevice, n: nat, k: ByteCount, j: nat)
    requires Synced(d) && d.seqNo as int + n + 1 + j < 0x1_0000_0000
    ensures var r, v := Returned(d, AroundCut(n, k, j)), (d.seqNo as int + n) as Word;
            && |r| == n + j
            && (forall i :: 0 <= i < n ==> r[i] as int == d.seqNo as int + 1 + i)
            && (forall i :: n <= i < n + j ==> r[i] as int == Torn(v, k) + 1 + (i - n))
  {
    hide Synced, CutIncrement, RunEvents, Returned, Many, Torn;
    var old' := RunEvents(d, Many(n));
    ManyReturn(d, n);
    CutAlone(old', k);
    CutReads(old', k);
    TornCases(old'.seqNo, k);
    ManyReturn(CutIncrement(old', k), j);
    EventsConcat(d, Many(n), [Cut(k)]);
    EventsConcat(d, Many(n) + [Cut(k)], Many(j));
  }

  /** Every number that may follow the cut before the counter wraps is new. */
  ghost predicate CutHarmless(d: SizedDevice, n: nat, k: ByteCount) {
    forall j: nat :: d.seqNo as int + n + 1 + j < 0x1_0000_0000 ==> NoRepeat(Returned(d, AroundCut(n, k, j)))
  }

  /**
   * When a power loss leads to a number being returned twice: after n > 0 completed increments, exactly when the cut
   * strikes after k > 0 bytes that all carry.
   */
  lemma CutHarmlessExactly(m: Memory, n: nat, k: ByteCount)
    requires Boot(m).seqNo as int + n + 1 < 0x1_0000_0000
    ensures CutHarmless(Boot(m), n, k) <==> n == 0 || k == 0 || (Boot(m).seqNo as int + n + 1) % Weight(k) != 0
  {
    var d := Boot(m);
    BootIsSynced(m);
    hide Boot, Returned, AroundCut, Synced, Torn;
    var v := (d.seqNo as int + n) as Word;
    TornCases(v, k);
    if n == 0 || k == 0 || (v as int + 1) % Weight(k) != 0 {
      forall j: nat | d.seqNo as int + n + 1 + j < 0x1_0000_0000
        ensures NoRepeat(Returned(d, AroundCut(n, k, j)))
      {
        ReturnedAroundCut(d, n, k, j);
      }
    } else {
      var j: nat := Weight(k);
      BeforeNextWeight(v as int, k);
      ReturnedAroundCut(d, n, k, j - 1);
      var r := Returned(d, AroundCut(n, k, j - 1));
      assert r[n - 1] == r[n + j - 2];
    }
  }

  lemma BeforeNextWeight(v: nat, k: ByteCount)
    requires v + 1 < 0x1_0000_0000 && (v + 1) % Weight(k) == 0
    ensures v + Weight(k) < 0x1_0000_0000 && (k > 0 ==> Weight(k) > 1)
  {
  }

  lemma LowByteCarriesFirst(n: nat, k: ByteCount)
    requires k > 0 && (n + 1) % Weight(k) == 0
    ensures n % 256 == 255
  {
    var q := (n + 1) / Weight(k);
    assert n + 1 == Weight(k) * q;
    var c := match k case 1 => 1 case 2 => 256 case 3 => 65536 case _ => 16777216;
    assert Weight(k) == 256 * c;
    hide Weight;
    LowByteOfMultiple(n, c * q);
  }

  lemma LowByteOfMultiple(n: nat, m: int)
    requires n + 1 == 256 * m
    ensures n % 256 == 255
  {
    assert n == 256 * (m - 1) + 255;
  }

  /** From zero on, after n completed increments: every cut of the next is harmless exactly if n % 256 is not 255. */
  lemma NextCutHarmlessExactly(m: Memory, n: nat)
    requires Boot(m).seqNo == 0 && n + 1 < 0x1_0000_0000
    ensures (forall k: ByteCount :: CutHarmless(Boot(m), n, k)) <==> n % 256 != 255
  {
    assert Weight(1) == 256;
    hide *;
    if n % 256 == 255 {
      CutHarmlessExactly(m, n, 1);
    } else {
      forall k: ByteCount
        ensures CutHarmless(Boot(m), n, k)
      {
        CutHarmlessExactly(m, n, k);
        if k > 0 && (n + 1) % Weight(k) == 0 {
          LowByteCarriesFirst(n, k);
        }
      }
    }
  }

  // ---------- Exactly which cuts are safe ----------

  lemma {:induction false} ManyCutNothing(d: SizedDevice, n: nat, ok: Byte -> bool)
    ensures CutsMeet(d, Many(n), ok) && Begun(Many(n)) == n
  {
    hide RunEvents;
    if n > 0 {
      ManyCutNothing(d, n - 1, ok);
      assert Many(n)[..n - 1] == Many(n - 1);
    }
  }

  lemma {:induction false} ManyIncrement(n: nat)
    ensures forall i :: 0 <= i < n ==> Many(n)[i] == Done(Increment)
  {
    if n > 0 {
      ManyIncrement(n - 1);
    }
  }

  lemma LowByteOf255(d: SizedDevice)
    requires Synced(d) && d.seqNo == 255
    ensures d.eeprom[SEQ_ADDR] == 0xFF
  {
  }

  /** 255 increments, one cut after its first byte, one more: the number 1 is returned twice. */
  lemma CutAtCarryRepeats(m: Memory)
    requires Boot(m).seqNo == 0
    ensures var r := Returned(Boot(m), Many(255) + [Cut(1)] + [Done(Increment)]);
            |r| == 256 && r[0] == 1 && r[255] == 1
  {
    hide *;
    BootIsSynced(m);
    OneMore(255, 1);
    TornAt255();
    ReturnedAroundCut(Boot(m), 255, 1, 1);
  }

  lemma OneMore(n: nat, k: ByteCount)
    ensures AroundCut(n, k, 1) == Many(n) + [Cut(k)] + [Done(Increment)]
  {
    assert Many(0) == [];
  }

  lemma TornAt255()
    ensures Torn(255, 1) == 0
  {
  }

  /** That run is one of those the rule speaks of, unless ok excludes 0xFF. */
  lemma CutAtCarryAdmitted(d: SizedDevice, ok: Byte -> bool)
    requires Synced(d) && d.seqNo == 0 && ok(0xFF)
    ensures var es := Many(255) + [Cut(1)] + [Done(Increment)];
            Unformatted(es) && CutsMeet(d, es, ok) && Begun(es) == 257
  {
    var most := Many(255) + [Cut(1)];
    hide Synced, RunEvents, Many;
    ManyIncrement(255);
    ManyCutNothing(d, 255, ok);
    ManyReturn(d, 255);
    LowByteOf255(RunEvents(d, Many(255)));
    assert most[..255] == Many(255) && (most + [Done(Increment)])[..256] == most;
  }

  /** An EEPROM that was never formatted, all zero. */
  lemma Blank() returns (m: Memory)
    ensures Boot(m).seqNo == 0
  {
    m := Zeros(SIZE);
  }

  lemma RunThatRepeats(ok: Byte -> bool) returns (m: Memory)
    requires ok(0xFF)
    ensures var es := Many(255) + [Cut(1)] + [Done(Increment)];
            && Unformatted(es) && CutsMeet(Boot(m), es, ok) && Boot(m).seqNo as int + Begun(es) < 0x1_0000_0000
            && |Returned(Boot(m), es)| == 256 && Returned(Boot(m), es)[0] == Returned(Boot(m), es)[255]
  {
    hide *;
    m := Blank();
    BootIsSynced(m);
    CutAtCarryAdmitted(Boot(m), ok);
    CutAtCarryRepeats(m);
  }

  /** No number is returned twice in any run without formatting whose cut increments meet only low bytes in ok. */
  ghost predicate NeverTwice(ok: Byte -> bool) {
    forall m: Memory, es: seq<Event> ::
      Unformatted(es) && CutsMeet(Boot(m), es, ok) && Boot(m).seqNo as int + Begun(es) < 0x1_0000_0000
      ==> NoRepeat(Returned(Boot(m), es))
  }

  /**
   * Which low bytes an increment may be cut at: before the counter wraps no run returns a number twice if and only if
   * no increment is cut at 0xFF.
   */
  lemma NumbersNeverRepeatExactly(ok: Byte -> bool)
    ensures NeverTwice(ok) <==> !ok(0xFF)
  {
    hide Boot, Synced, Returned, Begun, CutsMeet, Unformatted, Many;
    if !ok(0xFF) {
      forall m: Memory, es: seq<Event> |
          Unformatted(es) && CutsMeet(Boot(m), es, ok) && Boot(m).seqNo as int + Begun(es) < 0x1_0000_0000
        ensures NoRepeat(Returned(Boot(m), es))
      {
        NumbersNeverRepeat(m, es, ok);
      }
    } else {
      var m := RunThatRepeats(ok);
      assert !NoRepeat(Returned(Boot(m), Many(255) + [Cut(1)] + [Done(Increment)]));
    }
  }
}
