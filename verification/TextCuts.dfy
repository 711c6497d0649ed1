/** A power loss within the writes of the device ID or the configuration hash: what the restart shows, and when a
    write is atomic under every such loss. */
module TextCuts {
  import opened Prelude
  import opened Storage
  import opened Persistence

  // ---------- A cut text ----------

  /** Two byte sequences of one length that differ at one position at most. */
  predicate DifferOnce(a: seq<Byte>, b: seq<Byte>)
    requires |a| == |b|
  {
    forall i, j :: 0 <= i < j < |a| ==> a[i] == b[i] || a[j] == b[j]
  }

  /** A write cut after k bytes has changed nothing, or has nothing left to change, exactly when these bytes agree. */
  lemma CutWrite(m: Memory, at: nat, bytes: seq<Byte>, k: nat)
    requires at + |bytes| <= SIZE && k <= |bytes|
    ensures Overwrite(m, at, bytes[..k]) == m <==> bytes[..k] == m[at..at + k]
    ensures Overwrite(m, at, bytes[..k]) == Overwrite(m, at, bytes) <==> bytes[k..] == m[at + k..at + |bytes|]
  {
    var cut, full := Overwrite(m, at, bytes[..k]), Overwrite(m, at, bytes);
    assert cut[at..at + k] == bytes[..k] && cut[at + k..] == m[at + k..];
    assert full[at + k..at + |bytes|] == bytes[k..] && cut[at + k..at + |bytes|] == m[at + k..at + |bytes|];
    if bytes[..k] == m[at..at + k] {
      assert m == m[..at] + m[at..at + k] + m[at + k..];
    }
    if bytes[k..] == m[at + k..at + |bytes|] {
      assert m[at + k..] == m[at + k..at + |bytes|] + m[at + |bytes|..];
      assert bytes == bytes[..k] + bytes[k..];
    }
  }

  /** A write leaves the old or the new bytes at every cut exactly when they differ at one position at most. */
  lemma WriteIsAtomicExactly(m: Memory, at: nat, bytes: seq<Byte>)
    requires at + |bytes| <= SIZE
    ensures (forall k: nat :: k <= |bytes| ==>
               Overwrite(m, at, bytes[..k]) == m || Overwrite(m, at, bytes[..k]) == Overwrite(m, at, bytes))
            <==> DifferOnce(m[at..at + |bytes|], bytes)
  {
    hide Overwrite;
    var old' := m[at..at + |bytes|];
    forall k: nat | k <= |bytes|
      ensures Overwrite(m, at, bytes[..k]) == m <==> bytes[..k] == old'[..k]
      ensures Overwrite(m, at, bytes[..k]) == Overwrite(m, at, bytes) <==> bytes[k..] == old'[k..]
    {
      CutWrite(m, at, bytes, k);
    }
    CutsAgree(old', bytes);
  }

  lemma CutsAgree(a: seq<Byte>, b: seq<Byte>)
    requires |a| == |b|
    ensures (forall k: nat :: k <= |b| ==> b[..k] == a[..k] || b[k..] == a[k..]) <==> DifferOnce(a, b)
  {
    if DifferOnce(a, b) {
      forall k: nat | k <= |b| && b[..k] != a[..k]
        ensures b[k..] == a[k..]
      {
        var i :| 0 <= i < k && b[i] != a[i];
        assert forall j :: k <= j < |b| ==> a[j] == b[j];
      }
    }
    if forall k: nat :: k <= |b| ==> b[..k] == a[..k] || b[k..] == a[k..] {
      forall i, j | 0 <= i < j < |a|
        ensures a[i] == b[i] || a[j] == b[j]
      {
        var k: nat := i + 1;
        if b[..k] == a[..k] {
          assert b[..k][i] == b[i];
        } else {
          assert b[k..][j - k] == b[j];
        }
      }
    }
  }

  lemma {:induction false} TextGoesOn(a: CString, b: seq<Byte>)
    ensures CStr(a + b) == a + CStr(b)
  {
    NulGoesOn(a, b);
  }

  lemma {:induction false} NulGoesOn(a: CString, b: seq<Byte>)
    ensures NulAt(a + b) == |a| + NulAt(b)
  {
    if a == [] {
      assert a + b == b;
    } else {
      assert (a + b)[1..] == a[1..] + b;
      NulGoesOn(a[1..], b);
    }
  }

  /** The bytes a setter leaves when it is cut after k of them: new in front, old behind. */
  function Mixed(old': seq<Byte>, s: CString, k: nat): seq<Byte>
    requires |s| <= |old'| && k <= |old'|
  {
    (s + Zeros(|old'| - |s|))[..k] + old'[k..]
  }

  /**
   * What is shown after a cut: the new text once its NUL is written, before that a beginning of the new text with the
   * end of the old bytes; so exactly when it is the new text, and exactly when it is still the old one.
   */
  lemma MixedText(old': seq<Byte>, s: CString, k: nat)
    requires |s| <= |old'| && k <= |old'|
    ensures var shown, was := CStr(Mixed(old', s, k)), CStr(old');
            && shown == (if k > |s| then s else s[..k] + CStr(old'[k..]))
            && (shown == s <==> k > |s| || CStr(old'[k..]) == s[k..])
            && (shown == was <==> if k > |s| then s == was else k <= |was| && s[..k] == was[..k])
  {
    if k > |s| {
      var rest := Zeros(k - |s|) + old'[k..];
      assert Mixed(old', s, k) == s + rest;
      assert rest[0] == 0;
      TextGoesOn(s, rest);
    } else {
      assert Mixed(old', s, k) == s[..k] + old'[k..];
      TextGoesOn(s[..k], old'[k..]);
      assert s == s[..k] + s[k..];
      OldTextFrom(old', s, k);
    }
  }

  lemma OldTextFrom(old': seq<Byte>, s: CString, k: nat)
    requires k <= |s| <= |old'|
    ensures s[..k] + CStr(old'[k..]) == CStr(old') <==> k <= |CStr(old')| && s[..k] == CStr(old')[..k]
  {
    var was := CStr(old');
    if k <= |was| {
      var front: CString := was[..k];
      assert old' == front + old'[k..];
      TextGoesOn(front, old'[k..]);
    }
  }

  // ---------- A cut setter ----------

  type IdByteCount = k: nat | k <= 8

  type HashByteCount = k: nat | k <= 65

  /** Power fails after k of the eight bytes of the device ID are written; the terminal then restarts. */
  function CutDeviceId(d: SizedDevice, id: CString, k: IdByteCount): SizedDevice {
    Boot(Overwrite(d.eeprom, DEVICE_ID_ADDR, WithDeviceId(d, Some(id)).deviceId[..8][..k]))
  }

  /** The same for the 65 bytes of the configuration hash. */
  function CutConfigHash(d: SizedDevice, hash: CString, k: HashByteCount): SizedDevice {
    Boot(Overwrite(d.eeprom, CONFIG_HASH_ADDR, (WithConfigHash(d, Some(hash)).configHash[..64] + [0])[..k]))
  }

  lemma NewIdBytes(d: SizedDevice, id: CString)
    requires Synced(d)
    ensures WithDeviceId(d, Some(id)).deviceId[..8] == Truncate(id, 7) + Zeros(8 - |Truncate(id, 7)|)
    ensures WithDeviceId(d, Some(id)).eeprom
            == Overwrite(d.eeprom, DEVICE_ID_ADDR, WithDeviceId(d, Some(id)).deviceId[..8])
  {
  }

  lemma NewHashBytes(d: SizedDevice, hash: CString)
    requires Synced(d)
    ensures WithConfigHash(d, Some(hash)).configHash[..64] + [0]
            == Truncate(hash, 64) + Zeros(65 - |Truncate(hash, 64)|)
    ensures WithConfigHash(d, Some(hash)).eeprom
            == Overwrite(d.eeprom, CONFIG_HASH_ADDR, WithConfigHash(d, Some(hash)).configHash[..64] + [0])
  {
  }

  /** A cut write above the magic mark: the restart adopts the EEPROM as it stands. */
  lemma CutAdopted(d: SizedDevice, at: nat, bytes: seq<Byte>)
    requires Synced(d) && 2 <= at && at + |bytes| <= SIZE
    ensures var c := Boot(Overwrite(d.eeprom, at, bytes)); Synced(c) && c.eeprom == Overwrite(d.eeprom, at, bytes)
  {
    BootIsSynced(Overwrite(d.eeprom, at, bytes));
  }

  /** Two devices in agreement whose EEPROMs differ within one text only. */
  lemma OtherSettingsStay(d: SizedDevice, c: SizedDevice, lo: nat, hi: nat)
    requires Synced(d) && Synced(c) && SameOutside(d.eeprom, c.eeprom, lo, hi)
    requires || (lo == DEVICE_ID_ADDR && hi == DEVICE_ID_ADDR + 8)
             || (lo == CONFIG_HASH_ADDR && hi == CONFIG_HASH_ADDR + 65)
    ensures lo == DEVICE_ID_ADDR ==>
              Cached(c) == Cached(d).(deviceId := CStr(c.eeprom[DEVICE_ID_ADDR..DEVICE_ID_ADDR + 7]))
    ensures lo == CONFIG_HASH_ADDR ==>
              Cached(c) == Cached(d).(configHash := CStr(c.eeprom[CONFIG_HASH_ADDR..CONFIG_HASH_ADDR + 64]))
  {
    SyncedSettings(d);
    SyncedSettings(c);
    SameSlice(d.eeprom, c.eeprom, lo, hi, SEQ_ADDR, SEQ_ADDR + 4);
    SameWord(d.eeprom, c.eeprom, SEQ_ADDR);
    if lo == DEVICE_ID_ADDR {
      SameSlice(d.eeprom, c.eeprom, lo, hi, CONFIG_HASH_ADDR, CONFIG_HASH_ADDR + 64);
    } else {
      SameSlice(d.eeprom, c.eeprom, lo, hi, DEVICE_ID_ADDR, DEVICE_ID_ADDR + 7);
    }
  }

  lemma CutSlice(m: Memory, at: nat, bytes: seq<Byte>, k: nat)
    requires at + |bytes| <= SIZE && k <= |bytes|
    ensures var w := Overwrite(m, at, bytes[..k]);
            && SameOutside(m, w, at, at + |bytes|)
            && w[at..at + |bytes|] == bytes[..k] + m[at..at + |bytes|][k..]
  {
  }

  /** A cut device ID write disturbs nothing but the ID, of which the new bytes are in front and the old ones behind. */
  lemma CutDeviceIdState(d: SizedDevice, id: CString, k: IdByteCount)
    requires Synced(d)
    ensures var c, s := CutDeviceId(d, id, k), Truncate(id, 7);
            && Synced(c)
            && c.eeprom[DEVICE_ID_ADDR..DEVICE_ID_ADDR + 8] == Mixed(d.eeprom[DEVICE_ID_ADDR..DEVICE_ID_ADDR + 8], s, k)
            && Cached(c) == Cached(d).(deviceId := CStr(c.eeprom[DEVICE_ID_ADDR..DEVICE_ID_ADDR + 7]))
  {
    hide Synced, Boot, Overwrite, WithDeviceId, Truncate, Cached, CStr, SameOutside;
    var bytes := WithDeviceId(d, Some(id)).deviceId[..8];
    NewIdBytes(d, id);
    CutSlice(d.eeprom, DEVICE_ID_ADDR, bytes, k);
    CutAdopted(d, DEVICE_ID_ADDR, bytes[..k]);
    OtherSettingsStay(d, CutDeviceId(d, id, k), DEVICE_ID_ADDR, DEVICE_ID_ADDR + 8);
  }

  /** The same for a cut write of the configuration hash. */
  lemma CutConfigHashState(d: SizedDevice, hash: CString, k: HashByteCount)
    requires Synced(d)
    ensures var c, s := CutConfigHash(d, hash, k), Truncate(hash, 64);
            && Synced(c)
            && c.eeprom[CONFIG_HASH_ADDR..CONFIG_HASH_ADDR + 65]
               == Mixed(d.eeprom[CONFIG_HASH_ADDR..CONFIG_HASH_ADDR + 65], s, k)
            && Cached(c) == Cached(d).(configHash := CStr(c.eeprom[CONFIG_HASH_ADDR..CONFIG_HASH_ADDR + 64]))
  {
    hide Synced, Boot, Overwrite, WithConfigHash, Truncate, Cached, CStr, SameOutside;
    var bytes := WithConfigHash(d, Some(hash)).configHash[..64] + [0];
    NewHashBytes(d, hash);
    CutSlice(d.eeprom, CONFIG_HASH_ADDR, bytes, k);
    CutAdopted(d, CONFIG_HASH_ADDR, bytes[..k]);
    OtherSettingsStay(d, CutConfigHash(d, hash, k), CONFIG_HASH_ADDR, CONFIG_HASH_ADDR + 65);
  }

  // ---------- When a cut is harmless ----------

  /** A field of n bytes for the text and one for its NUL, cut after k bytes: what is read of the first n. */
  lemma MixedField(field: seq<Byte>, s: CString, k: nat)
    requires |s| < |field| && k <= |field|
    ensures var n := |field| - 1;
            var shown, was := CStr(Mixed(field, s, k)[..n]), CStr(field[..n]);
            && shown == (if k > |s| then s else s[..k] + CStr(field[..n][k..]))
            && (shown == s <==> k > |s| || CStr(field[..n][k..]) == s[k..])
            && (shown == was <==> if k > |s| then s == was else k <= |was| && s[..k] == was[..k])
  {
    var n := |field| - 1;
    var least := if k < n then k else n;
    assert Mixed(field, s, k)[..n] == Mixed(field[..n], s, least);
    MixedText(field[..n], s, least);
  }

  lemma FieldFront(m: Memory, at: nat, n: nat)
    requires at + n < SIZE
    ensures m[at..at + (n + 1)][..n] == m[at..at + n]
  {
  }

  lemma TruncateBound(s: CString, n: nat)
    ensures |Truncate(s, n)| <= n
  {
  }

  /**
   * The device ID after a power loss: the new ID once its NUL is written; before that k new characters and then the end
   * of the old bytes. It is the new one, or still the old one, exactly as follows; otherwise it is a mixture.
   */
  lemma CutDeviceIdShows(d: SizedDevice, id: CString, k: IdByteCount)
    requires Synced(d)
    ensures var shown, was, s := Cached(CutDeviceId(d, id, k)).deviceId, Cached(d).deviceId, Truncate(id, 7);
            var bytes := d.eeprom[DEVICE_ID_ADDR..DEVICE_ID_ADDR + 7];
            && shown == (if k > |s| then s else s[..k] + CStr(bytes[k..]))
            && (shown == s <==> k > |s| || CStr(bytes[k..]) == s[k..])
            && (shown == was <==> if k > |s| then s == was else k <= |was| && s[..k] == was[..k])
  {
    hide Synced, Mixed, CStr, CutDeviceId, Cached, Truncate, ReadWord;
    var c := CutDeviceId(d, id, k);
    TruncateBound(id, 7);
    SyncedSettings(d);
    CutDeviceIdState(d, id, k);
    FieldFront(d.eeprom, DEVICE_ID_ADDR, 7);
    FieldFront(c.eeprom, DEVICE_ID_ADDR, 7);
    MixedField(d.eeprom[DEVICE_ID_ADDR..DEVICE_ID_ADDR + 8], Truncate(id, 7), k);
  }

  lemma CutConfigHashShows(d: SizedDevice, hash: CString, k: HashByteCount)
    requires Synced(d)
    ensures var shown, was, s := Cached(CutConfigHash(d, hash, k)).configHash, Cached(d).configHash, Truncate(hash, 64);
            var bytes := d.eeprom[CONFIG_HASH_ADDR..CONFIG_HASH_ADDR + 64];
            && shown == (if k > |s| then s else s[..k] + CStr(bytes[k..]))
            && (shown == s <==> k > |s| || CStr(bytes[k..]) == s[k..])
            && (shown == was <==> if k > |s| then s == was else k <= |was| && s[..k] == was[..k])
  {
    hide Synced, Mixed, CStr, CutConfigHash, Cached, Truncate, ReadWord;
    var c := CutConfigHash(d, hash, k);
    TruncateBound(hash, 64);
    SyncedSettings(d);
    CutConfigHashState(d, hash, k);
    FieldFront(d.eeprom, CONFIG_HASH_ADDR, 64);
    FieldFront(c.eeprom, CONFIG_HASH_ADDR, 64);
    MixedField(d.eeprom[CONFIG_HASH_ADDR..CONFIG_HASH_ADDR + 65], Truncate(hash, 64), k);
  }

  /** Whole states: the restart is in the state before, or in the state after, exactly when the EEPROM is. */
  lemma CutDeviceIdEnds(d: SizedDevice, id: CString, k: IdByteCount)
    requires Synced(d)
    ensures var bytes := WithDeviceId(d, Some(id)).deviceId[..8];
            var w := Overwrite(d.eeprom, DEVICE_ID_ADDR, bytes[..k]);
            && (CutDeviceId(d, id, k) == d <==> w == d.eeprom)
            && (CutDeviceId(d, id, k) == WithDeviceId(d, Some(id)) <==> w == Overwrite(d.eeprom, DEVICE_ID_ADDR, bytes))
  {
    hide Synced, Boot, Overwrite, WithDeviceId;
    NewIdBytes(d, id);
    CutAdopted(d, DEVICE_ID_ADDR, WithDeviceId(d, Some(id)).deviceId[..8][..k]);
    DeviceIdKeepsSync(d, id);
    if CutDeviceId(d, id, k).eeprom == d.eeprom {
      SyncedFromEeprom(CutDeviceId(d, id, k), d);
    }
    if CutDeviceId(d, id, k).eeprom == WithDeviceId(d, Some(id)).eeprom {
      SyncedFromEeprom(CutDeviceId(d, id, k), WithDeviceId(d, Some(id)));
    }
  }

  lemma CutConfigHashEnds(d: SizedDevice, hash: CString, k: HashByteCount)
    requires Synced(d)
    ensures var bytes := WithConfigHash(d, Some(hash)).configHash[..64] + [0];
            var w := Overwrite(d.eeprom, CONFIG_HASH_ADDR, bytes[..k]);
            && (CutConfigHash(d, hash, k) == d <==> w == d.eeprom)
            && (CutConfigHash(d, hash, k) == WithConfigHash(d, Some(hash))
                <==> w == Overwrite(d.eeprom, CONFIG_HASH_ADDR, bytes))
  {
    hide Synced, Boot, Overwrite, WithConfigHash;
    NewHashBytes(d, hash);
    CutAdopted(d, CONFIG_HASH_ADDR, (WithConfigHash(d, Some(hash)).configHash[..64] + [0])[..k]);
    ConfigHashKeepsSync(d, hash);
    if CutConfigHash(d, hash, k).eeprom == d.eeprom {
      SyncedFromEeprom(CutConfigHash(d, hash, k), d);
    }
    if CutConfigHash(d, hash, k).eeprom == WithConfigHash(d, Some(hash)).eeprom {
      SyncedFromEeprom(CutConfigHash(d, hash, k), WithConfigHash(d, Some(hash)));
    }
  }

  /** Setting the device ID leaves the old or the new state at every cut exactly when at most one byte changes. */
  lemma SetDeviceIdIsAtomicExactly(d: SizedDevice, id: CString)
    requires Synced(d)
    ensures (forall k: IdByteCount :: CutDeviceId(d, id, k) == d || CutDeviceId(d, id, k) == WithDeviceId(d, Some(id)))
            <==> DifferOnce(d.eeprom[DEVICE_ID_ADDR..DEVICE_ID_ADDR + 8], WithDeviceId(d, Some(id)).deviceId[..8])
  {
    hide Synced, Overwrite, WithDeviceId, CutDeviceId, DifferOnce;
    var bytes := WithDeviceId(d, Some(id)).deviceId[..8];
    WriteIsAtomicExactly(d.eeprom, DEVICE_ID_ADDR, bytes);
    forall k: IdByteCount
      ensures CutDeviceId(d, id, k) == d <==> Overwrite(d.eeprom, DEVICE_ID_ADDR, bytes[..k]) == d.eeprom
      ensures CutDeviceId(d, id, k) == WithDeviceId(d, Some(id)) <==>
              Overwrite(d.eeprom, DEVICE_ID_ADDR, bytes[..k]) == Overwrite(d.eeprom, DEVICE_ID_ADDR, bytes)
    {
      CutDeviceIdEnds(d, id, k);
    }
  }

  /** Likewise for the configuration hash. */
  lemma SetConfigHashIsAtomicExactly(d: SizedDevice, hash: CString)
    requires Synced(d)
    ensures (forall k: HashByteCount ::
               CutConfigHash(d, hash, k) == d || CutConfigHash(d, hash, k) == WithConfigHash(d, Some(hash)))
            <==> DifferOnce(d.eeprom[CONFIG_HASH_ADDR..CONFIG_HASH_ADDR + 65],
                            WithConfigHash(d, Some(hash)).configHash[..64] + [0])
  {
    hide Synced, Overwrite, WithConfigHash, CutConfigHash, DifferOnce;
    var bytes := WithConfigHash(d, Some(hash)).configHash[..64] + [0];
    WriteIsAtomicExactly(d.eeprom, CONFIG_HASH_ADDR, bytes);
    forall k: HashByteCount
      ensures CutConfigHash(d, hash, k) == d <==> Overwrite(d.eeprom, CONFIG_HASH_ADDR, bytes[..k]) == d.eeprom
      ensures CutConfigHash(d, hash, k) == WithConfigHash(d, Some(hash)) <==>
              Overwrite(d.eeprom, CONFIG_HASH_ADDR, bytes[..k]) == Overwrite(d.eeprom, CONFIG_HASH_ADDR, bytes)
    {
      CutConfigHashEnds(d, hash, k);
    }
  }
}
