/** The four hash encodings. The digest, the JSON texts and the signature scheme are parameters. */
module Hashing {
  import opened Prelude
  import opened Text
  import opened Sorting
  import opened Records

  /** SHA-256 (FIPS 180-4), canonical JSON texts, and Ed25519 (RFC 8032) as an ideal signature. */
  datatype Primitives = Primitives(
    sha256: string -> string,
    eventJson: EventData -> string,
    configJson: ConfigData -> string,
    manifestJson: ManifestData -> string,
    archiveJson: ArchiveBody -> string,
    publicKey: string -> string,
    sign: (string, SignedPayload) -> string,
    verify: (string, SignedPayload, string) -> bool)
  {
    /** hexdigest() writes lower-case hexadecimal, and what a key signs its public key accepts. */
    ghost predicate Sound() {
      && (forall s :: IsHex(sha256(s)))
      && (forall k, m :: verify(publicKey(k), m, sign(k, m)))
    }
  }

  /** The text that is hashed for an audit entry. */
  function EntryText(sequenceNumber: int, eventType: string, eventData: Option<string>,
                     timestamp: string, previousHash: Option<string>): string
  {
    Join([Str(sequenceNumber), eventType, OrElse(eventData, ""), timestamp, OrElse(previousHash, "GENESIS")])
  }

  function EntryHash(p: Primitives, sequenceNumber: int, eventType: string, eventData: Option<string>,
                     timestamp: string, previousHash: Option<string>): string
  {
    p.sha256(EntryText(sequenceNumber, eventType, eventData, timestamp, previousHash))
  }

  function BallotText(electionId: string, sessionId: string, candidateId: string, deviceId: string,
                      sequenceNumber: int, timestamp: string): string
  {
    Join([electionId, sessionId, candidateId, deviceId, Str(sequenceNumber), timestamp])
  }

  function BallotHash(p: Primitives, electionId: string, sessionId: string, candidateId: string,
                      deviceId: string, sequenceNumber: int, timestamp: string): string
  {
    p.sha256(BallotText(electionId, sessionId, candidateId, deviceId, sequenceNumber, timestamp))
  }

  predicate PositionLe(a: CandidateInfo, b: CandidateInfo) {
    a.position <= b.position
  }

  lemma PositionOrder()
    ensures TotalPreorder(PositionLe)
  {
  }

  function ConfigurationHash(p: Primitives, electionId: string, candidates: seq<CandidateInfo>): string {
    p.sha256(p.configJson(ConfigData(electionId, Sort(PositionLe, candidates))))
  }

  function ManifestHash(p: Primitives, data: ManifestData): string {
    p.sha256(p.manifestJson(data))
  }

  /** With distinct positions the configuration hash is a function of the set of candidates, not of their order. */
  lemma ConfigurationHashCanonical(p: Primitives, electionId: string, a: seq<CandidateInfo>, b: seq<CandidateInfo>)
    requires forall i, j :: 0 <= i < j < |a| ==> a[i].position != a[j].position
    requires multiset(a) == multiset(b)
    ensures ConfigurationHash(p, electionId, a) == ConfigurationHash(p, electionId, b)
  {
    PositionOrder();
    SortCanonical(PositionLe, a, b);
  }

  /** A ballot hash pins every field of the ballot, up to a collision of the digest on the two texts. */
  lemma BallotHashBinds(p: Primitives, e: string, s: string, c: string, d: string, n: int, t: string,
                        e': string, s': string, c': string, d': string, n': int, t': string)
    requires PipeFree(e) && PipeFree(s) && PipeFree(c) && PipeFree(d) && PipeFree(t)
    requires PipeFree(e') && PipeFree(s') && PipeFree(c') && PipeFree(d') && PipeFree(t')
    requires BallotHash(p, e, s, c, d, n, t) == BallotHash(p, e', s', c', d', n', t')
    ensures (e == e' && s == s' && c == c' && d == d' && n == n' && t == t')
         || BallotText(e, s, c, d, n, t) != BallotText(e', s', c', d', n', t')
  {
    if BallotText(e, s, c, d, n, t) == BallotText(e', s', c', d', n', t') {
      StrPipeFree(n);
      StrPipeFree(n');
      var a := [e, s, c, d, Str(n), t];
      var b := [e', s', c', d', Str(n'), t'];
      JoinInjective(a, b);
      assert a[0] == b[0] && a[1] == b[1] && a[2] == b[2] && a[3] == b[3] && a[4] == b[4] && a[5] == b[5];
      StrInjective(n, n');
    }
  }

  /** The texts of two audit entries coincide only when every hashed field does. */
  lemma EntryTextBinds(n: int, e: string, d: Option<string>, t: string, h: Option<string>,
                       n': int, e': string, d': Option<string>, t': string, h': Option<string>)
    requires PipeFree(e) && PipeFree(t) && PipeFree(OrElse(h, "GENESIS"))
    requires PipeFree(e') && PipeFree(t') && PipeFree(OrElse(h', "GENESIS"))
    requires EntryText(n, e, d, t, h) == EntryText(n', e', d', t', h')
    ensures n == n' && e == e' && OrElse(d, "") == OrElse(d', "") && t == t'
    ensures OrElse(h, "GENESIS") == OrElse(h', "GENESIS")
  {
    StrPipeFree(n);
    StrPipeFree(n');
    JoinFiveInjective(Str(n), e, OrElse(d, ""), t, OrElse(h, "GENESIS"),
                      Str(n'), e', OrElse(d', ""), t', OrElse(h', "GENESIS"));
    StrInjective(n, n');
  }

  /** Whatever the fields between them hold, number and predecessor of an audit entry are read off its text. */
  lemma EntryTextOuter(n: int, e: string, d: Option<string>, t: string, h: Option<string>,
                       n': int, e': string, d': Option<string>, t': string, h': Option<string>)
    requires PipeFree(OrElse(h, "GENESIS")) && PipeFree(OrElse(h', "GENESIS"))
    requires EntryText(n, e, d, t, h) == EntryText(n', e', d', t', h')
    ensures n == n' && OrElse(h, "GENESIS") == OrElse(h', "GENESIS")
  {
    StrPipeFree(n);
    StrPipeFree(n');
    JoinFiveOuter(Str(n), e, OrElse(d, ""), t, OrElse(h, "GENESIS"),
                  Str(n'), e', OrElse(d', ""), t', OrElse(h', "GENESIS"));
    StrInjective(n, n');
  }

  /** The text of an entry without any separator in its fields belongs to no other entry. */
  lemma EntryTextPlain(n: int, e: string, d: Option<string>, t: string, h: Option<string>,
                       n': int, e': string, d': Option<string>, t': string, h': Option<string>)
    requires PipeFree(e) && PipeFree(OrElse(d, "")) && PipeFree(t) && PipeFree(OrElse(h, "GENESIS"))
    requires EntryText(n, e, d, t, h) == EntryText(n', e', d', t', h')
    ensures e == e' && OrElse(d, "") == OrElse(d', "") && t == t'
  {
    StrPipeFree(n);
    JoinFivePlain(Str(n), e, OrElse(d, ""), t, OrElse(h, "GENESIS"),
                  Str(n'), e', OrElse(d', ""), t', OrElse(h', "GENESIS"));
  }
}
