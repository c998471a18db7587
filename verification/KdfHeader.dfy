/** The packed 36-byte header that tells how a key was derived (`kdf_config` in
    support/src/utils/encryption.cpp and support/include/utils/encryption.hpp). The hash and the derivation of
    sub-keys are parameters. */
module KdfHeader {
  import opened Bytes

  const SIZE: nat := 36

  /** The enumerations are single bytes; `uniqueId` and `checksum` are 64 bits wide. */
  datatype KdfConfig = KdfConfig(version: byte, kdf: byte, memlimit: byte, opslimit: byte, uniqueId: nat,
                                 salt: seq<byte>, checksum: nat)

  type Hash = seq<byte> -> seq<byte>

  ghost predicate IsHash64(hash: Hash) {
    forall data :: |hash(data)| == 8
  }

  predicate FitsTypes(cfg: KdfConfig) {
    cfg.uniqueId < Power(8) && |cfg.salt| == 16 && cfg.checksum < Power(8)
  }

  // ---- byte order ----

  /** 256 to the `count`. */
  function Power(count: nat): (p: nat)
    ensures p > 0
  {
    if count == 0 then 1 else 256 * Power(count - 1)
  }

  function BigEndian(n: nat, count: nat): (r: seq<byte>)
    ensures |r| == count
  {
    if count == 0 then [] else BigEndian(n / 256, count - 1) + [n % 256]
  }

  function FromBigEndian(s: seq<byte>): (n: nat)
    ensures n < Power(|s|)
  {
    if s == [] then 0 else FromBigEndian(s[..|s| - 1]) * 256 + s[|s| - 1]
  }

  function FromLittleEndian(s: seq<byte>): (n: nat)
    ensures n < Power(|s|)
  {
    if s == [] then 0 else s[0] + 256 * FromLittleEndian(s[1..])
  }

  lemma {:induction false} BigEndianBack(n: nat, count: nat)
    requires n < Power(count)
    ensures FromBigEndian(BigEndian(n, count)) == n
  {
    if count > 0 {
      BigEndianBack(n / 256, count - 1);
      assert BigEndian(n, count)[..count - 1] == BigEndian(n / 256, count - 1);
    }
  }

  lemma {:induction false} FromBigEndianBack(s: seq<byte>)
    ensures BigEndian(FromBigEndian(s), |s|) == s
  {
    hide Power;
    if s != [] {
      var front, low := s[..|s| - 1], s[|s| - 1];
      FromBigEndianBack(front);
      SplitByte(FromBigEndian(front), low);
      assert BigEndian(FromBigEndian(s), |s|) == BigEndian(FromBigEndian(front), |front|) + [low];
      assert s == front + [low];
    }
  }

  lemma SplitByte(high: nat, low: byte)
    ensures (high * 256 + low) / 256 == high && (high * 256 + low) % 256 == low
  {
  }

  /** Byte `i` as a number. */
  function Num(s: seq<byte>, i: nat): nat
    requires i < |s|
  {
    s[i]
  }

  /** Eight bytes as a number, the first byte being the most significant. */
  function BigWord(s: seq<byte>): nat
    requires |s| == 8
  {
    Num(s, 0) * 0x100_0000_0000_0000 + Num(s, 1) * 0x1_0000_0000_0000 + Num(s, 2) * 0x100_0000_0000 +
    Num(s, 3) * 0x1_0000_0000 + Num(s, 4) * 0x100_0000 + Num(s, 5) * 0x1_0000 + Num(s, 6) * 0x100 + Num(s, 7)
  }

  /** And with the first byte being the least significant. */
  function LittleWord(s: seq<byte>): nat
    requires |s| == 8
  {
    Num(s, 0) + Num(s, 1) * 0x100 + Num(s, 2) * 0x1_0000 + Num(s, 3) * 0x100_0000 + Num(s, 4) * 0x1_0000_0000 +
    Num(s, 5) * 0x100_0000_0000 + Num(s, 6) * 0x1_0000_0000_0000 + Num(s, 7) * 0x100_0000_0000_0000
  }

  lemma BigOne(s: seq<byte>, n: nat)
    requires |s| == n + 1
    ensures FromBigEndian(s) == FromBigEndian(s[..n]) * 256 + s[n]
  {
  }

  lemma FromBigEndianIs(s: seq<byte>)
    requires |s| == 8
    ensures FromBigEndian(s) == BigWord(s)
  {
    hide FromBigEndian;
    BigOne(s, 7);
    BigOne(s[..7], 6);
    BigOne(s[..6], 5);
    BigOne(s[..5], 4);
    assert s[..7][..6] == s[..6] && s[..6][..5] == s[..5] && s[..5][..4] == s[..4];
    BigOne(s[..4], 3);
    BigOne(s[..3], 2);
    BigOne(s[..2], 1);
    BigOne(s[..1], 0);
    assert s[..4][..3] == s[..3] && s[..3][..2] == s[..2] && s[..2][..1] == s[..1] && s[..1][..0] == [];
    NothingIsZero();
  }

  lemma NothingIsZero()
    ensures FromBigEndian([]) == 0 && FromLittleEndian([]) == 0
  {
  }

  lemma LittleOne(s: seq<byte>, n: nat)
    requires n < |s|
    ensures FromLittleEndian(s[n..]) == s[n] + 256 * FromLittleEndian(s[n + 1..])
  {
    assert s[n..][1..] == s[n + 1..];
  }

  lemma FromLittleEndianIs(s: seq<byte>)
    requires |s| == 8
    ensures FromLittleEndian(s) == LittleWord(s)
  {
    hide FromLittleEndian;
    assert s[0..] == s && s[8..] == [];
    LittleOne(s, 0);
    LittleOne(s, 1);
    LittleOne(s, 2);
    LittleOne(s, 3);
    LittleOne(s, 4);
    LittleOne(s, 5);
    LittleOne(s, 6);
    LittleOne(s, 7);
    NothingIsZero();
  }

  // ---- the header ----

  function ToHeader(cfg: KdfConfig): (r: seq<byte>)
    ensures |cfg.salt| == 16 ==> |r| == SIZE
  {
    [cfg.version, cfg.kdf, cfg.memlimit, cfg.opslimit] + BigEndian(cfg.uniqueId, 8) + cfg.salt +
    BigEndian(cfg.checksum, 8)
  }

  function Parsed(data: seq<byte>): (cfg: KdfConfig)
    requires |data| >= SIZE
    ensures FitsTypes(cfg)
  {
    KdfConfig(data[0], data[1], data[2], data[3], FromBigEndian(data[4..12]), data[12..28], FromBigEndian(data[28..36]))
  }

  function Checksum(hash: Hash, cfg: KdfConfig): nat {
    FromLittleEndian(hash(ToHeader(cfg.(checksum := 0))))
  }

  /** Version 1 and Argon2id are the only ones there are; four memory and three effort levels. */
  predicate InRange(cfg: KdfConfig) {
    cfg.version == 0 && cfg.kdf == 0 && cfg.memlimit <= 3 && cfg.opslimit <= 2
  }

  predicate Accepts(hash: Hash, data: seq<byte>, ignoreChecksum: bool) {
    && |data| >= SIZE
    && InRange(Parsed(data))
    && (ignoreChecksum || Parsed(data).checksum == Checksum(hash, Parsed(data)))
  }

  /** The bytes before the checksum: enumerations in range. */
  predicate LevelsInRange(data: seq<byte>) {
    |data| >= 36 && data[0] == 0 && data[1] == 0 && data[2] <= 3 && data[3] <= 2
  }

  /** The bytes 28 to 35 hold, most significant first, the number whose bytes, least significant first, are the hash
      of the bytes before them followed by eight zeros. */
  predicate SumsUp(hash: Hash, data: seq<byte>) {
    |data| >= 36 && var h := hash(data[..28] + [0, 0, 0, 0, 0, 0, 0, 0]);
                    |h| == 8 && BigWord(data[28..36]) == LittleWord(h)
  }

  lemma ZeroWord()
    ensures BigEndian(0, 8) == [0, 0, 0, 0, 0, 0, 0, 0]
  {
    var z: seq<byte> := [0, 0, 0, 0, 0, 0, 0, 0];
    hide BigEndian;
    FromBigEndianIs(z);
    FromBigEndianBack(z);
  }

  lemma ZeroedHeader(data: seq<byte>)
    requires |data| >= SIZE
    ensures ToHeader(Parsed(data).(checksum := 0)) == data[..28] + [0, 0, 0, 0, 0, 0, 0, 0]
  {
    hide BigEndian, FromBigEndian, Power;
    FromBigEndianBack(data[4..12]);
    ZeroWord();
    assert data[..28] == [data[0], data[1], data[2], data[3]] + data[4..12] + data[12..28];
  }

  /** Acceptance, read off the bytes. */
  lemma AcceptsBytes(hash: Hash, data: seq<byte>, ignoreChecksum: bool)
    requires IsHash64(hash)
    ensures Accepts(hash, data, ignoreChecksum) <==> LevelsInRange(data) && (ignoreChecksum || SumsUp(hash, data))
  {
    hide BigEndian, FromBigEndian, FromLittleEndian, Power, BigWord, LittleWord, ToHeader;
    if |data| >= SIZE {
      ZeroedHeader(data);
      FromBigEndianIs(data[28..36]);
      FromLittleEndianIs(hash(data[..28] + [0, 0, 0, 0, 0, 0, 0, 0]));
    }
  }

  /** `from_header` overwrites its argument as soon as the data is long enough, accepted or not. */
  method FromHeader(hash: Hash, data: seq<byte>, before: KdfConfig, ignoreChecksum: bool)
      returns (ok: bool, cfg: KdfConfig)
    ensures ok <==> Accepts(hash, data, ignoreChecksum)
    ensures cfg == if |data| < SIZE then before else Parsed(data)
    ensures IsHash64(hash) ==> (ok <==> LevelsInRange(data) && (ignoreChecksum || SumsUp(hash, data)))
    ensures |data| >= 36 ==>
              cfg == KdfConfig(data[0], data[1], data[2], data[3], BigWord(data[4..12]), data[12..28],
                               BigWord(data[28..36]))
  {
    hide Accepts, Parsed, LevelsInRange, SumsUp, BigWord;
    if IsHash64(hash) {
      AcceptsBytes(hash, data, ignoreChecksum);
    }
    AcceptsIs(hash, data, ignoreChecksum);
    if |data| < SIZE {
      ShortIsRefused(hash, data, ignoreChecksum);
      return false, before;
    }
    ParsedBytes(data);
    cfg := Parsed(data);
    ok := cfg.version == 0 && cfg.kdf == 0 && cfg.memlimit <= 3 && cfg.opslimit <= 2 &&
          (ignoreChecksum || cfg.checksum == Checksum(hash, cfg));
  }

  lemma AcceptsIs(hash: Hash, data: seq<byte>, ignoreChecksum: bool)
    ensures |data| >= SIZE ==>
              var cfg := Parsed(data);
              Accepts(hash, data, ignoreChecksum) <==>
              (cfg.version == 0 && cfg.kdf == 0 && cfg.memlimit <= 3 && cfg.opslimit <= 2 &&
               (ignoreChecksum || cfg.checksum == Checksum(hash, cfg)))
  {
  }

  lemma ShortIsRefused(hash: Hash, data: seq<byte>, ignoreChecksum: bool)
    requires |data| < SIZE
    ensures !Accepts(hash, data, ignoreChecksum) && !LevelsInRange(data)
  {
  }

  lemma ParsedBytes(data: seq<byte>)
    requires |data| >= SIZE
    ensures Parsed(data) == KdfConfig(data[0], data[1], data[2], data[3], BigWord(data[4..12]), data[12..28],
                                      BigWord(data[28..36]))
  {
    hide FromBigEndian, BigWord, Power;
    FromBigEndianIs(data[4..12]);
    FromBigEndianIs(data[28..36]);
  }

  /** Reading back what was written, whatever follows the header. */
  lemma ParsedHeader(cfg: KdfConfig, rest: seq<byte>)
    requires FitsTypes(cfg)
    ensures Parsed(ToHeader(cfg) + rest) == cfg
  {
    hide BigEndian, FromBigEndian, Power;
    var data := ToHeader(cfg) + rest;
    BigEndianBack(cfg.uniqueId, 8);
    BigEndianBack(cfg.checksum, 8);
    assert data[4..12] == BigEndian(cfg.uniqueId, 8);
    assert data[12..28] == cfg.salt;
    assert data[28..36] == BigEndian(cfg.checksum, 8);
  }

  /** Writing back what was read. */
  lemma HeaderOfParsed(data: seq<byte>)
    requires |data| >= SIZE
    ensures ToHeader(Parsed(data)) == data[..SIZE]
  {
    hide BigEndian, FromBigEndian, Power;
    FromBigEndianBack(data[4..12]);
    FromBigEndianBack(data[28..36]);
    assert data[..36] == [data[0], data[1], data[2], data[3]] + data[4..12] + data[12..28] + data[28..36];
  }

  /** A written header is accepted exactly for values in range with their own checksum. */
  lemma AcceptsHeader(hash: Hash, cfg: KdfConfig, rest: seq<byte>)
    requires FitsTypes(cfg)
    ensures Accepts(hash, ToHeader(cfg) + rest, false) <==> InRange(cfg) && cfg.checksum == Checksum(hash, cfg)
    ensures Accepts(hash, ToHeader(cfg) + rest, true) <==> InRange(cfg)
  {
    ParsedHeader(cfg, rest);
  }

  /** The checksum covers every other byte: accepted headers that agree on these are equal. */
  lemma ChecksumIsDetermined(hash: Hash, a: seq<byte>, b: seq<byte>)
    requires Accepts(hash, a, false) && Accepts(hash, b, false) && a[..28] == b[..28]
    ensures a[..SIZE] == b[..SIZE]
  {
    HeaderOfParsed(a);
    HeaderOfParsed(b);
    assert a[4..12] == a[..28][4..12] && b[4..12] == b[..28][4..12];
    assert a[12..28] == a[..28][12..28] && b[12..28] == b[..28][12..28];
    assert forall i :: 0 <= i < 4 ==> a[i] == a[..28][i] && b[i] == b[..28][i];
  }

  // ---- sub-keys ----

  datatype Context = Data | Path

  type Derive = (Context, nat, seq<byte>) -> seq<byte>

  /** `create_subkey`. */
  function CreateSubkey(hash: Hash, derive: Derive, cfg: KdfConfig, ctx: Context, id: nat, master: seq<byte>)
    : (seq<byte>, KdfConfig)
  {
    var renamed := cfg.(uniqueId := id);
    (derive(ctx, id, master), renamed.(checksum := Checksum(hash, renamed)))
  }

  function RecreateSubkey(derive: Derive, cfg: KdfConfig, ctx: Context, master: seq<byte>): seq<byte> {
    derive(ctx, cfg.uniqueId, master)
  }

  /** The header of a created sub-key is enough to derive the same key again, and is accepted exactly when the
      configuration it was made from is in range. */
  lemma SubkeyFromHeader(hash: Hash, derive: Derive, cfg: KdfConfig, ctx: Context, id: nat, master: seq<byte>,
                         rest: seq<byte>)
    requires IsHash64(hash) && FitsTypes(cfg) && id < Power(8)
    ensures var created := CreateSubkey(hash, derive, cfg, ctx, id, master);
            var header := ToHeader(created.1) + rest;
            && FitsTypes(created.1)
            && RecreateSubkey(derive, Parsed(header), ctx, master) == created.0
            && (Accepts(hash, header, false) <==> InRange(cfg))
  {
    hide Power, FromLittleEndian;
    var renamed := cfg.(uniqueId := id);
    var sealed := renamed.(checksum := Checksum(hash, renamed));
    assert sealed.(checksum := 0) == renamed.(checksum := 0);
    ParsedHeader(sealed, rest);
  }

  /** The key of a header is the one derived from the number in its bytes 4 to 11, and that is where `create_subkey`
      puts the number it derives the key from. */
  lemma SubkeyBytes(hash: Hash, derive: Derive, cfg: KdfConfig, ctx: Context, id: nat, master: seq<byte>,
                    data: seq<byte>)
    requires IsHash64(hash) && FitsTypes(cfg) && id < Power(8)
    ensures |data| >= 36 ==>
              RecreateSubkey(derive, Parsed(data), ctx, master) == derive(ctx, BigWord(data[4..12]), master)
    ensures var created := CreateSubkey(hash, derive, cfg, ctx, id, master);
            var header := ToHeader(created.1);
            && created.0 == derive(ctx, id, master) && |header| == 36 && BigWord(header[4..12]) == id
            && header[..4] == [cfg.version, cfg.kdf, cfg.memlimit, cfg.opslimit] && header[12..28] == cfg.salt
            && SumsUp(hash, header)
  {
    hide BigEndian, FromBigEndian, FromLittleEndian, Power, BigWord, LittleWord, SumsUp;
    if |data| >= SIZE {
      ParsedBytes(data);
    }
    var created := CreateSubkey(hash, derive, cfg, ctx, id, master);
    var header := ToHeader(created.1);
    SubkeyFromHeader(hash, derive, cfg, ctx, id, master, []);
    assert header + [] == header;
    ParsedHeader(created.1, []);
    ParsedBytes(header);
    CreatedSumsUp(hash, created.1);
  }

  lemma CreatedSumsUp(hash: Hash, cfg: KdfConfig)
    requires IsHash64(hash) && FitsTypes(cfg) && cfg.checksum == Checksum(hash, cfg)
    ensures SumsUp(hash, ToHeader(cfg))
  {
    hide BigEndian, FromBigEndian, FromLittleEndian, Power, BigWord, LittleWord;
    var header := ToHeader(cfg);
    assert header + [] == header;
    ParsedHeader(cfg, []);
    ZeroedHeader(header);
    FromBigEndianIs(header[28..36]);
    FromLittleEndianIs(hash(header[..28] + [0, 0, 0, 0, 0, 0, 0, 0]));
  }
}
