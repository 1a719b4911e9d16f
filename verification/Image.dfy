/** Encrypting, decrypting and re-keying a whole FS/Z image.  Sector 0 is the
    superblock; of it only the fields that take part are kept.  The checksum of
    a passphrase is a parameter, of which only the value 0 matters. */
module Image {
  import opened Gf
  import Sha256
  import Cbc
  import ShaLaws

  type Crc = seq<Byte> -> nat

  datatype Alg = ShaXor | AesCbc

  const AES_FLAG: Byte := 4

  /** The sectors are those behind the superblock. */
  datatype Disk = Disk(magic: seq<Byte>, flags: Byte, key: seq<Byte>, enchash: nat, sectors: seq<seq<Byte>>)

  ghost predicate Formed(d: Disk) {
    |d.magic| == 6 && |d.key| == 28
  }

  datatype Outcome = Done(disk: Disk) | Refused

  // ---------------------------------------------------------------- keys

  /** The passphrase up to the end of its line. */
  function Line(pass: seq<Byte>): seq<Byte> {
    if pass == [] || pass[0] == 0 || pass[0] == 13 || pass[0] == 10 then [] else [pass[0]] + Line(pass[1..])
  }

  function Hash(m: seq<Byte>): (h: seq<Byte>)
    ensures |h| == 32
  {
    Sha256.Digest(Sha256.Sha(m))
  }

  /** The disk key with the mask of a passphrase put on or taken off. */
  function Masked(key: seq<Byte>, pass: seq<Byte>, magic: seq<Byte>): (k: seq<Byte>)
    requires |key| == 28
    ensures |k| == 28
  {
    Cbc.XorBytes(key, Hash(Line(pass) + magic)[..28])
  }

  lemma MaskTwice(key: seq<Byte>, pass: seq<Byte>, magic: seq<Byte>)
    requires |key| == 28
    ensures Masked(Masked(key, pass, magic), pass, magic) == key
  {
    hide Hash;
    Cbc.XorBytesCancel(key, Hash(Line(pass) + magic)[..28]);
  }

  // ---------------------------------------------------------------- sectors

  /** A counter as the hash is fed it. */
  function Little32(n: nat): (b: seq<Byte>)
    ensures |b| == 4
  {
    [Sha256.Digit(n, 1), Sha256.Digit(n, 0x100), Sha256.Digit(n, 0x1_0000), Sha256.Digit(n, 0x100_0000)]
  }

  /** The running hash of sector j after n turns. */
  function Chain(iv: seq<Byte>, j: nat, n: nat): (c: seq<Byte>)
    requires |iv| == 32
    ensures |c| == 32
  {
    if n == 0 then iv else Hash(Chain(iv, j, n - 1) + Little32(j))
  }

  function StreamByte(iv: seq<Byte>, j: nat, i: nat): Byte
    requires |iv| == 32
  {
    Xor(Chain(iv, j, i / 32 + 1)[i % 32], iv[i % 32])
  }

  function XorSector(iv: seq<Byte>, j: nat, s: seq<Byte>): (r: seq<Byte>)
    requires |iv| == 32
    ensures |r| == |s|
  {
    seq(|s|, i requires 0 <= i < |s| => Xor(s[i], StreamByte(iv, j, i)))
  }

  lemma XorSectorTwice(iv: seq<Byte>, j: nat, s: seq<Byte>)
    requires |iv| == 32
    ensures XorSector(iv, j, XorSector(iv, j, s)) == s
  {
    hide StreamByte, Xor;
    forall i | 0 <= i < |s| ensures XorSector(iv, j, XorSector(iv, j, s))[i] == s[i] {
      XorCancel(s[i], StreamByte(iv, j, i));
    }
  }

  /** Sector j under one of the ciphers, and back. */
  function EncSector(alg: Alg, iv: seq<Byte>, j: nat, s: seq<Byte>): (r: seq<Byte>)
    requires |iv| == 32
    ensures |r| == |s|
  {
    if alg.AesCbc? then Cbc.Encrypted(Cbc.EncKeys(iv), Cbc.Vector(iv), s) else XorSector(iv, j, s)
  }

  function DecSector(alg: Alg, iv: seq<Byte>, j: nat, s: seq<Byte>): (r: seq<Byte>)
    requires |iv| == 32
    ensures |r| == |s|
  {
    if alg.AesCbc? then Cbc.Decrypted(Cbc.DecKeys(Cbc.EncKeys(iv)), Cbc.Vector(iv), s) else XorSector(iv, j, s)
  }

  lemma SectorRoundTrip(alg: Alg, iv: seq<Byte>, j: nat, s: seq<Byte>)
    requires |iv| == 32
    ensures DecSector(alg, iv, j, EncSector(alg, iv, j, s)) == s
  {
    hide Cbc.EncKeys, Cbc.DecKeys, Cbc.MixedBack, Cbc.Vector, Cbc.Encrypted, Cbc.Decrypted, XorSector;
    if alg.AesCbc? {
      var rk := Cbc.EncKeys(iv);
      Cbc.MixedBackReversed(rk, Cbc.DecKeys(rk));
      Cbc.CbcRoundTrip(rk, Cbc.DecKeys(rk), Cbc.Vector(iv), s);
    } else {
      XorSectorTwice(iv, j, s);
    }
  }

  const COUNTER: nat := 0x1_0000_0000

  function EncSectors(alg: Alg, iv: seq<Byte>, s: seq<seq<Byte>>): (r: seq<seq<Byte>>)
    requires |iv| == 32
    ensures |r| == |s|
  {
    seq(|s|, i requires 0 <= i < |s| => EncSector(alg, iv, (i + 1) % COUNTER, s[i]))
  }

  function DecSectors(alg: Alg, iv: seq<Byte>, s: seq<seq<Byte>>): (r: seq<seq<Byte>>)
    requires |iv| == 32
    ensures |r| == |s|
  {
    seq(|s|, i requires 0 <= i < |s| => DecSector(alg, iv, (i + 1) % COUNTER, s[i]))
  }

  lemma SectorsRoundTrip(alg: Alg, iv: seq<Byte>, s: seq<seq<Byte>>)
    requires |iv| == 32
    ensures DecSectors(alg, iv, EncSectors(alg, iv, s)) == s
  {
    hide EncSector, DecSector;
    forall i | 0 <= i < |s| ensures DecSectors(alg, iv, EncSectors(alg, iv, s))[i] == s[i] {
      SectorRoundTrip(alg, iv, (i + 1) % COUNTER, s[i]);
    }
  }

  // ---------------------------------------------------------------- what the stream is

  /** Block k of the stream of sector j: the hash of the block before it, of the vector for
      the first, and of the sector number. */
  function Block(iv: seq<Byte>, j: nat, k: nat): (b: seq<Byte>)
    requires |iv| == 32
    ensures |b| == 32
  {
    Hash((if k == 0 then iv else Block(iv, j, k - 1)) + Little32(j))
  }

  /** Byte c of block k, xored with byte c of the vector, is the stream's byte 32 * k + c:
      every byte of every block is used once. */
  lemma StreamIs(iv: seq<Byte>, j: nat, k: nat, c: nat)
    requires |iv| == 32 && c < 32
    ensures StreamByte(iv, j, 32 * k + c) == Xor(Block(iv, j, k)[c], iv[c])
  {
    hide Hash, Xor, Little32;
    assert (32 * k + c) / 32 == k && (32 * k + c) % 32 == c;
    ChainIs(iv, j, k);
  }

  lemma {:induction false} ChainIs(iv: seq<Byte>, j: nat, k: nat)
    requires |iv| == 32
    ensures Chain(iv, j, k + 1) == Block(iv, j, k)
  {
    hide Hash, Little32;
    if k > 0 { ChainIs(iv, j, k - 1); }
  }

  /** The sector number goes in with its least significant byte first. */
  lemma LittleEndian(n: nat)
    requires n < COUNTER
    ensures Little32(n) == [ShaLaws.ByteOf(n, 0), ShaLaws.ByteOf(n, 1), ShaLaws.ByteOf(n, 2), ShaLaws.ByteOf(n, 3)]
  {
    hide ShaLaws.Power256;
    ShaLaws.Powers();
  }

  predicate Stops(b: Byte) { b == 0 || b == 13 || b == 10 }

  /** A passphrase counts up to its first 0, CR or LF. */
  lemma {:induction false} LineIs(pass: seq<Byte>)
    ensures var n := |Line(pass)|;
            && n <= |pass| && Line(pass) == pass[..n]
            && (forall i :: 0 <= i < n ==> !Stops(pass[i])) && (n < |pass| ==> Stops(pass[n]))
  {
    if pass != [] && !Stops(pass[0]) {
      LineIs(pass[1..]);
      var n := |Line(pass)|;
      assert pass[1..][..n - 1] == pass[1..n] && [pass[0]] + pass[1..n] == pass[..n];
      forall i | 0 <= i < n ensures !Stops(pass[i]) { if i > 0 { assert pass[i] == pass[1..][i - 1]; } }
    }
  }

  /** The image after encryption, byte by byte: the key under the mask, the checksum of the
      passphrase, and every sector under the stream of its number or the block cipher. */
  lemma EncryptedImage(crc: Crc, d: Disk, alg: Alg, pass: seq<Byte>, rnd: seq<Byte>, i: nat)
    requires Formed(d) && |rnd| == 28 && d.enchash == 0 && i < |d.sectors| && i + 1 < COUNTER
    ensures var e := Encrypt(crc, d, alg, pass, rnd).disk; var iv := Hash(rnd); var s := d.sectors[i];
            && e.magic == d.magic && e.enchash == crc(Line(pass)) && |e.sectors| == |d.sectors|
            && (forall x :: 0 <= x < 28 ==> e.key[x] == Xor(rnd[x], Hash(Line(pass) + d.magic)[x]))
            && (alg.AesCbc? ==> e.sectors[i] == Cbc.Encrypted(Cbc.EncKeys(iv), Cbc.Vector(iv), s))
            && (alg.ShaXor? ==>
                  |e.sectors[i]| == |s|
                  && forall x :: 0 <= x < |s| ==>
                       e.sectors[i][x] == Xor(s[x], Xor(Block(iv, i + 1, x / 32)[x % 32], iv[x % 32])))
  {
    hide Hash, Xor, StreamByte, Cbc.Encrypted, Cbc.EncKeys, Cbc.Vector, Line, Block;
    var iv, s := Hash(rnd), d.sectors[i];
    forall x | 0 <= x < |s|
      ensures XorSector(iv, i + 1, s)[x] == Xor(s[x], Xor(Block(iv, i + 1, x / 32)[x % 32], iv[x % 32]))
    {
      StreamIs(iv, i + 1, x / 32, x % 32);
    }
  }

  // ---------------------------------------------------------------- the commands

  /** The algorithm field of the flags, of which 0 and 1 are known. */
  function AlgField(flags: Byte): Byte { (flags >> 2) & 7 }

  /** What decryption would do for the right passphrase. */
  datatype Choice = Nothing | Unknown | Uses(alg: Alg)

  function Chosen(d: Disk): Choice {
    if d.enchash == 0 then Nothing
    else if AlgField(d.flags) > 1 then Unknown
    else if d.flags & AES_FLAG != 0 then Uses(AesCbc)
    else Uses(ShaXor)
  }

  function Encrypt(crc: Crc, d: Disk, alg: Alg, pass: seq<Byte>, rnd: seq<Byte>): Outcome
    requires Formed(d) && |rnd| == 28
  {
    if d.enchash != 0 then Refused
    else
      Done(Disk(d.magic, if alg.AesCbc? then d.flags | AES_FLAG else d.flags,
                Masked(rnd, pass, d.magic), crc(Line(pass)), EncSectors(alg, Hash(rnd), d.sectors)))
  }

  /** A wrong passphrase and an image without one leave the image alone. */
  function Decrypt(crc: Crc, d: Disk, pass: seq<Byte>): Outcome
    requires Formed(d)
  {
    if d.enchash == 0 then Done(d)
    else if AlgField(d.flags) > 1 then Refused
    else if d.enchash != crc(Line(pass)) then Done(d)
    else
      var key := Masked(d.key, pass, d.magic);
      var alg := if d.flags & AES_FLAG != 0 then AesCbc else ShaXor;
      Done(Disk(d.magic, d.flags, seq(28, _ => 0), 0, DecSectors(alg, Hash(key), d.sectors)))
  }

  /** With a new passphrase typed in; when it is given as an argument the old one
      is read again instead. */
  function Rekey(crc: Crc, d: Disk, old_: seq<Byte>, typed: seq<Byte>, argument: bool): Outcome
    requires Formed(d)
  {
    if d.enchash == 0 then Refused
    else if d.enchash != crc(Line(old_)) then Done(d)
    else
      var new_ := if argument then old_ else typed;
      Done(d.(key := Masked(Masked(d.key, old_, d.magic), new_, d.magic), enchash := crc(Line(new_))))
  }

  /** The command line refuses the images that are encrypted. */
  function DecryptCommand(crc: Crc, d: Disk, pass: seq<Byte>): Outcome
    requires Formed(d)
  {
    if d.enchash != 0 then Refused else Decrypt(crc, d, pass)
  }

  // ---------------------------------------------------------------- what the commands can do

  datatype Command =
    | EncryptCall(alg: Alg, pass: seq<Byte>, rnd: seq<Byte>)
    | DecryptCall(pass: seq<Byte>)
    | RekeyCall(old_: seq<Byte>, typed: seq<Byte>, argument: bool)

  predicate Callable(c: Command) { c.EncryptCall? ==> |c.rnd| == 28 }

  /** The image after a command; a refused one leaves it as it is. */
  function Applied(crc: Crc, d: Disk, c: Command): (e: Disk)
    requires Formed(d) && Callable(c)
    ensures Formed(e)
  {
    var r := match c
             case EncryptCall(alg, pass, rnd) => Encrypt(crc, d, alg, pass, rnd)
             case DecryptCall(pass) => DecryptCommand(crc, d, pass)
             case RekeyCall(old_, typed, argument) => Rekey(crc, d, old_, typed, argument);
    if r.Refused? then d else r.disk
  }

  /** An accepted re-keying to a passphrase of checksum 0. */
  predicate Unmarks(crc: Crc, d: Disk, c: Command) {
    c.RekeyCall? && d.enchash == crc(Line(c.old_)) && crc(Line(if c.argument then c.old_ else c.typed)) == 0
  }

  /** No command changes a sector of an encrypted image, and the image counts as encrypted
      afterwards if and only if it was not re-keyed to a checksum of 0. */
  lemma CommandExact(crc: Crc, d: Disk, c: Command)
    requires Formed(d) && Callable(c) && d.enchash != 0
    ensures var e := Applied(crc, d, c);
            e.sectors == d.sectors && e.flags == d.flags && (e.enchash != 0 <==> !Unmarks(crc, d, c))
  {
    hide Hash, Masked, EncSectors, DecSectors, Line;
  }

  function Commanded(crc: Crc, d: Disk, cs: seq<Command>): (e: Disk)
    requires Formed(d) && forall i :: 0 <= i < |cs| ==> Callable(cs[i])
    ensures Formed(e)
  {
    if cs == [] then d else Applied(crc, Commanded(crc, d, cs[..|cs| - 1]), cs[|cs| - 1])
  }

  ghost predicate NeverUnmarks(crc: Crc, d: Disk, cs: seq<Command>)
    requires Formed(d) && forall i :: 0 <= i < |cs| ==> Callable(cs[i])
  {
    forall i :: 0 <= i < |cs| ==> !Unmarks(crc, Commanded(crc, d, cs[..i]), cs[i])
  }

  /** Whatever commands are given, with the right passphrases or not, an encrypted image
      keeps its enciphered sectors and stays marked: the tool has no way back. */
  lemma {:induction false} DecryptCommandInert(crc: Crc, d: Disk, cs: seq<Command>)
    requires Formed(d) && d.enchash != 0 && forall i :: 0 <= i < |cs| ==> Callable(cs[i])
    requires NeverUnmarks(crc, d, cs)
    ensures var e := Commanded(crc, d, cs); e.sectors == d.sectors && e.flags == d.flags && e.enchash != 0
  {
    hide Applied, Unmarks;
    if cs != [] {
      var n := |cs| - 1;
      var init := cs[..n];
      forall i | 0 <= i < n ensures !Unmarks(crc, Commanded(crc, d, init[..i]), init[i]) {
        assert init[..i] == cs[..i];
        assert !Unmarks(crc, Commanded(crc, d, cs[..i]), cs[i]);
      }
      DecryptCommandInert(crc, d, init);
      assert !Unmarks(crc, Commanded(crc, d, cs[..n]), cs[n]);
      CommandExact(crc, Commanded(crc, d, init), cs[n]);
    }
  }

  // ---------------------------------------------------------------- encrypt, then decrypt

  lemma FlagBits(flags: Byte)
    ensures (flags | AES_FLAG) & AES_FLAG != 0
    ensures AlgField(flags | AES_FLAG) > 1 <==> AlgField(flags) > 1
  {
  }

  /** Decryption will pick the cipher encryption used exactly when the checksum of
      the passphrase is not 0 (it is 0 for the empty one) and no earlier cipher
      left its flag behind. */
  lemma EncryptChoice(crc: Crc, d: Disk, alg: Alg, pass: seq<Byte>, rnd: seq<Byte>)
    requires Formed(d) && |rnd| == 28 && d.enchash == 0
    ensures Chosen(Encrypt(crc, d, alg, pass, rnd).disk) == Uses(alg)
       <==> crc(Line(pass)) != 0 && AlgField(d.flags) <= 1 && (alg.AesCbc? || d.flags & AES_FLAG == 0)
  {
    hide EncSectors, Masked, Hash, AlgField;
    FlagBits(d.flags);
  }

  /** Then every sector comes back, and the key and the mark are wiped. */
  lemma EncryptThenDecrypt(crc: Crc, d: Disk, alg: Alg, pass: seq<Byte>, rnd: seq<Byte>)
    requires Formed(d) && |rnd| == 28 && d.enchash == 0
    requires Chosen(Encrypt(crc, d, alg, pass, rnd).disk) == Uses(alg)
    ensures var e := Encrypt(crc, d, alg, pass, rnd).disk;
            Decrypt(crc, e, pass) == Done(e.(key := seq(28, _ => 0), enchash := 0, sectors := d.sectors))
  {
    hide EncSectors, DecSectors, Masked, Hash, AlgField;
    MaskTwice(rnd, pass, d.magic);
    SectorsRoundTrip(alg, Hash(rnd), d.sectors);
  }

  /** With a passphrase whose checksum is 0 nothing can be undone. */
  lemma ZeroChecksumLocks(crc: Crc, d: Disk, alg: Alg, pass: seq<Byte>, rnd: seq<Byte>, any: seq<Byte>)
    requires Formed(d) && |rnd| == 28 && d.enchash == 0 && crc(Line(pass)) == 0
    ensures var e := Encrypt(crc, d, alg, pass, rnd).disk;
            Decrypt(crc, e, any) == Done(e) && Rekey(crc, e, any, any, false) == Refused
  {
    hide EncSectors, Masked, Hash;
  }

  /** An image that went through AES once is not decrypted by the cipher it was
      encrypted with afterwards. */
  lemma FlagLeftBehind(crc: Crc, d: Disk, pass: seq<Byte>, rnd: seq<Byte>, rnd': seq<Byte>)
    requires Formed(d) && |rnd| == 28 && |rnd'| == 28 && d.enchash == 0 && d.flags == 0 && crc(Line(pass)) != 0
    ensures var e := Encrypt(crc, d, AesCbc, pass, rnd).disk;
            var again := Decrypt(crc, e, pass).disk;
            (Formed(again) && again.sectors == d.sectors
             && Chosen(Encrypt(crc, again, ShaXor, pass, rnd').disk) == Uses(AesCbc))
  {
    hide EncSectors, DecSectors, Masked, Hash;
    EncryptChoice(crc, d, AesCbc, pass, rnd);
    EncryptThenDecrypt(crc, d, AesCbc, pass, rnd);
  }

  // ---------------------------------------------------------------- re-keying

  lemma ArgumentIgnored(crc: Crc, d: Disk, pass: seq<Byte>, typed: seq<Byte>)
    requires Formed(d) && d.enchash != 0
    ensures Rekey(crc, d, pass, typed, true) == Done(d)
  {
    hide Masked;
    MaskTwice(d.key, pass, d.magic);
  }

  lemma XorInjective(a: Byte, b: Byte, c: Byte)
    ensures Xor(Xor(a, b), Xor(a, c)) == 0 <==> b == c
    ensures Xor(a, b) == Xor(a, c) <==> b == c
  {
  }

  /** An accepted re-keying keeps the disk key exactly when the passphrase it was
      given has the mask of the right one. */
  lemma KeyKept(crc: Crc, d: Disk, right: seq<Byte>, old_: seq<Byte>, typed: seq<Byte>)
    requires Formed(d) && d.enchash != 0 && d.enchash == crc(Line(old_))
    ensures var r := Rekey(crc, d, old_, typed, false).disk;
            (Masked(r.key, typed, r.magic) == Masked(d.key, right, d.magic)
             <==> Hash(Line(old_) + d.magic)[..28] == Hash(Line(right) + d.magic)[..28])
  {
    var a, b := Hash(Line(old_) + d.magic)[..28], Hash(Line(right) + d.magic)[..28];
    hide Hash, Xor;
    MaskTwice(Masked(d.key, old_, d.magic), typed, d.magic);
    if Masked(d.key, old_, d.magic) == Masked(d.key, right, d.magic) {
      forall i | 0 <= i < 28 ensures a[i] == b[i] {
        assert Cbc.XorBytes(d.key, a)[i] == Cbc.XorBytes(d.key, b)[i];
        XorInjective(d.key[i], a[i], b[i]);
      }
    }
  }

  datatype Attempt = Attempt(old_: seq<Byte>, typed: seq<Byte>, argument: bool)

  ghost predicate Accepted(crc: Crc, d: Disk, a: Attempt) {
    d.enchash != 0 && d.enchash == crc(Line(a.old_))
  }

  function After(crc: Crc, d: Disk, a: Attempt): (r: Disk)
    requires Formed(d)
    ensures Formed(r)
  {
    match Rekey(crc, d, a.old_, a.typed, a.argument)
    case Done(e) => e
    case Refused => d
  }

  function Run(crc: Crc, d: Disk, chain: seq<Attempt>): (r: Disk)
    requires Formed(d)
    ensures Formed(r)
  {
    if chain == [] then d else After(crc, Run(crc, d, chain[..|chain| - 1]), chain[|chain| - 1])
  }

  /** The passphrase that counts after a chain that starts from first. */
  ghost function Last(crc: Crc, d: Disk, first: seq<Byte>, chain: seq<Attempt>): seq<Byte>
    requires Formed(d)
  {
    if chain == [] then first
    else
      var before, a := Run(crc, d, chain[..|chain| - 1]), chain[|chain| - 1];
      if Accepted(crc, before, a) && !a.argument then a.typed else Last(crc, d, first, chain[..|chain| - 1])
  }

  /** No attempt passes by a mere coincidence of checksums, and none moves to a
      passphrase of checksum 0. */
  ghost predicate Sound(crc: Crc, d: Disk, first: seq<Byte>, chain: seq<Attempt>)
    requires Formed(d)
  {
    forall i :: 0 <= i < |chain| ==> SoundAt(crc, d, first, chain[..i], chain[i])
  }

  ghost predicate SoundAt(crc: Crc, d: Disk, first: seq<Byte>, before: seq<Attempt>, a: Attempt)
    requires Formed(d)
  {
    crc(Line(a.typed)) != 0
    && (Accepted(crc, Run(crc, d, before), a) ==> Line(a.old_) == Line(Last(crc, d, first, before)))
  }

  lemma SameMask(key: seq<Byte>, p: seq<Byte>, q: seq<Byte>, magic: seq<Byte>)
    requires |key| == 28 && Line(p) == Line(q)
    ensures Masked(key, p, magic) == Masked(key, q, magic)
  {
  }

  /** Any chain of re-keyings keeps the disk key, the sectors and the cipher;
      only the last passphrase is needed. */
  lemma {:induction false} ChainKeeps(crc: Crc, d: Disk, first: seq<Byte>, chain: seq<Attempt>)
    requires Formed(d) && d.enchash == crc(Line(first)) && d.enchash != 0
    requires Sound(crc, d, first, chain)
    ensures var r, last := Run(crc, d, chain), Last(crc, d, first, chain);
            r.enchash == crc(Line(last)) && r.enchash != 0
            && r.sectors == d.sectors && r.flags == d.flags && r.magic == d.magic
            && Masked(r.key, last, r.magic) == Masked(d.key, first, d.magic)
  {
    if chain != [] {
      hide Masked;
      var n := |chain| - 1;
      var init, a := chain[..n], chain[n];
      forall i | 0 <= i < n ensures SoundAt(crc, d, first, init[..i], init[i]) {
        assert init[..i] == chain[..i];
        assert SoundAt(crc, d, first, chain[..i], chain[i]);
      }
      ChainKeeps(crc, d, first, init);
      assert SoundAt(crc, d, first, chain[..n], chain[n]);
      var before, last := Run(crc, d, init), Last(crc, d, first, init);
      if Accepted(crc, before, a) {
        SameMask(before.key, a.old_, last, before.magic);
        MaskTwice(before.key, a.old_, before.magic);
        MaskTwice(Masked(before.key, a.old_, before.magic), a.typed, before.magic);
      }
    }
  }

  lemma DecryptByKey(crc: Crc, d: Disk, p: seq<Byte>, e: Disk, q: seq<Byte>)
    requires Formed(d) && Formed(e) && d.enchash == crc(Line(p)) && e.enchash == crc(Line(q))
    requires d.enchash != 0 && e.enchash != 0 && e.sectors == d.sectors && e.flags == d.flags
    requires e.magic == d.magic && Masked(e.key, q, e.magic) == Masked(d.key, p, d.magic)
    ensures Decrypt(crc, e, q) == Decrypt(crc, d, p)
  {
    hide Masked, DecSectors, Hash, AlgField;
  }

  /** An image encrypted, re-keyed any number of times and decrypted with the last
      passphrase has its sectors back. */
  lemma EncryptRekeyDecrypt(crc: Crc, d: Disk, alg: Alg, first: seq<Byte>, rnd: seq<Byte>, chain: seq<Attempt>)
    requires Formed(d) && |rnd| == 28 && d.enchash == 0
    requires crc(Line(first)) != 0 && AlgField(d.flags) <= 1 && (alg.AesCbc? || d.flags & AES_FLAG == 0)
    requires Sound(crc, Encrypt(crc, d, alg, first, rnd).disk, first, chain)
    ensures var e := Encrypt(crc, d, alg, first, rnd).disk;
            var r := Decrypt(crc, Run(crc, e, chain), Last(crc, e, first, chain));
            r.Done? && r.disk.sectors == d.sectors && r.disk.enchash == 0
  {
    hide Sound, Run, Last, Masked, EncSectors, Hash, AlgField, Chosen, Decrypt;
    var e := Encrypt(crc, d, alg, first, rnd).disk;
    EncryptChoice(crc, d, alg, first, rnd);
    EncryptThenDecrypt(crc, d, alg, first, rnd);
    ChainKeeps(crc, e, first, chain);
    DecryptByKey(crc, e, first, Run(crc, e, chain), Last(crc, e, first, chain));
  }

  // ---------------------------------------------------------------- the code

  method HashTwo(a: seq<Byte>, b: seq<Byte>) returns (h: seq<Byte>)
    ensures h == Hash(a + b)
  {
    hide Sha256.Context.Holds, Sha256.Sha, Sha256.Digest;
    var ctx := new Sha256.Context();
    ctx.Update(a, []);
    assert [] + a == a;
    ctx.Update(b, a);
    h := ctx.Final(a + b);
  }

  class Image {
    var magic: seq<Byte>
    var flags: Byte
    var key: seq<Byte>
    var enchash: nat
    var sectors: seq<seq<Byte>>

    ghost function View(): Disk
      reads this
    {
      Disk(magic, flags, key, enchash, sectors)
    }

    constructor (d: Disk)
      ensures View() == d
    {
      magic, flags, key, enchash, sectors := d.magic, d.flags, d.key, d.enchash, d.sectors;
    }

    method FindLine(pass: seq<Byte>) returns (line: seq<Byte>)
      ensures line == Line(pass)
    {
      var l := 0;
      assert pass[0..] == pass;
      while l < |pass| && pass[l] != 0 && pass[l] != 13 && pass[l] != 10
        invariant 0 <= l <= |pass| && Line(pass) == pass[..l] + Line(pass[l..])
      {
        assert pass[l..][1..] == pass[l + 1..];
        assert pass[..l] + [pass[l]] == pass[..l + 1];
        l := l + 1;
      }
      line := pass[..l];
    }

    /** The mask of a passphrase on or off the disk key. */
    method Mask(line: seq<Byte>, ghost pass: seq<Byte>)
      requires |key| == 28 && line == Line(pass)
      modifies `key
      ensures key == Masked(old(key), pass, magic)
    {
      hide Hash, Xor;
      var chk := HashTwo(line, magic);
      ghost var was := key;
      for i := 0 to 28
        invariant |key| == 28
        invariant forall k :: 0 <= k < 28 ==> key[k] == if k < i then Xor(was[k], chk[k]) else was[k]
      {
        key := key[i := Xor(key[i], chk[i])];
      }
    }

    /** One sector under the hash chain. */
    method XorOne(iv: seq<Byte>, j: nat, s: seq<Byte>) returns (r: seq<Byte>)
      requires |iv| == 32
      ensures r == XorSector(iv, j, s)
    {
      hide Hash, Xor, Little32;
      var chk := iv;
      r := s;
      for i := 0 to |s|
        invariant |r| == |s| && chk == Chain(iv, j, (i + 31) / 32)
        invariant forall k :: 0 <= k < |s| ==> r[k] == if k < i then Xor(s[k], StreamByte(iv, j, k)) else s[k]
      {
        if i % 32 == 0 {
          chk := HashTwo(chk, Little32(j));
        }
        assert (i + 1 + 31) / 32 == i / 32 + 1;
        r := r[i := Xor(r[i], Xor(chk[i % 32], iv[i % 32]))];
      }
    }

    method XorAll(iv: seq<Byte>)
      requires |iv| == 32
      modifies `sectors
      ensures sectors == EncSectors(ShaXor, iv, old(sectors)) == DecSectors(ShaXor, iv, old(sectors))
    {
      hide XorSector;
      ghost var was := sectors;
      var j := 1;
      for i := 0 to |sectors|
        invariant |sectors| == |was| && j == (i + 1) % COUNTER
        invariant forall k :: 0 <= k < |was| ==>
                    sectors[k] == if k < i then XorSector(iv, (k + 1) % COUNTER, was[k]) else was[k]
      {
        var s := XorOne(iv, j, sectors[i]);
        sectors := sectors[i := s];
        j := (j + 1) % COUNTER;
      }
    }

    /** Every sector through a buffer and the block cipher. */
    method AesAll(iv: seq<Byte>, encrypt: bool)
      requires |iv| == 32
      modifies `sectors
      ensures sectors == if encrypt then EncSectors(AesCbc, iv, old(sectors)) else DecSectors(AesCbc, iv, old(sectors))
    {
      hide Cbc.Encrypted, Cbc.Decrypted, Cbc.EncKeys, Cbc.DecKeys, Cbc.Vector, Cbc.MixedBack, Cbc.Aes.Reversed;
      var cipher := new Cbc.Cipher();
      cipher.Init(iv);
      ghost var was := sectors;
      ghost var rk, vec := Cbc.EncKeys(iv), Cbc.Vector(iv);
      for i := 0 to |sectors|
        invariant |sectors| == |was|
        invariant cipher.Valid() && cipher.encrd[..] == rk && cipher.decrd[..] == Cbc.DecKeys(rk) && cipher.iv[..] == vec
        invariant forall k :: 0 <= k < |was| ==>
                    sectors[k] == if k < i then AesOf(encrypt, iv, was[k]) else was[k]
      {
        var s := AesOne(cipher, iv, sectors[i], encrypt);
        sectors := sectors[i := s];
      }
    }

    method AesOne(cipher: Cbc.Cipher, ghost key: seq<Byte>, s: seq<Byte>, encrypt: bool) returns (r: seq<Byte>)
      requires cipher.Valid() && |key| == 32 && cipher.encrd[..] == Cbc.EncKeys(key)
      requires cipher.decrd[..] == Cbc.DecKeys(Cbc.EncKeys(key)) && cipher.iv[..] == Cbc.Vector(key)
      ensures r == AesOf(encrypt, key, s)
    {
      hide Cbc.Encrypted, Cbc.Decrypted, Cbc.EncKeys, Cbc.DecKeys, Cbc.Vector, Cbc.MixedBack;
      var buffer := new Byte[|s|](i requires 0 <= i < |s| => s[i]);
      assert buffer[..] == s;
      if encrypt {
        cipher.Enc(buffer);
      } else {
        cipher.Dec(buffer);
      }
      r := buffer[..];
    }

    method Encipher(crc: Crc, alg: Alg, pass: seq<Byte>, rnd: seq<Byte>) returns (done: bool)
      requires Formed(View()) && |rnd| == 28
      modifies this
      ensures done == Encrypt(crc, old(View()), alg, pass, rnd).Done?
      ensures View() == if done then Encrypt(crc, old(View()), alg, pass, rnd).disk else old(View())
    {
      hide EncSectors, DecSectors, Masked, Hash, AlgField;
      if enchash != 0 {
        return false;
      }
      var line := FindLine(pass);
      enchash := crc(line);
      key := rnd;
      var iv := HashTwo(key, []);
      assert key + [] == key;
      if alg.AesCbc? {
        flags := flags | AES_FLAG;
        AesAll(iv, true);
      } else {
        XorAll(iv);
      }
      Mask(line, pass);
      done := true;
    }

    method Decipher(crc: Crc, pass: seq<Byte>) returns (done: bool)
      requires Formed(View())
      modifies this
      ensures done == Decrypt(crc, old(View()), pass).Done?
      ensures View() == if done then Decrypt(crc, old(View()), pass).disk else old(View())
    {
      hide EncSectors, DecSectors, Masked, Hash, AlgField;
      if enchash == 0 {
        return true;
      }
      if AlgField(flags) > 1 {
        return false;
      }
      var line := FindLine(pass);
      if enchash != crc(line) {
        return true;
      }
      Mask(line, pass);
      var iv := HashTwo(key, []);
      assert key + [] == key;
      if flags & AES_FLAG != 0 {
        AesAll(iv, false);
      } else {
        XorAll(iv);
      }
      key, enchash := seq(28, _ => 0), 0;
      done := true;
    }

    method ChangePass(crc: Crc, old_: seq<Byte>, typed: seq<Byte>, argument: bool) returns (done: bool)
      requires Formed(View())
      modifies this
      ensures done == Rekey(crc, old(View()), old_, typed, argument).Done?
      ensures View() == if done then Rekey(crc, old(View()), old_, typed, argument).disk else old(View())
    {
      hide Masked, Hash;
      if enchash == 0 {
        return false;
      }
      var line := FindLine(old_);
      if enchash != crc(line) {
        return true;
      }
      Mask(line, old_);
      var new_ := if argument then old_ else typed;
      line := FindLine(new_);
      enchash := crc(line);
      Mask(line, new_);
      done := true;
    }
  }

  ghost function AesOf(encrypt: bool, key: seq<Byte>, s: seq<Byte>): seq<Byte>
    requires |key| == 32
  {
    if encrypt then Cbc.Encrypted(Cbc.EncKeys(key), Cbc.Vector(key), s)
    else Cbc.Decrypted(Cbc.DecKeys(Cbc.EncKeys(key)), Cbc.Vector(key), s)
  }
}
