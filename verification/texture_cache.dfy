/** The texture cache names each cached download after the CRC-32 of its URL:
    the file is `<app directory>/texturecache/<decimal CRC>`. The checksum is
    the CRC-32 of ITU-T V.42 and ISO 3309 (register preset to all ones,
    reflected polynomial 0xEDB88320, final complement). Reading and writing
    the cache files is file I/O and is not modelled. */
module TextureCache {
  import opened Common
  import opened Decimal

  /** The reflected form of the CRC-32 generator polynomial 0x04C11DB7. */
  const Polynomial: bv32 := 0xEDB8_8320

  const AllOnes: bv32 := 0xFFFF_FFFF

  /** Name of the cache directory under the application directory. */
  const Folder := "texturecache"

  // ---------------------------------------------------------------------
  // Reference definition of the checksum

  /** One step of reflected polynomial division: shift the register right and
      subtract (XOR) the polynomial exactly when a one bit falls off. */
  function Round(crc: bv32): bv32
  {
    if crc & 1 == 1 then (crc >> 1) ^ Polynomial else crc >> 1
  }

  function Rounds(crc: bv32, n: nat): bv32
    decreases n
  {
    if n == 0 then crc else Rounds(Round(crc), n - 1)
  }

  /** Feeding one byte: XOR it into the low end, then eight division steps. */
  function FeedByte(crc: bv32, b: bv8): bv32
  {
    var x := crc ^ (b as bv32);
    Round(Round(Round(Round(Round(Round(Round(Round(x))))))))
  }

  /** The register after feeding all of `data`, starting from all ones. */
  function Register(data: seq<bv8>): bv32
  {
    if |data| == 0 then AllOnes
    else FeedByte(Register(data[..|data| - 1]), data[|data| - 1])
  }

  /** The standard CRC-32 of the bytes `data`. */
  function StandardCrc32(data: seq<bv8>): bv32
  {
    Register(data) ^ AllOnes
  }

  // ---------------------------------------------------------------------
  // The client's implementation

  lemma LowBit(crc: bv32)
    ensures crc & 1 == 0 || crc & 1 == 1
  {
  }

  /** The client writes the conditional XOR as a multiplication by the low
      bit (C#'s `*` binds tighter than `^`, hence the parentheses here); both
      select the polynomial exactly when that bit is set. */
  lemma MultiplyIsConditionalXor(crc: bv32)
    ensures (crc >> 1) ^ ((crc & 1) * Polynomial) == Round(crc)
  {
    LowBit(crc);
    if crc & 1 == 0 {
      assert (crc & 1) * Polynomial == 0;
    }
  }

  /** The unrolled eight steps of FeedByte are the loop of eight steps. */
  lemma EightRounds(crc: bv32, b: bv8)
    ensures Rounds(crc ^ (b as bv32), 8) == FeedByte(crc, b)
  {
  }

  /** TextureCache.CRC32, loop for loop. */
  method CRC32(data: seq<bv8>) returns (checksum: bv32)
    ensures checksum == StandardCrc32(data)
    ensures |data| == 0 ==> checksum == 0
  {
    var crc: bv32 := AllOnes;
    var i := 0;
    while i < |data|
      invariant 0 <= i <= |data|
      invariant crc == Register(data[..i])
    {
      crc := ShiftInByte(crc, data[i]);
      assert data[..i + 1][..i] == data[..i];
      i := i + 1;
    }
    assert data[..i] == data;
    checksum := crc ^ AllOnes;
  }

  /** The body of the outer loop: `crc ^= data[i]` and the eight-step inner
      loop. */
  method ShiftInByte(register: bv32, b: bv8) returns (crc: bv32)
    ensures crc == FeedByte(register, b)
  {
    crc := register ^ (b as bv32);
    EightRounds(register, b);
    var j := 0;
    while j < 8
      invariant 0 <= j <= 8
      invariant Rounds(crc, 8 - j) == FeedByte(register, b)
    {
      MultiplyIsConditionalXor(crc);
      crc := (crc >> 1) ^ ((crc & 1) * Polynomial);
      j := j + 1;
    }
  }

  /** The ASCII digits "123456789" have the published CRC-32 check value
      0xCBF43926, as the ITU-T V.42 CRC must. */
  lemma CheckValue()
    ensures StandardCrc32([0x31, 0x32, 0x33, 0x34, 0x35, 0x36, 0x37, 0x38, 0x39]) == 0xCBF4_3926
  {
    var d: seq<bv8> := [0x31, 0x32, 0x33, 0x34, 0x35, 0x36, 0x37, 0x38, 0x39];
    assert d[..0] == [];
    assert Register(d[..1]) == 0x7c23_1048 by { assert d[..1][..0] == d[..0]; }
    assert Register(d[..2]) == 0xb0ac_bb32 by { assert d[..2][..1] == d[..1]; }
    assert Register(d[..3]) == 0x77b7_9c2d by { assert d[..3][..2] == d[..2]; }
    assert Register(d[..4]) == 0x641c_1f5c by { assert d[..4][..3] == d[..3]; }
    assert Register(d[..5]) == 0x340a_c5e3 by { assert d[..5][..4] == d[..4]; }
    assert Register(d[..6]) == 0xf68d_2c9e by { assert d[..6][..5] == d[..5]; }
    assert Register(d[..7]) == 0xaffc_9660 by { assert d[..7][..6] == d[..6]; }
    assert Register(d[..8]) == 0x651f_2550 by { assert d[..8][..7] == d[..7]; }
    assert Register(d) == 0x340b_c6d9 by { assert d[..8] == d[..|d| - 1]; }
  }

  // ---------------------------------------------------------------------
  // Cache path

  /** UTF-8 encoding of one Unicode scalar value. */
  function Utf8Char(c: char): (bytes: seq<byte>)
    ensures 1 <= |bytes| <= 4
    ensures (c as int) < 0x80 <==> |bytes| == 1
    ensures (c as int) < 0x80 ==> bytes == [c as int]
  {
    var v := c as int;
    if v < 0x80 then [v]
    else if v < 0x800 then [0xC0 + v / 0x40, 0x80 + v % 0x40]
    else if v < 0x1_0000 then [0xE0 + v / 0x1000, 0x80 + (v / 0x40) % 0x40, 0x80 + v % 0x40]
    else [0xF0 + v / 0x4_0000, 0x80 + (v / 0x1000) % 0x40, 0x80 + (v / 0x40) % 0x40, 0x80 + v % 0x40]
  }

  /** Encoding.UTF8.GetBytes. */
  function Utf8(s: string): (bytes: seq<byte>)
    ensures |s| <= |bytes| <= 4 * |s|
    ensures (forall i :: 0 <= i < |s| ==> (s[i] as int) < 0x80) ==>
              |bytes| == |s| && forall i :: 0 <= i < |s| ==> bytes[i] == s[i] as int
  {
    if |s| == 0 then [] else Utf8(s[..|s| - 1]) + Utf8Char(s[|s| - 1])
  }

  /** The same bytes as .NET byte values. */
  function AsBytes(s: seq<byte>): (b: seq<bv8>)
    ensures |b| == |s|
  {
    seq(|s|, i requires 0 <= i < |s| => s[i] as bv8)
  }

  /** Path.Combine for a relative second part: insert the separator unless
      the first part is empty or already ends with it. */
  function Combine(first: string, second: string, separator: char): string
  {
    if |first| == 0 then second
    else if first[|first| - 1] == separator then first + second
    else first + [separator] + second
  }

  /** TextureCache.MakePath: the cache directory joined with the decimal
      checksum of the URL's UTF-8 bytes. */
  function MakePath(appDirectory: string, separator: char, url: string): string
  {
    CachePath(appDirectory, separator, StandardCrc32(AsBytes(Utf8(url))) as int)
  }

  /** The path of the cache file named by checksum `crc`. */
  function CachePath(appDirectory: string, separator: char, crc: nat): string
  {
    Combine(Combine(appDirectory, Folder, separator), ShowNat(crc), separator)
  }

  /** The last component of a path: everything after the last separator. */
  function FileName(path: string, separator: char): string
  {
    if |path| == 0 || path[|path| - 1] == separator then []
    else FileName(path[..|path| - 1], separator) + [path[|path| - 1]]
  }

  lemma {:induction false} FileNameAfterSeparator(dir: string, separator: char, name: string)
    requires forall i :: 0 <= i < |name| ==> name[i] != separator
    ensures FileName(dir + [separator] + name, separator) == name
  {
    if |name| > 0 {
      var p := dir + [separator] + name;
      assert p[..|p| - 1] == dir + [separator] + name[..|name| - 1];
      FileNameAfterSeparator(dir, separator, name[..|name| - 1]);
      assert name == name[..|name| - 1] + [name[|name| - 1]];
    } else {
      assert (dir + [separator] + name)[|dir|] == separator;
    }
  }

  /** A cache file lives in the texture cache directory and its name reads
      back as the checksum it was made from. */
  lemma CacheFileIsNamedByCrc(appDirectory: string, separator: char, crc: nat)
    requires separator == '/' || separator == '\\'
    ensures var name := FileName(CachePath(appDirectory, separator, crc), separator);
            AllDigits(name) && ParseNat(name) == crc
  {
    var dir := Combine(appDirectory, Folder, separator);
    var name := ShowNat(crc);
    ParseShowNat(crc);
    assert Folder[|Folder| - 1] == 'e';
    assert |dir| > 0 && dir[|dir| - 1] != separator;
    assert CachePath(appDirectory, separator, crc) == dir + [separator] + name;
    FileNameAfterSeparator(dir, separator, name);
  }

  /** URLs whose checksums differ never share a cache file; URLs that are
      equal always do, since MakePath is a function of the URL alone. */
  lemma DifferentCrcDifferentFile(appDirectory: string, separator: char, url1: string, url2: string)
    requires separator == '/' || separator == '\\'
    requires StandardCrc32(AsBytes(Utf8(url1))) as int != StandardCrc32(AsBytes(Utf8(url2))) as int
    ensures MakePath(appDirectory, separator, url1) != MakePath(appDirectory, separator, url2)
  {
    CacheFileIsNamedByCrc(appDirectory, separator, StandardCrc32(AsBytes(Utf8(url1))) as int);
    CacheFileIsNamedByCrc(appDirectory, separator, StandardCrc32(AsBytes(Utf8(url2))) as int);
  }
}
