/** The LVL map importer (MCLawl server maps), over the already decompressed
    file bytes. The file is a little-endian header, the block array in
    x-fastest, then z, then y order, and optionally a section of 16x16x16
    chunks of custom block ids that overlay the cells holding the custom
    block marker. */
module MapLvl {
  import opened Common

  /** A first 16-bit value equal to this marks the header with an extra
      width field and a trailing permissions field. */
  const Version := 1874

  /** Blocks below this id are CPE blocks kept as they are; the physics
      blocks above are remapped through Table (BlockInfo is not part of this
      model; 256 - 66 is the table's 190 entries). */
  const CpeBlocksCount := 66

  /** The block id standing for "custom block, id in the custom section". */
  const CustomBlock := 163

  /** The byte that announces the custom-block section. */
  const CustomSectionMarker := 0xBD

  const ChunkVolume := 16 * 16 * 16

  /** Replacement id for physics block id CpeBlocksCount + k, one case per
      entry of the importer's 190-entry table. */
  function Table(k: nat): byte
    requires k < 256 - CpeBlocksCount
  {
    match k
    case 0 => 0 case 1 => 0 case 2 => 0 case 3 => 0 case 4 => 39 case 5 => 36 case 6 => 36 case 7 => 10
    case 8 => 46 case 9 => 21 case 10 => 22 case 11 => 22 case 12 => 22 case 13 => 22 case 14 => 4 case 15 => 0
    case 16 => 22 case 17 => 21 case 18 => 0 case 19 => 22 case 20 => 23 case 21 => 24 case 22 => 22 case 23 => 26
    case 24 => 27 case 25 => 28 case 26 => 30 case 27 => 31 case 28 => 32 case 29 => 33 case 30 => 34 case 31 => 35
    case 32 => 36 case 33 => 22 case 34 => 20 case 35 => 49 case 36 => 45 case 37 => 1 case 38 => 4 case 39 => 0
    case 40 => 9 case 41 => 11 case 42 => 4 case 43 => 19 case 44 => 5 case 45 => 17 case 46 => 10 case 47 => 49
    case 48 => 20 case 49 => 1 case 50 => 18 case 51 => 12 case 52 => 5 case 53 => 25 case 54 => 46 case 55 => 44
    case 56 => 17 case 57 => 49 case 58 => 20 case 59 => 1 case 60 => 18 case 61 => 12 case 62 => 5 case 63 => 25
    case 64 => 36 case 65 => 34 case 66 => 0 case 67 => 9 case 68 => 11 case 69 => 46 case 70 => 44 case 71 => 0
    case 72 => 9 case 73 => 11 case 74 => 8 case 75 => 10 case 76 => 22 case 77 => 27 case 78 => 22 case 79 => 8
    case 80 => 10 case 81 => 28 case 82 => 17 case 83 => 49 case 84 => 20 case 85 => 1 case 86 => 18 case 87 => 12
    case 88 => 5 case 89 => 25 case 90 => 46 case 91 => 44 case 92 => 11 case 93 => 9 case 94 => 0 case 95 => 9
    case 96 => 11 case 97 => 163 case 98 => 0 case 99 => 0 case 100 => 9 case 101 => 11 case 102 => 0 case 103 => 0
    case 104 => 0 case 105 => 0 case 106 => 0 case 107 => 0 case 108 => 0 case 109 => 28 case 110 => 22 case 111 => 21
    case 112 => 11 case 113 => 0 case 114 => 0 case 115 => 0 case 116 => 46 case 117 => 46 case 118 => 10 case 119 => 10
    case 120 => 46 case 121 => 20 case 122 => 41 case 123 => 42 case 124 => 11 case 125 => 9 case 126 => 0 case 127 => 8
    case 128 => 10 case 129 => 10 case 130 => 8 case 131 => 0 case 132 => 22 case 133 => 22 case 134 => 0 case 135 => 0
    case 136 => 0 case 137 => 0 case 138 => 0 case 139 => 0 case 140 => 0 case 141 => 0 case 142 => 0 case 143 => 0
    case 144 => 0 case 145 => 21 case 146 => 10 case 147 => 0 case 148 => 0 case 149 => 0 case 150 => 0 case 151 => 0
    case 152 => 22 case 153 => 22 case 154 => 42 case 155 => 3 case 156 => 2 case 157 => 29 case 158 => 47 case 159 => 0
    case 160 => 0 case 161 => 0 case 162 => 0 case 163 => 0 case 164 => 27 case 165 => 46 case 166 => 48 case 167 => 24
    case 168 => 22 case 169 => 36 case 170 => 34 case 171 => 8 case 172 => 10 case 173 => 21 case 174 => 29 case 175 => 22
    case 176 => 10 case 177 => 22 case 178 => 22 case 179 => 41 case 180 => 19 case 181 => 35 case 182 => 21 case 183 => 29
    case 184 => 49 case 185 => 34 case 186 => 16 case 187 => 41 case 188 => 0 case _ => 22
  }

  // ---------------------------------------------------------------------
  // Reading

  /** A value read and the position after it. */
  datatype Parsed<T> = Parsed(value: T, next: nat)

  /** BinaryReader.ReadByte: fails at the end of the data. */
  function ReadByte(data: seq<byte>, pos: nat): (r: Result<Parsed<byte>>)
    ensures r.Ok? <==> pos < |data|
    ensures r.Ok? ==> r.value.value == data[pos] && r.value.next == pos + 1
  {
    if pos < |data| then Ok(Parsed(data[pos], pos + 1)) else Err(EndOfStream)
  }

  /** BinaryReader.ReadUInt16: two bytes, low byte first. */
  function ReadU16(data: seq<byte>, pos: nat): (r: Result<Parsed<u16>>)
    ensures r.Ok? <==> pos + 2 <= |data|
    ensures r.Ok? ==> r.value.next == pos + 2
  {
    if pos + 2 <= |data| then
      var v: u16 := (data[pos] as int) + 256 * (data[pos + 1] as int);
      Ok(Parsed(v, pos + 2))
    else Err(EndOfStream)
  }

  /** Little-endian bytes of a 16-bit value. */
  function U16Bytes(v: u16): (bs: seq<byte>)
    ensures |bs| == 2
  {
    [v % 256, v / 256]
  }

  /** The header fields. Spawn coordinates are read in X, Z, Y order. Yaw and
      pitch stay packed bytes (their conversion to degrees is floating point). */
  datatype Header = Header(width: u16, length: u16, height: u16,
                           spawnX: u16, spawnZ: u16, spawnY: u16,
                           yaw: byte, pitch: byte)

  /** The header starts with the version marker. */
  predicate Versioned(data: seq<byte>)
  {
    |data| >= 2 && (data[0] as int) + 256 * (data[1] as int) == Version
  }

  /** Length of the header: 14 bytes, or 18 with the version marker (extra
      width field and the skipped permissions field). */
  function HeaderSize(data: seq<byte>): nat
  {
    if Versioned(data) then 18 else 14
  }

  /** The fields every header has after its width: length, height, the
      spawn point and the packed orientation, twelve bytes in all. */
  function ParseFields(data: seq<byte>, width: u16, pos: nat): (r: Result<Parsed<Header>>)
    ensures r.Ok? <==> pos + 12 <= |data|
    ensures r.Err? ==> r.error == EndOfStream
    ensures r.Ok? ==> r.value.next == pos + 12 && r.value.value.width == width
  {
    var length :- ReadU16(data, pos);
    var height :- ReadU16(data, length.next);
    var sx :- ReadU16(data, height.next);
    var sz :- ReadU16(data, sx.next);
    var sy :- ReadU16(data, sz.next);
    var yaw :- ReadByte(data, sy.next);
    var pitch :- ReadByte(data, yaw.next);
    Ok(Parsed(Header(width, length.value, height.value, sx.value, sz.value, sy.value,
                     yaw.value, pitch.value), pitch.next))
  }

  /** The header part of MapLvlImporter.Load. */
  function ParseHeader(data: seq<byte>): (r: Result<Parsed<Header>>)
    ensures r.Ok? <==> HeaderSize(data) <= |data|
    ensures r.Err? ==> r.error == EndOfStream
    ensures r.Ok? ==> r.value.next == HeaderSize(data)
  {
    var first :- ReadU16(data, 0);
    var width :- if first.value == Version then ReadU16(data, first.next) else Ok(first);
    var fields :- ParseFields(data, width.value, width.next);
    var perms :- if first.value == Version then ReadU16(data, fields.next) else Ok(Parsed(0, fields.next));
    Ok(Parsed(fields.value, perms.next))
  }

  /** How a server writes the fields after the width. */
  function EncodeFields(h: Header): (bs: seq<byte>)
    ensures |bs| == 12
  {
    [h.length % 256, h.length / 256, h.height % 256, h.height / 256,
     h.spawnX % 256, h.spawnX / 256, h.spawnZ % 256, h.spawnZ / 256,
     h.spawnY % 256, h.spawnY / 256, h.yaw, h.pitch]
  }

  /** How a server writes the header; `perms` is the permissions field of
      versioned headers, which the reader skips. */
  function EncodeHeader(h: Header, versioned: bool, perms: u16): (bs: seq<byte>)
    ensures |bs| == if versioned then 18 else 14
  {
    (if versioned then U16Bytes(Version) + U16Bytes(h.width) else U16Bytes(h.width))
      + EncodeFields(h)
      + (if versioned then U16Bytes(perms) else [])
  }

  /** ReadU16 of two bytes holding the little-endian form of v. */
  lemma ReadU16At(data: seq<byte>, pos: nat, v: u16)
    requires pos + 2 <= |data| && data[pos] == v % 256 && data[pos + 1] == v / 256
    ensures ReadU16(data, pos) == Ok(Parsed(v, pos + 2))
  {
  }

  /** The fields read back as written, wherever they sit in the data. */
  lemma FieldsRoundTrip(h: Header, before: seq<byte>, after: seq<byte>)
    ensures ParseFields(before + EncodeFields(h) + after, h.width, |before|) == Ok(Parsed(h, |before| + 12))
  {
    var data := before + EncodeFields(h) + after;
    var b := |before|;
    var enc := EncodeFields(h);
    assert forall k :: 0 <= k < 12 ==> data[b + k] == enc[k];
    ReadU16At(data, b, h.length);
    ReadU16At(data, b + 2, h.height);
    ReadU16At(data, b + 4, h.spawnX);
    ReadU16At(data, b + 6, h.spawnZ);
    ReadU16At(data, b + 8, h.spawnY);
    assert data[b + 10] == h.yaw && data[b + 11] == h.pitch;
  }

  /** The header reads back exactly as written, in either variant, and the
      blocks start right after it. An unversioned header cannot have width
      1874: that width would be taken for the version marker. */
  lemma HeaderRoundTrip(h: Header, versioned: bool, perms: u16, rest: seq<byte>)
    requires !versioned ==> h.width != Version
    ensures ParseHeader(EncodeHeader(h, versioned, perms) + rest) ==
              Ok(Parsed(h, if versioned then 18 else 14))
  {
    var start := if versioned then U16Bytes(Version) + U16Bytes(h.width) else U16Bytes(h.width);
    var tail := (if versioned then U16Bytes(perms) else []) + rest;
    var data := EncodeHeader(h, versioned, perms) + rest;
    assert data == start + EncodeFields(h) + tail;
    FieldsRoundTrip(h, start, tail);
    assert data[0] == start[0] && data[1] == start[1];
    if versioned {
      ReadU16At(data, 0, Version);
      assert data[2] == start[2] && data[3] == start[3];
      ReadU16At(data, 2, h.width);
      assert data[16] == perms % 256 && data[17] == perms / 256;
      ReadU16At(data, 16, perms);
    } else {
      ReadU16At(data, 0, h.width);
    }
  }

  // ---------------------------------------------------------------------
  // ConvertPhysicsBlocks

  /** The 256-entry conversion table the importer builds: CPE ids map to
      themselves, the rest through Table. */
  function ConversionTable(): (conv: seq<byte>)
    ensures |conv| == 256
  {
    seq(256, i requires 0 <= i < 256 => ConvertId(i))
  }

  function ConvertId(id: byte): byte
  {
    if id < CpeBlocksCount then id else Table(id - CpeBlocksCount)
  }

  function ConvertPhysicsBlocks(blocks: seq<byte>): (r: seq<byte>)
    ensures |r| == |blocks|
    ensures forall i :: 0 <= i < |blocks| ==>
              r[i] == if blocks[i] < CpeBlocksCount then blocks[i] else Table(blocks[i] - CpeBlocksCount)
  {
    var conv := ConversionTable();
    seq(|blocks|, i requires 0 <= i < |blocks| => conv[blocks[i]])
  }

  /** After conversion every id is a CPE block id or the custom block marker,
      and the marker itself is kept, so the custom section still finds it. */
  lemma ConvertedIds(blocks: seq<byte>)
    ensures forall i :: 0 <= i < |blocks| ==>
              ConvertPhysicsBlocks(blocks)[i] < CpeBlocksCount || ConvertPhysicsBlocks(blocks)[i] == CustomBlock
    ensures forall i :: 0 <= i < |blocks| && blocks[i] == CustomBlock ==>
              ConvertPhysicsBlocks(blocks)[i] == CustomBlock
  {
    assert forall k :: 0 <= k < 256 - CpeBlocksCount ==> Table(k) < 50 || Table(k) == CustomBlock;
  }

  // ---------------------------------------------------------------------
  // Custom block section: chunk origins

  /** 0, 16, 32, ... below n: the values of a `for (v = k; v < n; v += 16)`
      loop. */
  function StepsFrom(k: nat, n: int): (vs: seq<nat>)
    ensures forall i :: 0 <= i < |vs| ==> vs[i] == k + 16 * i && vs[i] < n
    decreases n - k
  {
    if k >= n then [] else [k] + StepsFrom(k + 16, n)
  }

  lemma {:induction false} StepsFromMembers(k: nat, n: int, v: int)
    ensures v in StepsFrom(k, n) <==> k <= v < n && (v - k) % 16 == 0
    decreases n - k
  {
    if k < n {
      StepsFromMembers(k + 16, n, v);
    }
  }

  function Steps(n: int): seq<nat>
  {
    StepsFrom(0, n)
  }

  lemma StepsIncreasing(n: int)
    ensures forall i, j :: 0 <= i < j < |Steps(n)| ==> Steps(n)[i] < Steps(n)[j]
  {
  }

  datatype Origin = Origin(x: nat, y: nat, z: nat)

  function Row(y: nat, z: nat, xs: seq<nat>): (os: seq<Origin>)
    ensures |os| == |xs|
    ensures forall i :: 0 <= i < |xs| ==> os[i] == Origin(xs[i], y, z)
  {
    seq(|xs|, i requires 0 <= i < |xs| => Origin(xs[i], y, z))
  }

  function Layer(y: nat, zs: seq<nat>, xs: seq<nat>): seq<Origin>
  {
    if |zs| == 0 then [] else Row(y, zs[0], xs) + Layer(y, zs[1..], xs)
  }

  function Volume(ys: seq<nat>, zs: seq<nat>, xs: seq<nat>): seq<Origin>
  {
    if |ys| == 0 then [] else Layer(ys[0], zs, xs) + Volume(ys[1..], zs, xs)
  }

  /** The chunk origins the three nested loops of ReadCustomBlocks visit:
      y outermost, then z, then x, each in steps of 16. */
  function ChunkOrigins(width: nat, height: nat, length: nat): seq<Origin>
  {
    Volume(Steps(height), Steps(length), Steps(width))
  }

  lemma {:induction false} LayerMembers(y: nat, zs: seq<nat>, xs: seq<nat>, o: Origin)
    ensures o in Layer(y, zs, xs) <==> o.y == y && o.z in zs && o.x in xs
  {
    if |zs| > 0 {
      LayerMembers(y, zs[1..], xs, o);
      assert o in Row(y, zs[0], xs) <==> o.y == y && o.z == zs[0] && o.x in xs;
      assert zs == [zs[0]] + zs[1..];
    }
  }

  lemma {:induction false} VolumeMembers(ys: seq<nat>, zs: seq<nat>, xs: seq<nat>, o: Origin)
    ensures o in Volume(ys, zs, xs) <==> o.y in ys && o.z in zs && o.x in xs
  {
    if |ys| > 0 {
      VolumeMembers(ys[1..], zs, xs, o);
      LayerMembers(ys[0], zs, xs, o);
      assert ys == [ys[0]] + ys[1..];
    }
  }

  /** Every chunk of the map is visited: the origins are exactly the
      multiples of 16 inside the map. */
  lemma ChunkOriginsAreAllChunks(width: nat, height: nat, length: nat, o: Origin)
    ensures o in ChunkOrigins(width, height, length) <==>
              o.x < width && o.y < height && o.z < length &&
              o.x % 16 == 0 && o.y % 16 == 0 && o.z % 16 == 0
  {
    VolumeMembers(Steps(height), Steps(length), Steps(width), o);
    StepsMembers(height, o.y);
    StepsMembers(length, o.z);
    StepsMembers(width, o.x);
  }

  /** The loop values below n are the multiples of 16 below n. */
  lemma StepsMembers(n: int, v: nat)
    ensures v in Steps(n) <==> v < n && v % 16 == 0
  {
    StepsFromMembers(0, n, v);
  }

  /** y, then z, then x: the order of the nested loops. */
  predicate Before(a: Origin, b: Origin)
  {
    a.y < b.y || (a.y == b.y && (a.z < b.z || (a.z == b.z && a.x < b.x)))
  }

  predicate Increasing(s: seq<nat>)
  {
    forall i, j :: 0 <= i < j < |s| ==> s[i] < s[j]
  }

  predicate InLoopOrder(os: seq<Origin>)
  {
    forall i, j :: 0 <= i < j < |os| ==> Before(os[i], os[j])
  }

  lemma ConcatInLoopOrder(a: seq<Origin>, b: seq<Origin>)
    requires InLoopOrder(a) && InLoopOrder(b)
    requires forall p, q :: p in a && q in b ==> Before(p, q)
    ensures InLoopOrder(a + b)
  {
    forall i, j | 0 <= i < j < |a + b|
      ensures Before((a + b)[i], (a + b)[j])
    {
      if j < |a| {
        assert (a + b)[i] == a[i] && (a + b)[j] == a[j];
      } else if i >= |a| {
        assert (a + b)[i] == b[i - |a|] && (a + b)[j] == b[j - |a|];
      } else {
        assert (a + b)[i] in a && (a + b)[j] in b;
      }
    }
  }

  lemma {:induction false} LayerInLoopOrder(y: nat, zs: seq<nat>, xs: seq<nat>)
    requires Increasing(zs) && Increasing(xs)
    ensures InLoopOrder(Layer(y, zs, xs))
  {
    if |zs| > 0 {
      assert Increasing(zs[1..]);
      LayerInLoopOrder(y, zs[1..], xs);
      forall p, q | p in Row(y, zs[0], xs) && q in Layer(y, zs[1..], xs)
        ensures Before(p, q)
      {
        LayerMembers(y, zs[1..], xs, q);
        var k :| 0 <= k < |zs[1..]| && zs[1..][k] == q.z;
        assert zs[k + 1] == q.z;
      }
      ConcatInLoopOrder(Row(y, zs[0], xs), Layer(y, zs[1..], xs));
    }
  }

  lemma {:induction false} VolumeInLoopOrder(ys: seq<nat>, zs: seq<nat>, xs: seq<nat>)
    requires Increasing(ys) && Increasing(zs) && Increasing(xs)
    ensures InLoopOrder(Volume(ys, zs, xs))
  {
    if |ys| > 0 {
      assert Increasing(ys[1..]);
      VolumeInLoopOrder(ys[1..], zs, xs);
      LayerInLoopOrder(ys[0], zs, xs);
      forall p, q | p in Layer(ys[0], zs, xs) && q in Volume(ys[1..], zs, xs)
        ensures Before(p, q)
      {
        LayerMembers(ys[0], zs, xs, p);
        VolumeMembers(ys[1..], zs, xs, q);
        var k :| 0 <= k < |ys[1..]| && ys[1..][k] == q.y;
        assert ys[k + 1] == q.y;
      }
      ConcatInLoopOrder(Layer(ys[0], zs, xs), Volume(ys[1..], zs, xs));
    }
  }

  /** The chunks are visited in strictly increasing (y, z, x) order. */
  lemma ChunkOriginsInLoopOrder(width: nat, height: nat, length: nat)
    ensures InLoopOrder(ChunkOrigins(width, height, length))
  {
    StepsIncreasing(width);
    StepsIncreasing(height);
    StepsIncreasing(length);
    VolumeInLoopOrder(Steps(height), Steps(length), Steps(width));
  }

  // ---------------------------------------------------------------------
  // Custom block section: cells of a chunk

  /** The cell of a chunk that byte i of the chunk data describes: x in the
      low four bits, z in the middle four, y in the high four. */
  datatype Cell = Cell(dx: nat, dy: nat, dz: nat)

  function CellOf(i: nat): Cell
  {
    Cell(i % 16, (i / 256) % 16, (i / 16) % 16)
  }

  function IndexOf(c: Cell): nat
  {
    c.dy * 256 + c.dz * 16 + c.dx
  }

  /** Quotient and remainder by a positive constant, from any decomposition
      whose remainder is in range. */
  lemma DivModOf(a: nat, q: nat, r: nat, d: nat)
    requires r < d && a == q * d + r
    ensures a / d == q && a % d == r
  {
    DivModUnique(a / d, a % d, q, r, d);
  }

  /** IndexOf undoes CellOf on the indices of a chunk. */
  lemma IndexOfCellOf(i: nat)
    requires i < ChunkVolume
    ensures IndexOf(CellOf(i)) == i
  {
    var q1, r1 := i / 16, i % 16;
    var q2, r2 := q1 / 16, q1 % 16;
    assert q2 < 16;
    DivModOf(i, q2, 16 * r2 + r1, 256);
    DivModOf(q2, 0, q2, 16);
  }

  /** CellOf undoes IndexOf on the cells of a chunk. */
  lemma CellOfIndexOf(c: Cell)
    requires c.dx < 16 && c.dy < 16 && c.dz < 16
    ensures IndexOf(c) < ChunkVolume && CellOf(IndexOf(c)) == c
  {
    var i := IndexOf(c);
    DivModOf(i, c.dy * 16 + c.dz, c.dx, 16);
    DivModOf(c.dy * 16 + c.dz, c.dy, c.dz, 16);
    DivModOf(i, c.dy, c.dz * 16 + c.dx, 256);
    DivModOf(c.dy, 0, c.dy, 16);
  }

  /** CellOf is a bijection between 0 .. 4095 and the 16x16x16 cells, with
      IndexOf as its inverse. */
  lemma CellBijection(i: nat, c: Cell)
    ensures i < ChunkVolume ==> IndexOf(CellOf(i)) == i
    ensures c.dx < 16 && c.dy < 16 && c.dz < 16 ==> CellOf(IndexOf(c)) == c && IndexOf(c) < ChunkVolume
  {
    if i < ChunkVolume {
      IndexOfCellOf(i);
    }
    if c.dx < 16 && c.dy < 16 && c.dz < 16 {
      CellOfIndexOf(c);
    }
  }

  /** Position in the block array of world cell (x, y, z). */
  function WorldIndex(x: nat, y: nat, z: nat, width: nat, length: nat): nat
  {
    (y * length + z) * width + x
  }

  /** Index of the block that byte i of the chunk at `o` overlays. */
  function TargetIndex(o: Origin, i: nat, width: nat, length: nat): nat
  {
    var c := CellOf(i);
    WorldIndex(o.x, o.y, o.z, width, length) + WorldIndex(c.dx, c.dy, c.dz, width, length)
  }

  /** The overlaid block is the world cell at the chunk origin plus the
      cell's offset. */
  lemma TargetIsWorldCell(o: Origin, i: nat, width: nat, length: nat)
    ensures var c := CellOf(i);
            TargetIndex(o, i, width, length) == WorldIndex(o.x + c.dx, o.y + c.dy, o.z + c.dz, width, length)
  {
    var c := CellOf(i);
    assert (o.y * length + o.z) * width + o.x + (c.dy * length + c.dz) * width + c.dx
        == ((o.y + c.dy) * length + (o.z + c.dz)) * width + (o.x + c.dx);
  }

  lemma MulLeftMono(a: nat, b: nat, c: nat)
    requires a <= b
    ensures c * a <= c * b
  {
    var k := b - a;
    assert c * b == c * a + c * k;
  }

  /** Quotient and remainder by w are unique. */
  lemma DivModUnique(q1: nat, r1: nat, q2: nat, r2: nat, w: nat)
    requires r1 < w && r2 < w
    requires q1 * w + r1 == q2 * w + r2
    ensures q1 == q2 && r1 == r2
  {
    if q1 < q2 {
      MulLeftMono(q1 + 1, q2, w);
      assert false;
    } else if q2 < q1 {
      MulLeftMono(q2 + 1, q1, w);
      assert false;
    }
  }

  /** A world cell inside the map lies inside the block array. */
  lemma WorldIndexInRange(x: nat, y: nat, z: nat, width: nat, height: nat, length: nat)
    requires x < width && y < height && z < length
    ensures WorldIndex(x, y, z, width, length) < width * height * length
  {
    var row := y * length + z;
    assert y * length + z < (y + 1) * length;
    MulLeftMono(y + 1, height, length);
    assert row + 1 <= height * length;
    MulLeftMono(row + 1, height * length, width);
    assert row * width + x < (row + 1) * width;
    assert width * (height * length) == width * height * length;
  }

  /** Within a map at least 16 wide and long, distinct bytes of a chunk
      overlay distinct blocks. */
  lemma TargetsDistinct(o: Origin, i: nat, j: nat, width: nat, length: nat)
    requires i < ChunkVolume && j < ChunkVolume && i != j
    requires width >= 16 && length >= 16
    ensures TargetIndex(o, i, width, length) != TargetIndex(o, j, width, length)
  {
    var ci, cj := CellOf(i), CellOf(j);
    if TargetIndex(o, i, width, length) == TargetIndex(o, j, width, length) {
      DivModUnique(ci.dy * length + ci.dz, ci.dx, cj.dy * length + cj.dz, cj.dx, width);
      DivModUnique(ci.dy, ci.dz, cj.dy, cj.dz, length);
      CellBijection(i, ci);
      CellBijection(j, cj);
      assert false;
    }
  }

  // ---------------------------------------------------------------------
  // Custom block section: overlaying one chunk

  /** The inner loop of ReadCustomBlocks from byte i on: a block holding the
      custom marker takes the chunk's id; an index past the array fails. */
  function OverlayFrom(blocks: seq<byte>, chunk: seq<byte>, o: Origin, width: nat, length: nat, i: nat): (r: Result<seq<byte>>)
    requires |chunk| == ChunkVolume && i <= ChunkVolume
    ensures r.Ok? ==> |r.value| == |blocks|
    ensures r.Err? ==> r.error == IndexOutOfRange
    decreases ChunkVolume - i
  {
    if i == ChunkVolume then Ok(blocks)
    else
      var index := TargetIndex(o, i, width, length);
      if index >= |blocks| then Err(IndexOutOfRange)
      else
        var updated := if blocks[index] == CustomBlock then blocks[index := chunk[i]] else blocks;
        OverlayFrom(updated, chunk, o, width, length, i + 1)
  }

  function Overlay(blocks: seq<byte>, chunk: seq<byte>, o: Origin, width: nat, length: nat): Result<seq<byte>>
    requires |chunk| == ChunkVolume
  {
    OverlayFrom(blocks, chunk, o, width, length, 0)
  }

  /** Only blocks holding the custom marker ever change. */
  lemma {:induction false} OverlayOnlyReplacesCustom(blocks: seq<byte>, chunk: seq<byte>, o: Origin, width: nat, length: nat, i: nat)
    requires |chunk| == ChunkVolume && i <= ChunkVolume
    requires OverlayFrom(blocks, chunk, o, width, length, i).Ok?
    ensures var r := OverlayFrom(blocks, chunk, o, width, length, i).value;
            forall j :: 0 <= j < |blocks| && blocks[j] != CustomBlock ==> r[j] == blocks[j]
    decreases ChunkVolume - i
  {
    if i < ChunkVolume {
      var index := TargetIndex(o, i, width, length);
      var updated := if blocks[index] == CustomBlock then blocks[index := chunk[i]] else blocks;
      OverlayOnlyReplacesCustom(updated, chunk, o, width, length, i + 1);
    }
  }

  /** All bytes of a chunk at `o` land inside the map when its dimensions
      are multiples of 16 and `o` is a chunk origin. */
  predicate ChunkInside(o: Origin, width: nat, height: nat, length: nat)
  {
    o.x + 16 <= width && o.y + 16 <= height && o.z + 16 <= length
  }

  lemma TargetInRange(o: Origin, i: nat, width: nat, height: nat, length: nat)
    requires i < ChunkVolume && ChunkInside(o, width, height, length)
    ensures TargetIndex(o, i, width, length) < width * height * length
  {
    var c := CellOf(i);
    TargetIsWorldCell(o, i, width, length);
    WorldIndexInRange(o.x + c.dx, o.y + c.dy, o.z + c.dz, width, height, length);
  }

  /** Overlaying a chunk that lies inside the map never fails. */
  lemma {:induction false} OverlaySucceeds(blocks: seq<byte>, chunk: seq<byte>, o: Origin,
                                           width: nat, height: nat, length: nat, i: nat)
    requires |chunk| == ChunkVolume && i <= ChunkVolume
    requires |blocks| == width * height * length
    requires ChunkInside(o, width, height, length)
    ensures OverlayFrom(blocks, chunk, o, width, length, i).Ok?
    decreases ChunkVolume - i
  {
    if i < ChunkVolume {
      var index := TargetIndex(o, i, width, length);
      TargetInRange(o, i, width, height, length);
      var updated := if blocks[index] == CustomBlock then blocks[index := chunk[i]] else blocks;
      OverlaySucceeds(updated, chunk, o, width, height, length, i + 1);
    }
  }

  /** Some byte from i on overlays block j. */
  predicate Targeted(o: Origin, j: int, i: nat, width: nat, length: nat)
  {
    exists k :: i <= k < ChunkVolume && TargetIndex(o, k, width, length) == j
  }

  /** The effect of overlaying a chunk in a map at least 16 wide and long:
      each overlaid block is replaced by the chunk's id exactly when it held
      the custom marker, and every block no byte overlays is unchanged. */
  lemma {:induction false} OverlayEffect(blocks: seq<byte>, chunk: seq<byte>, o: Origin,
                                         width: nat, length: nat, i: nat)
    requires |chunk| == ChunkVolume && i <= ChunkVolume
    requires width >= 16 && length >= 16
    requires OverlayFrom(blocks, chunk, o, width, length, i).Ok?
    ensures var r := OverlayFrom(blocks, chunk, o, width, length, i).value;
            forall k :: i <= k < ChunkVolume ==>
              var t := TargetIndex(o, k, width, length);
              0 <= t < |blocks| && r[t] == if blocks[t] == CustomBlock then chunk[k] else blocks[t]
    ensures var r := OverlayFrom(blocks, chunk, o, width, length, i).value;
            forall j :: 0 <= j < |blocks| && !Targeted(o, j, i, width, length) ==> r[j] == blocks[j]
    decreases ChunkVolume - i
  {
    if i < ChunkVolume {
      var index := TargetIndex(o, i, width, length);
      var updated := if blocks[index] == CustomBlock then blocks[index := chunk[i]] else blocks;
      assert OverlayFrom(blocks, chunk, o, width, length, i) == OverlayFrom(updated, chunk, o, width, length, i + 1);
      OverlayEffect(updated, chunk, o, width, length, i + 1);
      forall k | i < k < ChunkVolume
        ensures TargetIndex(o, k, width, length) != index
      {
        TargetsDistinct(o, i, k, width, length);
      }
      forall j | 0 <= j < |blocks| && !Targeted(o, j, i, width, length)
        ensures !Targeted(o, j, i + 1, width, length) && j != index
      {
      }
    }
  }

  // ---------------------------------------------------------------------
  // Custom block section: all chunks

  /** The reader state of ReadCustomBlocks: stream position, the reused
      chunk buffer, and the blocks. */
  datatype CustomState = CustomState(pos: nat, chunk: seq<byte>, blocks: seq<byte>)

  /** One chunk of ReadCustomBlocks: the flag byte (-1 at the end of the
      data, which is not 1), then, if it is 1, up to 4096 bytes into the
      buffer, whose tail keeps the previous chunk's bytes on a short read. */
  function ReadChunk(data: seq<byte>, st: CustomState, o: Origin, width: nat, length: nat): (r: Result<CustomState>)
    requires |st.chunk| == ChunkVolume && st.pos <= |data|
    ensures r.Ok? ==> |r.value.chunk| == ChunkVolume && r.value.pos <= |data|
    ensures r.Ok? ==> |r.value.blocks| == |st.blocks|
    ensures (st.pos == |data| || data[st.pos] != 1) ==>
              r == Ok(st.(pos := if st.pos < |data| then st.pos + 1 else st.pos))
  {
    var flag: int := if st.pos < |data| then data[st.pos] else -1;
    var pos := if st.pos < |data| then st.pos + 1 else st.pos;
    if flag != 1 then Ok(st.(pos := pos))
    else
      var chunk := FillChunk(data, pos, st.chunk);
      var blocks :- Overlay(st.blocks, chunk.value, o, width, length);
      Ok(CustomState(chunk.next, chunk.value, blocks))
  }

  /** The chunk buffer after reading up to 4096 bytes at `pos`: the bytes
      read, then the tail of the previous contents. */
  function FillChunk(data: seq<byte>, pos: nat, prev: seq<byte>): (r: Parsed<seq<byte>>)
    requires pos <= |data| && |prev| == ChunkVolume
    ensures |r.value| == ChunkVolume && pos <= r.next <= |data|
    ensures r.next - pos <= ChunkVolume
    ensures forall k :: 0 <= k < r.next - pos ==> r.value[k] == data[pos + k]
    ensures forall k :: r.next - pos <= k < ChunkVolume ==> r.value[k] == prev[k]
    ensures r.next - pos == ChunkVolume || r.next == |data|
  {
    var n := Min(ChunkVolume, |data| - pos);
    Parsed(data[pos..pos + n] + prev[n..], pos + n)
  }

  function ReadChunks(data: seq<byte>, st: CustomState, origins: seq<Origin>, width: nat, length: nat): (r: Result<CustomState>)
    requires |st.chunk| == ChunkVolume && st.pos <= |data|
    ensures r.Ok? ==> |r.value.chunk| == ChunkVolume && r.value.pos <= |data|
    ensures r.Ok? ==> |r.value.blocks| == |st.blocks|
    decreases |origins|
  {
    if |origins| == 0 then Ok(st)
    else
      var next :- ReadChunk(data, st, origins[0], width, length);
      ReadChunks(data, next, origins[1..], width, length)
  }

  /** The chunk buffer as allocated: all zero. */
  function EmptyChunk(): (c: seq<byte>)
    ensures |c| == ChunkVolume
  {
    seq(ChunkVolume, _ => 0 as byte)
  }

  /** ReadCustomBlocks, from position `pos` just after the section marker;
      the chunk buffer starts zeroed. */
  function ReadCustomBlocks(data: seq<byte>, pos: nat, width: nat, height: nat, length: nat, blocks: seq<byte>): (r: Result<seq<byte>>)
    requires pos <= |data|
    ensures r.Ok? ==> |r.value| == |blocks|
  {
    var st :- ReadChunks(data, CustomState(pos, EmptyChunk(), blocks),
                         ChunkOrigins(width, height, length), width, length);
    Ok(st.blocks)
  }

  lemma ReadChunkSucceeds(data: seq<byte>, st: CustomState, o: Origin, width: nat, height: nat, length: nat)
    requires |st.chunk| == ChunkVolume && st.pos <= |data|
    requires |st.blocks| == width * height * length
    requires ChunkInside(o, width, height, length)
    ensures ReadChunk(data, st, o, width, length).Ok?
  {
    if st.pos < |data| && data[st.pos] == 1 {
      var chunk := FillChunk(data, st.pos + 1, st.chunk).value;
      OverlaySucceeds(st.blocks, chunk, o, width, height, length, 0);
    }
  }

  lemma ReadChunkOnlyReplacesCustom(data: seq<byte>, st: CustomState, o: Origin, width: nat, length: nat)
    requires |st.chunk| == ChunkVolume && st.pos <= |data|
    requires ReadChunk(data, st, o, width, length).Ok?
    ensures var r := ReadChunk(data, st, o, width, length).value.blocks;
            forall j :: 0 <= j < |st.blocks| && st.blocks[j] != CustomBlock ==> r[j] == st.blocks[j]
  {
    if st.pos < |data| && data[st.pos] == 1 {
      var chunk := FillChunk(data, st.pos + 1, st.chunk);
      var overlaid := Overlay(st.blocks, chunk.value, o, width, length);
      assert overlaid.Ok? && ReadChunk(data, st, o, width, length) == Ok(CustomState(chunk.next, chunk.value, overlaid.value));
      OverlayOnlyReplacesCustom(st.blocks, chunk.value, o, width, length, 0);
    } else {
      assert ReadChunk(data, st, o, width, length).value.blocks == st.blocks;
    }
  }

  /** No overlay ever fails when every visited chunk lies inside the map. */
  lemma {:induction false} ReadChunksSucceed(data: seq<byte>, st: CustomState, origins: seq<Origin>,
                                             width: nat, height: nat, length: nat)
    requires |st.chunk| == ChunkVolume && st.pos <= |data|
    requires |st.blocks| == width * height * length
    requires forall k :: 0 <= k < |origins| ==> ChunkInside(origins[k], width, height, length)
    ensures ReadChunks(data, st, origins, width, length).Ok?
    decreases |origins|
  {
    if |origins| > 0 {
      ReadChunkSucceeds(data, st, origins[0], width, height, length);
      var next := ReadChunk(data, st, origins[0], width, length).value;
      assert forall k :: 0 <= k < |origins[1..]| ==> origins[1..][k] == origins[k + 1];
      ReadChunksSucceed(data, next, origins[1..], width, height, length);
    }
  }

  /** Only blocks holding the custom marker are replaced by the custom
      section; every other block keeps its converted id. */
  lemma {:induction false} ReadChunksOnlyReplaceCustom(data: seq<byte>, st: CustomState, origins: seq<Origin>,
                                                       width: nat, length: nat)
    requires |st.chunk| == ChunkVolume && st.pos <= |data|
    requires ReadChunks(data, st, origins, width, length).Ok?
    ensures var r := ReadChunks(data, st, origins, width, length).value.blocks;
            forall j :: 0 <= j < |st.blocks| && st.blocks[j] != CustomBlock ==> r[j] == st.blocks[j]
    decreases |origins|
  {
    if |origins| > 0 {
      ReadChunkOnlyReplacesCustom(data, st, origins[0], width, length);
      var next := ReadChunk(data, st, origins[0], width, length).value;
      ReadChunksOnlyReplaceCustom(data, next, origins[1..], width, length);
    }
  }

  /** A multiple of 16 below another multiple of 16 is at least 16 below it. */
  lemma AlignedStep(v: nat, n: nat)
    requires v < n && v % 16 == 0 && n % 16 == 0
    ensures v + 16 <= n
  {
    assert v == 16 * (v / 16) && n == 16 * (n / 16);
  }

  /** For dimensions that are multiples of 16 the custom section always
      applies, and changes only blocks holding the custom marker. */
  lemma ReadCustomBlocksEffect(data: seq<byte>, pos: nat, width: nat, height: nat, length: nat, blocks: seq<byte>)
    requires pos <= |data|
    requires width % 16 == 0 && height % 16 == 0 && length % 16 == 0
    requires |blocks| == width * height * length
    ensures ReadCustomBlocks(data, pos, width, height, length, blocks).Ok?
    ensures var r := ReadCustomBlocks(data, pos, width, height, length, blocks).value;
            forall j :: 0 <= j < |blocks| && blocks[j] != CustomBlock ==> r[j] == blocks[j]
  {
    var origins := ChunkOrigins(width, height, length);
    forall k | 0 <= k < |origins|
      ensures ChunkInside(origins[k], width, height, length)
    {
      var o := origins[k];
      ChunkOriginsAreAllChunks(width, height, length, o);
      AlignedStep(o.x, width);
      AlignedStep(o.y, height);
      AlignedStep(o.z, length);
    }
    var st := CustomState(pos, EmptyChunk(), blocks);
    ReadChunksSucceed(data, st, origins, width, height, length);
    ReadChunksOnlyReplaceCustom(data, st, origins, width, length);
    assert ReadCustomBlocks(data, pos, width, height, length, blocks)
        == Ok(ReadChunks(data, st, origins, width, length).value.blocks);
  }

  // ---------------------------------------------------------------------
  // Load

  /** The decoded map. */
  datatype LvlMap = LvlMap(header: Header, blocks: seq<byte>)

  /** The block array read right after the header: as many bytes as the data
      still has, the rest of the array left zero. */
  function ReadBlockArray(data: seq<byte>, pos: nat, size: nat): (r: Parsed<seq<byte>>)
    requires pos <= |data|
    ensures |r.value| == size && r.next <= |data|
    ensures pos + size <= |data| ==> r.value == data[pos..pos + size] && r.next == pos + size
  {
    var n := Min(size, |data| - pos);
    Parsed(data[pos..pos + n] + seq(size - n, _ => 0 as byte), pos + n)
  }

  /** The body of MapLvlImporter.Load after the header: the block array,
      its physics conversion, and the optional custom block section. */
  function LoadBlocks(data: seq<byte>, h: Header, pos: nat): (r: Result<seq<byte>>)
    requires pos <= |data|
    ensures r.Ok? ==> |r.value| == h.width * h.height * h.length
  {
    var raw := ReadBlockArray(data, pos, h.width * h.height * h.length);
    CustomSection(data, raw.next, h, ConvertPhysicsBlocks(raw.value))
  }

  /** The optional custom block section at `pos`: present when the next byte
      is the marker, otherwise the blocks stay as they are. */
  function CustomSection(data: seq<byte>, pos: nat, h: Header, blocks: seq<byte>): (r: Result<seq<byte>>)
    requires pos <= |data|
    ensures r.Ok? ==> |r.value| == |blocks|
    ensures (pos == |data| || data[pos] != CustomSectionMarker) ==> r == Ok(blocks)
  {
    if pos >= |data| || data[pos] != CustomSectionMarker then Ok(blocks)
    else ReadCustomBlocks(data, pos + 1, h.width, h.height, h.length, blocks)
  }

  /** MapLvlImporter.Load over the decompressed bytes. */
  function Load(data: seq<byte>): (r: Result<LvlMap>)
    ensures r.Ok? ==> |r.value.blocks| == r.value.header.width * r.value.header.height * r.value.header.length
    ensures r.Err? && |data| < HeaderSize(data) ==> r.error == EndOfStream
  {
    var hdr :- ParseHeader(data);
    var blocks :- LoadBlocks(data, hdr.value, hdr.next);
    Ok(LvlMap(hdr.value, blocks))
  }

  /** Without the custom section marker, Load yields the header and the
      converted block array. */
  lemma LoadWithoutCustomSection(h: Header, versioned: bool, perms: u16, raw: seq<byte>, tail: seq<byte>)
    requires !versioned ==> h.width != Version
    requires |raw| == h.width * h.height * h.length
    requires |tail| == 0 || tail[0] != CustomSectionMarker
    ensures Load(EncodeHeader(h, versioned, perms) + raw + tail) == Ok(LvlMap(h, ConvertPhysicsBlocks(raw)))
  {
    var enc := EncodeHeader(h, versioned, perms);
    var data := enc + raw + tail;
    HeaderRoundTrip(h, versioned, perms, raw + tail);
    assert data == enc + (raw + tail);
    assert data[|enc|..|enc| + |raw|] == raw;
    if |tail| > 0 {
      assert data[|enc| + |raw|] == tail[0];
    }
  }

  /** A map whose dimensions are multiples of 16 always loads once its
      header is complete. */
  lemma LoadSucceeds(data: seq<byte>)
    requires ParseHeader(data).Ok?
    requires var h := ParseHeader(data).value.value;
             h.width % 16 == 0 && h.height % 16 == 0 && h.length % 16 == 0
    ensures Load(data).Ok?
  {
    var hdr := ParseHeader(data).value;
    LoadBlocksSucceeds(data, hdr.value, hdr.next);
  }

  /** The part of LoadSucceeds after the header. */
  lemma LoadBlocksSucceeds(data: seq<byte>, h: Header, pos: nat)
    requires pos <= |data|
    requires h.width % 16 == 0 && h.height % 16 == 0 && h.length % 16 == 0
    ensures LoadBlocks(data, h, pos).Ok?
  {
    var raw := ReadBlockArray(data, pos, h.width * h.height * h.length);
    CustomSectionSucceeds(data, raw.next, h, ConvertPhysicsBlocks(raw.value));
  }

  /** The custom section never fails on a block array of the map's size
      whose dimensions are multiples of 16. */
  lemma CustomSectionSucceeds(data: seq<byte>, pos: nat, h: Header, blocks: seq<byte>)
    requires pos <= |data|
    requires h.width % 16 == 0 && h.height % 16 == 0 && h.length % 16 == 0
    requires |blocks| == h.width * h.height * h.length
    ensures CustomSection(data, pos, h, blocks).Ok?
  {
    if pos < |data| && data[pos] == CustomSectionMarker {
      ReadCustomBlocksEffect(data, pos + 1, h.width, h.height, h.length, blocks);
    }
  }

  /** The blocks Load returns are the converted block array, except that
      blocks holding the custom marker may take their id from the custom
      section. */
  lemma LoadKeepsConvertedBlocks(data: seq<byte>)
    requires Load(data).Ok?
    ensures var hdr := ParseHeader(data).value;
            var h := hdr.value;
            var converted := ConvertPhysicsBlocks(ReadBlockArray(data, hdr.next, h.width * h.height * h.length).value);
            && Load(data).value.header == h
            && |Load(data).value.blocks| == |converted|
            && forall j :: 0 <= j < |converted| && converted[j] != CustomBlock ==> Load(data).value.blocks[j] == converted[j]
  {
    var hdr := ParseHeader(data).value;
    var h := hdr.value;
    var size := h.width * h.height * h.length;
    var raw := ReadBlockArray(data, hdr.next, size);
    var blocks := ConvertPhysicsBlocks(raw.value);
    if raw.next < |data| && data[raw.next] == CustomSectionMarker {
      var origins := ChunkOrigins(h.width, h.height, h.length);
      var st := CustomState(raw.next + 1, EmptyChunk(), blocks);
      assert ReadChunks(data, st, origins, h.width, h.length).Ok?;
      ReadChunksOnlyReplaceCustom(data, st, origins, h.width, h.length);
      assert Load(data).value.blocks == ReadChunks(data, st, origins, h.width, h.length).value.blocks;
    } else {
      assert Load(data).value.blocks == blocks;
    }
  }
}
