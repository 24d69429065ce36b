/** The one EXIF block the strippers write (app/services/attachment.py). */
module Exif {
  import opened Bytes

  // Byte order, offset of the directory, one entry.
  const HEADER: seq<Byte> := [0x4D, 0x4D, 0x00, 0x2A, 0x00, 0x00, 0x00, 0x08, 0x00, 0x01]

  // Tag, type and count; the value, and no further directory.
  const TAG: seq<Byte> := [0x01, 0x12, 0x00, 0x03, 0x00, 0x00, 0x00, 0x01]
  function Rest(value: Byte): seq<Byte> { [0x00, value, 0x00, 0x00, 0x00, 0x00, 0x00, 0x00] }

  // A big-endian TIFF block holding the orientation tag and nothing else.
  function Block(value: Byte): (b: seq<Byte>)
    ensures |b| == 26
  {
    HEADER + TAG + Rest(value)
  }

  // Read as TIFF 6.0, section 2, has it: big-endian, one directory at offset 8
  // with one entry, the orientation (274) as one SHORT, and no directory after.
  lemma BlockIs(value: Byte)
    ensures var b := Block(value);
            && |b| == 26 && b[..2] == Ascii("MM") && BigEndian(b[2..4]) == 42 && BigEndian(b[4..8]) == 8
            && BigEndian(b[8..10]) == 1 && BigEndian(b[10..12]) == 274 && BigEndian(b[12..14]) == 3
            && BigEndian(b[14..18]) == 1 && BigEndian(b[18..20]) == value as nat
            && BigEndian(b[20..22]) == 0 && BigEndian(b[22..26]) == 0
  {
    var b := Block(value);
    HeaderIs();
    TagIs();
    RestIs(value);
    assert b[..2] == HEADER[..2] && b[2..4] == HEADER[2..4] && b[4..8] == HEADER[4..8] && b[8..10] == HEADER[8..10];
    assert b[10..12] == TAG[0..2] && b[12..14] == TAG[2..4] && b[14..18] == TAG[4..8];
    assert b[18..20] == Rest(value)[0..2] && b[20..22] == Rest(value)[2..4] && b[22..26] == Rest(value)[4..8];
  }

  lemma HeaderIs()
    ensures HEADER[..2] == Ascii("MM") && BigEndian(HEADER[2..4]) == 42 && BigEndian(HEADER[4..8]) == 8
    ensures BigEndian(HEADER[8..10]) == 1
  {
    Field2(HEADER, 2, 0x00, 0x2A);
    Field4(HEADER, 4, 0x08);
    Field2(HEADER, 8, 0x00, 0x01);
  }

  lemma TagIs()
    ensures BigEndian(TAG[0..2]) == 274 && BigEndian(TAG[2..4]) == 3 && BigEndian(TAG[4..8]) == 1
  {
    Field2(TAG, 0, 0x01, 0x12);
    Field2(TAG, 2, 0x00, 0x03);
    Field4(TAG, 4, 0x01);
  }

  lemma RestIs(value: Byte)
    ensures var r := Rest(value);
            BigEndian(r[0..2]) == value as nat && BigEndian(r[2..4]) == 0 && BigEndian(r[4..8]) == 0
  {
    Field2(Rest(value), 0, 0x00, value);
    Field2(Rest(value), 2, 0x00, 0x00);
    Field4(Rest(value), 4, 0x00);
  }

  lemma Field2(b: seq<Byte>, i: nat, high: Byte, low: Byte)
    requires i + 2 <= |b| && b[i] == high && b[i + 1] == low
    ensures BigEndian(b[i..i + 2]) == Base256(high, low)
  {
    Two(b, i);
  }

  lemma Field4(b: seq<Byte>, i: nat, low: Byte)
    requires i + 4 <= |b| && b[i] == 0 && b[i + 1] == 0 && b[i + 2] == 0 && b[i + 3] == low
    ensures BigEndian(b[i..i + 4]) == low as nat
  {
    Four(b, i);
  }

  function Base256(high: nat, low: nat): nat { high * 256 + low }

  lemma Two(b: seq<Byte>, i: nat)
    requires i + 2 <= |b|
    ensures BigEndian(b[i..i + 2]) == Base256(b[i], b[i + 1])
  {
    var s := b[i..i + 2];
    assert s[..1][..0] == [] && BigEndian(s[..1]) == b[i] as nat;
  }

  lemma Four(b: seq<Byte>, i: nat)
    requires i + 4 <= |b|
    ensures BigEndian(b[i..i + 4]) == Base256(Base256(Base256(b[i], b[i + 1]), b[i + 2]), b[i + 3])
  {
    var s := b[i..i + 4];
    Two(b, i);
    assert s[..3][..2] == b[i..i + 2];
  }

  // What is asked of the library that reads an orientation back: 1 (upright)
  // to 8, and the block's own value for a block written here.
  ghost predicate ReadsOrientation(read: seq<Byte> -> Byte) {
    && (forall block :: 1 <= read(block) <= 8)
    && (forall v: Byte | 2 <= v <= 8 :: read(Block(v)) == v)
  }
}
