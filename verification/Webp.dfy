/**
 * The WebP stripper of app/services/attachment.py: a walk over the RIFF chunks
 * of RFC 9649, section 2, that keeps those describing pixels and rewrites the
 * VP8X flags.
 */
module Webp {
  import opened Options
  import opened Bytes
  import opened Facts
  import Exif

  // out[8] of a VP8X header cut short; a result of 4 GiB or more.
  datatype Error = IndexError | OverflowError

  const RIFF: seq<Byte> := [0x52, 0x49, 0x46, 0x46]
  const WEBP: seq<Byte> := [0x57, 0x45, 0x42, 0x50]
  const VP8X: seq<Byte> := [0x56, 0x50, 0x38, 0x58]
  const EXIF: seq<Byte> := [0x45, 0x58, 0x49, 0x46]

  // VP8X, "VP8 ", VP8L, ALPH, ANIM, ANMF
  const KEEP: set<seq<Byte>> := {
    [0x56, 0x50, 0x38, 0x58], [0x56, 0x50, 0x38, 0x20], [0x56, 0x50, 0x38, 0x4C],
    [0x41, 0x4C, 0x50, 0x48], [0x41, 0x4E, 0x49, 0x4D], [0x41, 0x4E, 0x4D, 0x46]
  }

  // By name: so none of ICCP, EXIF and "XMP ".
  lemma KindsKept(kind: seq<Byte>)
    ensures kind in KEEP <==>
            kind in {Ascii("VP8X"), Ascii("VP8 "), Ascii("VP8L"), Ascii("ALPH"), Ascii("ANIM"), Ascii("ANMF")}
    ensures RIFF == Ascii("RIFF") && WEBP == Ascii("WEBP") && VP8X == Ascii("VP8X") && EXIF == Ascii("EXIF")
  {
  }

  datatype Tools = Tools(keep: set<seq<Byte>>, read: seq<Byte> -> Byte)

  // The bits of a number, lowest first.
  function Bits(x: nat, n: nat): (bits: seq<bool>)
    ensures |bits| == n
  {
    if n == 0 then [] else [x % 2 == 1] + Bits(x / 2, n - 1)
  }

  function Value(bits: seq<bool>): nat {
    if bits == [] then 0 else (if bits[0] then 1 else 0) + 2 * Value(bits[1..])
  }

  lemma {:induction false} BitsOfValue(bits: seq<bool>)
    ensures Bits(Value(bits), |bits|) == bits
    decreases |bits|
  {
    if bits != [] {
      BitsOfValue(bits[1..]);
      assert Value(bits) / 2 == Value(bits[1..]);
    }
  }

  function Power2(n: nat): nat { if n == 0 then 1 else 2 * Power2(n - 1) }

  lemma {:induction false} ValueBound(bits: seq<bool>)
    ensures Value(bits) < Power2(|bits|)
    decreases |bits|
  {
    if bits != [] {
      ValueBound(bits[1..]);
    }
  }

  // The flags byte: ICC is 0x20, EXIF 0x08, XMP 0x04.
  const ICC_BIT := 5
  const EXIF_BIT := 3
  const XMP_BIT := 2

  predicate Has(x: Byte, bit: nat)
    requires bit < 8
  {
    Bits(x, 8)[bit]
  }

  // flags & ~0x2C, with 0x08 on again if there is an EXIF chunk
  function Flags(x: Byte, exif: bool): Byte {
    var bits := Bits(x, 8)[ICC_BIT := false][XMP_BIT := false][EXIF_BIT := exif];
    ValueBound(bits);
    assert Power2(8) == 16 * Power2(4) == 256;
    Value(bits)
  }

  // ICC and XMP are off, EXIF is as said, and the other five are as before.
  lemma FlagsSayIt(x: Byte, exif: bool)
    ensures !Has(Flags(x, exif), ICC_BIT) && !Has(Flags(x, exif), XMP_BIT)
    ensures Has(Flags(x, exif), EXIF_BIT) <==> exif
    ensures forall i | 0 <= i < 8 && i != ICC_BIT && i != XMP_BIT && i != EXIF_BIT ::
              Has(Flags(x, exif), i) <==> Has(x, i)
    ensures Flags(Flags(x, exif), exif) == Flags(x, exif)
  {
    var bits := Bits(x, 8)[ICC_BIT := false][XMP_BIT := false][EXIF_BIT := exif];
    BitsOfValue(bits);
    assert bits[ICC_BIT := false][XMP_BIT := false][EXIF_BIT := exif] == bits;
  }

  // In the flags' own numbers: 0x20 and 0x04 go, 0x08 is as said.
  lemma FlagsAre(x: Byte, exif: bool)
    ensures var f := Flags(x, exif);
            && f / 0x20 % 2 == 0 && f / 0x08 % 2 == (if exif then 1 else 0) && f / 0x04 % 2 == 0
            && f / 0x80 == x / 0x80 && f / 0x40 % 2 == x / 0x40 % 2 && f / 0x10 % 2 == x / 0x10 % 2 && f % 4 == x % 4
  {
    var f := Flags(x, exif);
    FlagsSayIt(x, exif);
    BitIs(x);
    BitIs(f);
    hide Has, Flags;
    assert Has(f, 7) <==> Has(x, 7);
    SameBit(f / 0x80, x / 0x80);
    assert f / 0x80 < 2 && x / 0x80 < 2;
    assert Has(f, 6) <==> Has(x, 6);
    SameBit(f / 0x40, x / 0x40);
    assert Has(f, 4) <==> Has(x, 4);
    SameBit(f / 0x10, x / 0x10);
    assert (Has(f, 1) <==> Has(x, 1)) && (Has(f, 0) <==> Has(x, 0));
    LowTwo(f, x);
  }

  lemma SameBit(a: nat, b: nat)
    requires a % 2 == 1 <==> b % 2 == 1
    ensures a % 2 == b % 2
  {
  }

  lemma LowTwo(a: nat, b: nat)
    requires (a % 2 == 1 <==> b % 2 == 1) && (a / 2 % 2 == 1 <==> b / 2 % 2 == 1)
    ensures a % 4 == b % 4
  {
  }

  // The bits from the second on are the number's half's.
  lemma FirstBit(x: nat, n: nat)
    requires n > 0
    ensures (Bits(x, n)[0] <==> x % 2 == 1) && Bits(x, n)[1..] == Bits(x / 2, n - 1)
  {
  }

  lemma Nibble(x: nat, n: nat)
    requires n >= 4
    ensures (Bits(x, n)[0] <==> x % 2 == 1) && (Bits(x, n)[1] <==> x / 2 % 2 == 1)
    ensures (Bits(x, n)[2] <==> x / 4 % 2 == 1) && (Bits(x, n)[3] <==> x / 8 % 2 == 1)
    ensures Bits(x, n)[4..] == Bits(x / 16, n - 4)
  {
    FirstBit(x, n);
    FirstBit(x / 2, n - 1);
    FirstBit(x / 4, n - 2);
    FirstBit(x / 8, n - 3);
    hide Bits;
    assert x / 2 / 2 == x / 4 && x / 4 / 2 == x / 8 && x / 8 / 2 == x / 16;
    var b := Bits(x, n);
    assert b[1..][1..] == b[2..] && b[2..][1..] == b[3..] && b[3..][1..] == b[4..];
  }

  lemma BitIs(x: Byte)
    ensures (Has(x, 7) <==> x / 0x80 % 2 == 1) && (Has(x, 6) <==> x / 0x40 % 2 == 1) && (Has(x, 5) <==> x / 0x20 % 2 == 1)
    ensures (Has(x, 4) <==> x / 0x10 % 2 == 1) && (Has(x, 3) <==> x / 0x08 % 2 == 1) && (Has(x, 2) <==> x / 0x04 % 2 == 1)
    ensures (Has(x, 1) <==> x / 0x02 % 2 == 1) && (Has(x, 0) <==> x % 2 == 1)
  {
    Nibble(x, 8);
    Nibble(x / 16, 4);
    Halves(x);
    hide Bits;
    var b := Bits(x, 8);
    assert b[4..][0] == b[4] && b[4..][1] == b[5] && b[4..][2] == b[6] && b[4..][3] == b[7];
  }

  lemma Halves(x: nat)
    ensures x / 16 / 2 == x / 32 && x / 16 / 4 == x / 64 && x / 16 / 8 == x / 128
  {
  }

  // The whole of the first chunk: header, payload and padding.
  function ChunkLength(s: seq<Byte>): (n: nat)
    ensures n >= 8
  {
    var size := LittleEndian(Slice(s, 4, 8));
    8 + size + size % 2
  }

  function KeptBytes(s: seq<Byte>, keep: set<seq<Byte>>): seq<Byte>
    decreases |s|
  {
    if s == [] then []
    else (if Slice(s, 0, 4) in keep then Slice(s, 0, ChunkLength(s)) else [])
         + KeptBytes(From(s, ChunkLength(s)), keep)
  }

  // What the last EXIF chunk says, or `o` if there is none.
  function Orientation(s: seq<Byte>, o: Byte, read: seq<Byte> -> Byte): Byte
    decreases |s|
  {
    if s == [] then o
    else Orientation(From(s, ChunkLength(s)),
                     if Slice(s, 0, 4) == EXIF then read(Slice(s, 8, 8 + LittleEndian(Slice(s, 4, 8)))) else o, read)
  }

  function ExifChunk(o: Byte): seq<Byte> { EXIF + Little4(26) + Exif.Block(o) }

  // The kept chunks with their flags, in a RIFF header of their size.
  function Wrapped(out: seq<Byte>, o: Byte): Result<seq<Byte>, Error> {
    var extended := Slice(out, 0, 4) == VP8X;
    if extended && |out| <= 8 then Err(IndexError)
    else
      var body := if !extended then out
                  else (out + if o != 1 then ExifChunk(o) else [])[8 := Flags(out[8], o != 1)];
      if |body| + 4 >= TWO_32 then Err(OverflowError)
      else Ok(RIFF + Little4(|body| + 4) + WEBP + body)
  }

  function Body(data: seq<Byte>): seq<Byte> { Slice(data, 12, 8 + LittleEndian(Slice(data, 4, 8))) }

  function Stripped(data: seq<Byte>, x: Tools): Result<seq<Byte>, Error> {
    Wrapped(KeptBytes(Body(data), x.keep), Orientation(Body(data), 1, x.read))
  }

  lemma Unfold(s: seq<Byte>, o: Byte, x: Tools)
    requires s != []
    ensures KeptBytes(s, x.keep) ==
            (if Slice(s, 0, 4) in x.keep then Slice(s, 0, ChunkLength(s)) else []) + KeptBytes(From(s, ChunkLength(s)), x.keep)
    ensures Orientation(s, o, x.read) ==
            Orientation(From(s, ChunkLength(s)),
                        if Slice(s, 0, 4) == EXIF then (x.read)(Slice(s, 8, 8 + LittleEndian(Slice(s, 4, 8)))) else o, x.read)
  {
  }

  // The first chunk of data[i:], in terms of the data.
  lemma ChunkAt(body: seq<Byte>, i: nat, size: nat, end: nat)
    requires i < |body| && size == LittleEndian(Slice(body, i + 4, i + 8)) && end == i + 8 + size + size % 2
    ensures var s := From(body, i);
            && s != [] && ChunkLength(s) == end - i && From(s, end - i) == From(body, end)
            && Slice(s, 0, 4) == Slice(body, i, i + 4) && Slice(s, 0, end - i) == Slice(body, i, end)
            && Slice(s, 8, 8 + LittleEndian(Slice(s, 4, 8))) == Slice(body, i + 8, i + 8 + size)
  {
    hide LittleEndian;
    SliceFrom(body, i, 0, 4);
    SliceFrom(body, i, 4, 8);
    SliceFrom(body, i, 0, end - i);
    SliceFrom(body, i, 8, 8 + size);
    FromFrom(body, i, end - i);
  }

  // One turn of the walk at `i`, where the chunk of `size` ends at `end`.
  lemma Turn(body: seq<Byte>, i: nat, size: nat, end: nat, out: seq<Byte>, o: Byte, x: Tools)
    requires i < |body| && size == LittleEndian(Slice(body, i + 4, i + 8)) && end == i + 8 + size + size % 2
    ensures out + KeptBytes(From(body, i), x.keep) ==
            (if Slice(body, i, i + 4) in x.keep then out + Slice(body, i, end) else out) + KeptBytes(From(body, end), x.keep)
    ensures Orientation(From(body, i), o, x.read) ==
            Orientation(From(body, end),
                        if Slice(body, i, i + 4) == EXIF then (x.read)(Slice(body, i + 8, i + 8 + size)) else o, x.read)
  {
    hide *;
    ChunkAt(body, i, size, end);
    Unfold(From(body, i), o, x);
    Associates(out, Slice(body, i, end), KeptBytes(From(body, end), x.keep));
  }

  method Walk(body: seq<Byte>, x: Tools) returns (out: seq<Byte>, orientation: Byte)
    requires EXIF !in x.keep
    ensures out == KeptBytes(body, x.keep) && orientation == Orientation(body, 1, x.read)
  {
    var i := 0;
    out, orientation := [], 1;
    assert From(body, 0) == body && out + KeptBytes(body, x.keep) == KeptBytes(body, x.keep);
    while i < |body|
      invariant KeptBytes(body, x.keep) == out + KeptBytes(From(body, i), x.keep)
      invariant Orientation(body, 1, x.read) == Orientation(From(body, i), orientation, x.read)
      decreases |body| - i
    {
      hide *;
      var kind, size := Slice(body, i, i + 4), LittleEndian(Slice(body, i + 4, i + 8));
      var end := i + 8 + size + size % 2;
      Turn(body, i, size, end, out, orientation, x);
      if kind == EXIF {
        orientation := (x.read)(Slice(body, i + 8, i + 8 + size));
      } else if kind in x.keep {
        out := out + Slice(body, i, end);
      }
      i := end;
    }
    assert out + [] == out;
  }

  method Wrap(kept: seq<Byte>, orientation: Byte) returns (r: Result<seq<Byte>, Error>)
    ensures r == Wrapped(kept, orientation)
  {
    var out := kept;
    if Slice(out, 0, 4) == VP8X {
      if |out| <= 8 {
        return Err(IndexError);
      }
      var flags := Flags(out[8], orientation != 1);
      if orientation != 1 {
        out := out + ExifChunk(orientation);
      } else {
        assert out + [] == out;
      }
      out := out[8 := flags];
    }
    if |out| + 4 >= TWO_32 {
      return Err(OverflowError);
    }
    r := Ok(RIFF + Little4(|out| + 4) + WEBP + out);
  }

  lemma ExifIsNotKept()
    ensures EXIF !in KEEP && EXIF != VP8X
  {
  }

  method Strip(data: seq<Byte>, read: seq<Byte> -> Byte) returns (r: Result<seq<Byte>, Error>)
    ensures r == Stripped(data, Tools(KEEP, read))
  {
    ExifIsNotKept();
    var out, orientation := Walk(Body(data), Tools(KEEP, read));
    r := Wrap(out, orientation);
  }

  // The shape of a result: RIFF size and, in an extended file, the flags.
  ghost predicate Shaped(r: seq<Byte>, kept: seq<Byte>, o: Byte) {
    && |r| >= 12 && r[..4] == RIFF && r[8..12] == WEBP && LittleEndian(r[4..8]) == |r| - 8
    && (Slice(kept, 0, 4) != VP8X ==> r[12..] == kept)
    && (Slice(kept, 0, 4) == VP8X ==>
          && |kept| > 8 && |r| >= |kept| + 12 && r[12..20] == kept[..8] && r[21..|kept| + 12] == kept[9..]
          && !Has(r[20], ICC_BIT) && !Has(r[20], XMP_BIT)
          && (Has(r[20], EXIF_BIT) <==> o != 1)
          && r[|kept| + 12..] == if o != 1 then ExifChunk(o) else [])
  }

  // Where the pieces of an extended file lie.
  lemma Layout(head: seq<Byte>, kept: seq<Byte>, exif: seq<Byte>, v: Byte)
    requires |head| == 12 && |kept| > 8
    ensures var r := head + (kept + exif)[8 := v];
            && |r| == 12 + |kept| + |exif| && r[12..20] == kept[..8] && r[20] == v
            && r[21..|kept| + 12] == kept[9..] && r[|kept| + 12..] == exif
  {
  }

  lemma Header(body: seq<Byte>)
    requires |body| + 4 < TWO_32
    ensures var r := RIFF + Little4(|body| + 4) + WEBP + body;
            && |r| == |body| + 12 && r[..4] == RIFF && r[8..12] == WEBP && r[12..] == body
            && LittleEndian(r[4..8]) == |r| - 8
  {
    Little4Value(|body| + 4);
    hide LittleEndian;
    var size := Little4(|body| + 4);
    hide Little4;
    assert (RIFF + size + WEBP + body)[4..8] == size;
  }

  lemma WrappedIsShaped(kept: seq<Byte>, o: Byte)
    requires Wrapped(kept, o).Ok?
    ensures Shaped(Wrapped(kept, o).value, kept, o)
  {
    hide ExifChunk, Flags, Has, LittleEndian, Little4, Slice;
    var r := Wrapped(kept, o).value;
    if Slice(kept, 0, 4) == VP8X {
      var exif, v := if o != 1 then ExifChunk(o) else [], Flags(kept[8], o != 1);
      FlagsSayIt(kept[8], o != 1);
      var body := (kept + exif)[8 := v];
      Header(body);
      Layout(RIFF + Little4(|body| + 4) + WEBP, kept, exif, v);
    } else {
      Header(kept);
    }
  }

  // On any input: the RIFF size is the length less 8; in an extended file ICC
  // and XMP are off and EXIF is on exactly if an EXIF chunk is written, last.
  lemma SizeAndFlagsAgree(data: seq<Byte>, x: Tools)
    requires Stripped(data, x).Ok?
    ensures Shaped(Stripped(data, x).value, KeptBytes(Body(data), x.keep), Orientation(Body(data), 1, x.read))
  {
    WrappedIsShaped(KeptBytes(Body(data), x.keep), Orientation(Body(data), 1, x.read));
  }

  // ── Well-formed files ─────────────────────────────────────────────

  datatype Parts = Parts(kind: seq<Byte>, body: seq<Byte>, pad: seq<Byte>)

  // A payload of odd length is padded; a VP8X payload holds its flags.
  type Chunk = c: Parts | ValidChunk(c) witness Parts([0, 0, 0, 0], [], [])

  predicate ValidChunk(c: Parts) {
    |c.kind| == 4 && |c.body| < TWO_32 && |c.pad| == |c.body| % 2 && (c.kind == VP8X ==> c.body != [])
  }

  function Print(c: Chunk): seq<Byte> { c.kind + Little4(|c.body|) + c.body + c.pad }

  function PrintAll(cs: seq<Chunk>): seq<Byte> {
    if cs == [] then [] else Print(cs[0]) + PrintAll(cs[1..])
  }

  function Kept(cs: seq<Chunk>, keep: set<seq<Byte>>): seq<Chunk> {
    if cs == [] then []
    else if cs[0].kind in keep then [cs[0]] + Kept(cs[1..], keep)
    else Kept(cs[1..], keep)
  }

  function Says(cs: seq<Chunk>, o: Byte, read: seq<Byte> -> Byte): Byte {
    if cs == [] then o
    else Says(cs[1..], if cs[0].kind == EXIF then read(cs[0].body) else o, read)
  }

  function WithFlags(c: Chunk, exif: bool): Chunk
    requires c.kind == VP8X
  {
    c.(body := c.body[0 := Flags(c.body[0], exif)])
  }

  function Flagged(ks: seq<Chunk>, o: Byte): seq<Chunk> {
    if ks == [] || ks[0].kind != VP8X then ks
    else [WithFlags(ks[0], o != 1)] + ks[1..] + if o != 1 then [Parts(EXIF, Exif.Block(o), [])] else []
  }

  function Chunks(cs: seq<Chunk>, x: Tools): seq<Chunk> {
    Flagged(Kept(cs, x.keep), Says(cs, 1, x.read))
  }

  // A RIFF file of these chunks, whatever its form type, with a trailer.
  function File(form: seq<Byte>, cs: seq<Chunk>, trailer: seq<Byte>): seq<Byte>
    requires |PrintAll(cs)| + 4 < TWO_32
  {
    RIFF + Little4(|PrintAll(cs)| + 4) + form + PrintAll(cs) + trailer
  }

  lemma OneChunk(c: Chunk, rest: seq<Byte>)
    ensures var s := Print(c) + rest;
            && s != [] && ChunkLength(s) == |Print(c)| && Slice(s, 0, 4) == c.kind
            && Slice(s, 0, ChunkLength(s)) == Print(c) && From(s, ChunkLength(s)) == rest
            && Slice(s, 8, 8 + LittleEndian(Slice(s, 4, 8))) == c.body
  {
    var s := Print(c) + rest;
    Little4Value(|c.body|);
    assert Slice(s, 4, 8) == Little4(|c.body|);
  }

  lemma {:induction false} KeptIsOverChunks(cs: seq<Chunk>, keep: set<seq<Byte>>)
    ensures KeptBytes(PrintAll(cs), keep) == PrintAll(Kept(cs, keep))
    decreases |cs|
  {
    if cs != [] {
      var c := cs[0];
      OneChunk(c, PrintAll(cs[1..]));
      hide Slice, From, ChunkLength, Print, LittleEndian;
      KeptIsOverChunks(cs[1..], keep);
      if c.kind in keep {
        assert ([c] + Kept(cs[1..], keep))[1..] == Kept(cs[1..], keep);
      }
    }
  }

  lemma {:induction false} OrientationIsOverChunks(cs: seq<Chunk>, o: Byte, read: seq<Byte> -> Byte)
    ensures Orientation(PrintAll(cs), o, read) == Says(cs, o, read)
    decreases |cs|
  {
    if cs != [] {
      var c := cs[0];
      OneChunk(c, PrintAll(cs[1..]));
      hide Slice, From, ChunkLength, Print, LittleEndian;
      OrientationIsOverChunks(cs[1..], if c.kind == EXIF then read(c.body) else o, read);
    }
  }

  lemma WalkIsOverChunks(cs: seq<Chunk>, o: Byte, x: Tools)
    ensures KeptBytes(PrintAll(cs), x.keep) == PrintAll(Kept(cs, x.keep))
    ensures Orientation(PrintAll(cs), o, x.read) == Says(cs, o, x.read)
  {
    KeptIsOverChunks(cs, x.keep);
    OrientationIsOverChunks(cs, o, x.read);
  }

  lemma {:induction false} PrintAppend(a: seq<Chunk>, b: seq<Chunk>)
    ensures PrintAll(a + b) == PrintAll(a) + PrintAll(b)
    decreases |a|
  {
    if a == [] {
      assert a + b == b;
    } else {
      PrintAppend(a[1..], b);
      assert (a + b)[1..] == a[1..] + b;
    }
  }

  lemma PrintOne(c: Chunk)
    ensures PrintAll([c]) == Print(c)
  {
    assert [c][1..] == [];
  }

  lemma PrintWithFlags(c: Chunk, exif: bool)
    requires c.kind == VP8X
    ensures |Print(c)| > 8 && Print(c)[8] == c.body[0]
    ensures Print(WithFlags(c, exif)) == Print(c)[8 := Flags(c.body[0], exif)]
  {
  }

  lemma FlaggedBytes(ks: seq<Chunk>, o: Byte)
    requires ks != [] && ks[0].kind == VP8X
    ensures |PrintAll(ks)| > 8
    ensures PrintAll(Flagged(ks, o)) ==
            (PrintAll(ks) + if o != 1 then ExifChunk(o) else [])[8 := Flags(PrintAll(ks)[8], o != 1)]
  {
    var c, rest := ks[0], PrintAll(ks[1..]);
    PrintWithFlags(c, o != 1);
    var f := WithFlags(c, o != 1);
    var tail := if o != 1 then [Parts(EXIF, Exif.Block(o), [])] else [];
    TailBytes(o);
    hide WithFlags, Print, ExifChunk, ValidChunk, Exif.Block, Flags;
    assert PrintAll(ks) == Print(c) + rest;
    assert Flagged(ks, o) == [f] + ks[1..] + tail;
    PrintAppend([f] + ks[1..], tail);
    PrintAppend([f], ks[1..]);
    PrintOne(f);
    UpdateFirst(Print(c), rest, PrintAll(tail), Flags(c.body[0], o != 1));
  }

  lemma TailBytes(o: Byte)
    ensures PrintAll(if o != 1 then [Parts(EXIF, Exif.Block(o), [])] else []) == if o != 1 then ExifChunk(o) else []
  {
    if o != 1 {
      PrintOne(Parts(EXIF, Exif.Block(o), []));
      assert Print(Parts(EXIF, Exif.Block(o), [])) == ExifChunk(o);
    }
  }

  lemma UpdateFirst(a: seq<Byte>, b: seq<Byte>, c: seq<Byte>, v: Byte)
    requires |a| > 8
    ensures (a + b + c)[8 := v] == a[8 := v] + b + c
  {
  }

  lemma WrapChunks(ks: seq<Chunk>, o: Byte)
    ensures var body := PrintAll(Flagged(ks, o));
            Wrapped(PrintAll(ks), o) ==
            if |body| + 4 >= TWO_32 then Err(OverflowError) else Ok(File(WEBP, Flagged(ks, o), []))
  {
    hide ExifChunk, Flags, WithFlags, Little4;
    var body := PrintAll(Flagged(ks, o));
    assert ks != [] ==> Slice(PrintAll(ks), 0, 4) == ks[0].kind;
    if ks != [] && ks[0].kind == VP8X {
      FlaggedBytes(ks, o);
    } else {
      assert Slice(PrintAll(ks), 0, 4) != VP8X;
    }
    hide PrintAll, Flagged, Slice;
    if |body| + 4 < TWO_32 {
      assert File(WEBP, Flagged(ks, o), []) == RIFF + Little4(|body| + 4) + WEBP + body;
    }
  }

  // Stripping a well-formed file is the file of its kept chunks.
  lemma StripPrinted(form: seq<Byte>, cs: seq<Chunk>, trailer: seq<Byte>, x: Tools)
    requires |form| == 4 && |PrintAll(cs)| + 4 < TWO_32
    ensures Stripped(File(form, cs, trailer), x) ==
            if |PrintAll(Chunks(cs, x))| + 4 >= TWO_32 then Err(OverflowError) else Ok(File(WEBP, Chunks(cs, x), []))
  {
    var data, n := File(form, cs, trailer), |PrintAll(cs)| + 4;
    Little4Value(n);
    assert Slice(data, 4, 8) == Little4(n);
    assert Body(data) == PrintAll(cs);
    WalkIsOverChunks(cs, 1, x);
    WrapChunks(Kept(cs, x.keep), Says(cs, 1, x.read));
  }

  lemma {:induction false} SaysAppend(a: seq<Chunk>, b: seq<Chunk>, o: Byte, read: seq<Byte> -> Byte)
    ensures Says(a + b, o, read) == Says(b, Says(a, o, read), read)
    decreases |a|
  {
    if a == [] {
      assert a + b == b;
    } else {
      SaysAppend(a[1..], b, if a[0].kind == EXIF then read(a[0].body) else o, read);
      assert (a + b)[1..] == a[1..] + b;
    }
  }

  lemma {:induction false} OnlyKept(ks: seq<Chunk>, o: Byte, x: Tools)
    requires EXIF !in x.keep && forall k | k in ks :: k.kind in x.keep
    ensures Kept(ks, x.keep) == ks && Says(ks, o, x.read) == o
    decreases |ks|
  {
    if ks != [] {
      OnlyKept(ks[1..], o, x);
    }
  }

  lemma {:induction false} KeptAreKept(cs: seq<Chunk>, keep: set<seq<Byte>>)
    ensures forall k | k in Kept(cs, keep) :: k.kind in keep
    decreases |cs|
  {
    if cs != [] {
      KeptAreKept(cs[1..], keep);
    }
  }

  lemma {:induction false} KeptAppend(a: seq<Chunk>, b: seq<Chunk>, keep: set<seq<Byte>>)
    ensures Kept(a + b, keep) == Kept(a, keep) + Kept(b, keep)
    decreases |a|
  {
    if a == [] {
      assert a + b == b;
    } else {
      KeptAppend(a[1..], b, keep);
      assert (a + b)[1..] == a[1..] + b;
    }
  }

  lemma {:induction false} SaysInRange(cs: seq<Chunk>, o: Byte, read: seq<Byte> -> Byte)
    requires Exif.ReadsOrientation(read) && 1 <= o <= 8
    ensures 1 <= Says(cs, o, read) <= 8
    decreases |cs|
  {
    if cs != [] {
      SaysInRange(cs[1..], if cs[0].kind == EXIF then read(cs[0].body) else o, read);
    }
  }

  lemma {:induction false} KeptIff(cs: seq<Chunk>, keep: set<seq<Byte>>)
    ensures forall c :: c in Kept(cs, keep) <==> c in cs && c.kind in keep
    decreases |cs|
  {
    if cs != [] {
      KeptIff(cs[1..], keep);
      assert cs == [cs[0]] + cs[1..];
    }
  }

  // A result holds the chunks of the kinds kept, a first VP8X with its flags set
  // right, and at most one other chunk: the orientation's, last, in an extended
  // file.
  lemma NothingElseIsLeft(cs: seq<Chunk>, x: Tools)
    requires x.keep == KEEP
    ensures var o, ks, r := Says(cs, 1, x.read), Kept(cs, KEEP), Chunks(cs, x);
            && (forall c :: c in ks <==> c in cs && c.kind in KEEP)
            && var extended := ks != [] && ks[0].kind == Ascii("VP8X");
               if !extended then r == ks
               else
                 && |r| == |ks| + (if o != 1 then 1 else 0)
                 && r[0].kind == ks[0].kind && r[0].pad == ks[0].pad
                 && r[0].body == [Flags(ks[0].body[0], o != 1)] + ks[0].body[1..]
                 && r[1..|ks|] == ks[1..]
                 && (o != 1 ==> r[|ks|] == Parts(Ascii("EXIF"), Exif.Block(o), []))
  {
    KeptIff(cs, KEEP);
    KindsKept(VP8X);
    hide Kept, Says, Exif.Block, Flags;
  }

  // Of the kept chunks and the new one, a second pass keeps the same.
  lemma FlaggedTwice(ks: seq<Chunk>, o: Byte, x: Tools)
    requires EXIF !in x.keep && (forall k | k in ks :: k.kind in x.keep)
    requires Exif.ReadsOrientation(x.read) && 1 <= o <= 8
    ensures Chunks(Flagged(ks, o), x) == Flagged(ks, o)
  {
    if ks == [] || ks[0].kind != VP8X {
      OnlyKept(ks, 1, x);
    } else {
      var tail: seq<Chunk> := if o != 1 then [Parts(EXIF, Exif.Block(o), [])] else [];
      var main := [WithFlags(ks[0], o != 1)] + ks[1..];
      OnlyKept(main, 1, x);
      FlagsSayIt(ks[0].body[0], o != 1);
      assert WithFlags(main[0], o != 1) == main[0];
      hide WithFlags, Flags, ValidChunk;
      KeptAppend(main, tail, x.keep);
      SaysAppend(main, tail, 1, x.read);
      TailSays(o, x);
      assert main + [] == main;
      assert [main[0]] + main[1..] == main;
    }
  }

  lemma TailSays(o: Byte, x: Tools)
    requires EXIF !in x.keep && Exif.ReadsOrientation(x.read) && 1 <= o <= 8
    ensures var tail: seq<Chunk> := if o != 1 then [Parts(EXIF, Exif.Block(o), [])] else [];
            Kept(tail, x.keep) == [] && Says(tail, 1, x.read) == o
  {
    if o != 1 {
      assert [Parts(EXIF, Exif.Block(o), [])][1..] == [];
    }
  }

  // Stripping a stripped file changes nothing.
  lemma StripTwice(form: seq<Byte>, cs: seq<Chunk>, trailer: seq<Byte>, x: Tools)
    requires |form| == 4 && |PrintAll(cs)| + 4 < TWO_32
    requires x.keep == KEEP && Exif.ReadsOrientation(x.read) && Stripped(File(form, cs, trailer), x).Ok?
    ensures var once := Stripped(File(form, cs, trailer), x).value; Stripped(once, x) == Ok(once)
  {
    ExifIsNotKept();
    StripPrinted(form, cs, trailer, x);
    KeptAreKept(cs, x.keep);
    SaysInRange(cs, 1, x.read);
    FlaggedTwice(Kept(cs, x.keep), Says(cs, 1, x.read), x);
    StripPrinted(WEBP, Chunks(cs, x), [], x);
  }

  // ── Any file whose chunks fit ─────────────────────────────────────

  // Every chunk ends within the RIFF body, and a VP8X has its flags.
  predicate Fits(body: seq<Byte>) {
    body == [] ||
    (|body| >= 8 && ChunkLength(body) <= |body|
     && (body[..4] == VP8X ==> LittleEndian(Slice(body, 4, 8)) > 0)
     && Fits(body[ChunkLength(body)..]))
  }

  lemma FirstChunk(body: seq<Byte>) returns (c: Chunk)
    requires body != [] && Fits(body)
    ensures Print(c) == body[..ChunkLength(body)]
  {
    var size, n := LittleEndian(Slice(body, 4, 8)), ChunkLength(body);
    assert Slice(body, 4, 8) == body[4..8];
    Little4Bytes(body[4..8]);
    hide LittleEndian, Little4, Slice, Fits;
    c := Parts(body[..4], body[8..8 + size], body[8 + size..n]);
    assert body[..n] == body[..4] + body[4..8] + body[8..8 + size] + body[8 + size..n];
  }

  // Then the body is a list of chunks, printed.
  lemma {:induction false} ChunksOf(body: seq<Byte>) returns (cs: seq<Chunk>)
    requires Fits(body)
    ensures PrintAll(cs) == body
    decreases |body|
  {
    cs := [];
    if body != [] {
      var n := ChunkLength(body);
      var c := FirstChunk(body);
      var rest := ChunksOf(body[n..]);
      cs := [c] + rest;
      hide ChunkLength, Print, Fits;
      assert cs[1..] == rest && body == body[..n] + body[n..];
    }
  }

  lemma {:induction false} PrintedFits(cs: seq<Chunk>)
    ensures Fits(PrintAll(cs))
    decreases |cs|
  {
    if cs != [] {
      var c, rest := cs[0], PrintAll(cs[1..]);
      PrintedFits(cs[1..]);
      Little4Value(|c.body|);
      var body := Print(c) + rest;
      assert body[..4] == c.kind && Slice(body, 4, 8) == Little4(|c.body|);
      hide Little4, LittleEndian, PrintAll;
      assert body[ChunkLength(body)..] == rest;
    }
  }

  // So these are the bodies that are lists of chunks, a VP8X never an empty one.
  lemma FitsIff(body: seq<Byte>)
    ensures Fits(body) <==> exists cs :: PrintAll(cs) == body
  {
    if Fits(body) {
      var cs := ChunksOf(body);
    }
    if cs :| PrintAll(cs) == body {
      PrintedFits(cs);
    }
  }

  lemma BodyOfFile(form: seq<Byte>, cs: seq<Chunk>, trailer: seq<Byte>)
    requires |form| == 4 && |PrintAll(cs)| + 4 < TWO_32
    ensures Body(File(form, cs, trailer)) == PrintAll(cs)
  {
    var data, n := File(form, cs, trailer), |PrintAll(cs)| + 4;
    Little4Value(n);
    hide PrintAll, LittleEndian, Little4;
    assert Slice(data, 4, 8) == Little4(n);
  }

  // A second pass over any accepted file whose chunks fit changes nothing.
  lemma StripTwiceWhereChunksFit(data: seq<Byte>, x: Tools)
    requires x.keep == KEEP && Exif.ReadsOrientation(x.read) && Stripped(data, x).Ok? && Fits(Body(data))
    ensures Stripped(Stripped(data, x).value, x) == Stripped(data, x)
  {
    var cs := ChunksOf(Body(data));
    LittleEndianBound(Slice(data, 4, 8));
    assert |Body(data)| + 4 < TWO_32;
    BodyOfFile(WEBP, cs, []);
    assert Stripped(File(WEBP, cs, []), x) == Stripped(data, x);
    StripTwice(WEBP, cs, [], x);
  }
}
