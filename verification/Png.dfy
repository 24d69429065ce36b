/**
 * The PNG stripper of app/services/attachment.py: a walk over the chunks of
 * W3C PNG, section 5.3, that keeps those describing pixels.
 */
module Png {
  import opened Options
  import opened Bytes
  import opened Facts
  import Exif

  datatype Error = Truncated

  const IEND: seq<Byte> := [0x49, 0x45, 0x4E, 0x44]
  const EXIF: seq<Byte> := [0x65, 0x58, 0x49, 0x66]

  // IHDR PLTE tRNS IDAT IEND acTL fcTL fdAT gAMA cHRM sRGB cICP sBIT bKGD pHYs
  const KEEP: set<seq<Byte>> := {
    [0x49, 0x48, 0x44, 0x52], [0x50, 0x4C, 0x54, 0x45], [0x74, 0x52, 0x4E, 0x53], [0x49, 0x44, 0x41, 0x54],
    [0x49, 0x45, 0x4E, 0x44], [0x61, 0x63, 0x54, 0x4C], [0x66, 0x63, 0x54, 0x4C], [0x66, 0x64, 0x41, 0x54],
    [0x67, 0x41, 0x4D, 0x41], [0x63, 0x48, 0x52, 0x4D], [0x73, 0x52, 0x47, 0x42], [0x63, 0x49, 0x43, 0x50],
    [0x73, 0x42, 0x49, 0x54], [0x62, 0x4B, 0x47, 0x44], [0x70, 0x48, 0x59, 0x73]
  }

  type Four = s: seq<Byte> | |s| == 4 witness [0, 0, 0, 0]

  // The table of kept kinds, and the two library functions used.
  datatype Tools = Tools(keep: set<seq<Byte>>, read: seq<Byte> -> Byte, crc32: seq<Byte> -> Four)

  datatype Parts = Parts(kind: seq<Byte>, body: seq<Byte>, crc: seq<Byte>)
  type Chunk = c: Parts | |c.kind| == 4 && |c.crc| == 4 && |c.body| < TWO_32
    witness Parts([0, 0, 0, 0], [], [0, 0, 0, 0])

  function Print(c: Chunk): seq<Byte> { Big4(|c.body|) + c.kind + c.body + c.crc }

  function PrintAll(cs: seq<Chunk>): seq<Byte> {
    if cs == [] then [] else Print(cs[0]) + PrintAll(cs[1..])
  }

  // The length of the first chunk, if the data hold all of it.
  function ChunkLength(s: seq<Byte>): (n: Option<nat>)
    ensures n.Some? ==> 12 <= n.value <= |s|
  {
    var n := 12 + BigEndian(Slice(s, 0, 4));
    if n > |s| then None else Some(n)
  }

  function FirstChunk(s: seq<Byte>): Chunk
    requires ChunkLength(s).Some?
  {
    var n := ChunkLength(s).value;
    Big4Bytes(s[..4]);
    Parts(s[4..8], s[8..n - 4], s[n - 4..n])
  }

  // The chunks up to the first IEND, or None if the data end before it.
  function Parse(s: seq<Byte>): Option<seq<Chunk>> {
    if ChunkLength(s).None? then None
    else if FirstChunk(s).kind == IEND then Some([FirstChunk(s)])
    else match Parse(s[ChunkLength(s).value..])
         case None => None
         case Some(cs) => Some([FirstChunk(s)] + cs)
  }

  function Kept(cs: seq<Chunk>, x: Tools): seq<Chunk> {
    if cs == [] then []
    else if cs[0].kind in x.keep then [cs[0]] + Kept(cs[1..], x)
    else Kept(cs[1..], x)
  }

  // What the last eXIf chunk says, or upright.
  function Orientation(cs: seq<Chunk>, x: Tools): Byte {
    if cs == [] then 1
    else if cs[|cs| - 1].kind == EXIF then (x.read)(cs[|cs| - 1].body)
    else Orientation(cs[..|cs| - 1], x)
  }

  // An orientation other than upright, in a block of its own.
  function Middle(o: Byte, x: Tools): seq<Chunk> {
    if o != 1 then [Parts(EXIF, Exif.Block(o), (x.crc32)(EXIF + Exif.Block(o)))] else []
  }

  // The chunks of the result: those kept, the orientation, and the end.
  function Result(init: seq<Chunk>, last: Chunk, x: Tools): seq<Chunk> {
    Kept(init, x) + Middle(Orientation(init, x), x) + [last]
  }

  function Stripped(data: seq<Byte>, x: Tools): Options.Result<seq<Byte>, Error> {
    match Parse(From(data, 8))
    case None => Err(Truncated)
    case Some(cs) =>
      if cs == [] then Err(Truncated)
      else Ok(Slice(data, 0, 8) + PrintAll(Result(cs[..|cs| - 1], cs[|cs| - 1], x)))
  }

  // The kinds kept, by name: what describes pixels. So none of tEXt, zTXt, iTXt,
  // eXIf, iCCP and tIME.
  lemma KindsKept(kind: seq<Byte>)
    ensures kind in KEEP <==>
            kind in {Ascii("IHDR"), Ascii("PLTE"), Ascii("tRNS"), Ascii("IDAT"), Ascii("IEND"), Ascii("acTL"), Ascii("fcTL"),
                     Ascii("fdAT"), Ascii("gAMA"), Ascii("cHRM"), Ascii("sRGB"), Ascii("cICP"), Ascii("sBIT"), Ascii("bKGD"),
                     Ascii("pHYs")}
    ensures IEND == Ascii("IEND") && EXIF == Ascii("eXIf") && EXIF !in KEEP
  {
  }

  // ── Bytes and chunks ──────────────────────────────────────────────

  lemma ChunkIsItsBytes(s: seq<Byte>)
    requires ChunkLength(s).Some?
    ensures Print(FirstChunk(s)) == s[..ChunkLength(s).value]
  {
    var n := ChunkLength(s).value;
    Big4Bytes(s[..4]);
    assert s[..n] == s[..4] + s[4..8] + s[8..n - 4] + s[n - 4..n];
  }

  lemma ParsesOne(c: Chunk, rest: seq<Byte>)
    ensures ChunkLength(Print(c) + rest) == Some(|Print(c)|)
    ensures FirstChunk(Print(c) + rest) == c
    ensures (Print(c) + rest)[|Print(c)|..] == rest
  {
    var s := Print(c) + rest;
    Big4Value(|c.body|);
    assert Slice(s, 0, 4) == Big4(|c.body|);
  }

  // A list ends with its one IEND.
  predicate Ends(cs: seq<Chunk>) {
    cs != [] && cs[|cs| - 1].kind == IEND && forall i | 0 <= i < |cs| - 1 :: cs[i].kind != IEND
  }

  lemma {:induction false} ParsesPrinted(cs: seq<Chunk>, rest: seq<Byte>)
    requires Ends(cs)
    ensures Parse(PrintAll(cs) + rest) == Some(cs)
    decreases |cs|
  {
    var c := cs[0];
    assert PrintAll(cs) + rest == Print(c) + (PrintAll(cs[1..]) + rest);
    ParsesOne(c, PrintAll(cs[1..]) + rest);
    if |cs| > 1 {
      ParsesPrinted(cs[1..], rest);
      assert cs == [c] + cs[1..];
    } else {
      assert cs == [c];
    }
  }

  lemma ConsEnds(c: Chunk, cs: seq<Chunk>)
    requires Ends(cs) && c.kind != IEND
    ensures Ends([c] + cs) && PrintAll([c] + cs) == Print(c) + PrintAll(cs)
  {
    assert ([c] + cs)[1..] == cs;
  }

  lemma ParseStep(s: seq<Byte>)
    requires Parse(s).Some? && FirstChunk(s).kind != IEND
    ensures Parse(s[ChunkLength(s).value..]).Some?
    ensures Parse(s).value == [FirstChunk(s)] + Parse(s[ChunkLength(s).value..]).value
    ensures s == Print(FirstChunk(s)) + s[ChunkLength(s).value..]
  {
    ChunkIsItsBytes(s);
  }

  lemma ParseLast(s: seq<Byte>)
    requires Parse(s).Some? && FirstChunk(s).kind == IEND
    ensures Ends(Parse(s).value) && s == PrintAll(Parse(s).value) + s[ChunkLength(s).value..]
  {
    ChunkIsItsBytes(s);
    assert [FirstChunk(s)][1..] == [];
    assert PrintAll([FirstChunk(s)]) == Print(FirstChunk(s));
  }

  lemma {:induction false} ParsedIsPrinted(s: seq<Byte>) returns (rest: seq<Byte>)
    requires Parse(s).Some?
    ensures Ends(Parse(s).value) && s == PrintAll(Parse(s).value) + rest
    decreases |s|
  {
    var n, c := ChunkLength(s).value, FirstChunk(s);
    if c.kind == IEND {
      ParseLast(s);
      rest := s[n..];
    } else {
      ParseStep(s);
      rest := ParsedIsPrinted(s[n..]);
      var cs := Parse(s[n..]).value;
      ConsEnds(c, cs);
      Associates(Print(c), PrintAll(cs), rest);
    }
  }

  lemma {:induction false} KeptAppend(a: seq<Chunk>, b: seq<Chunk>, x: Tools)
    ensures Kept(a + b, x) == Kept(a, x) + Kept(b, x)
    decreases |a|
  {
    if a == [] {
      assert a + b == b;
    } else {
      KeptAppend(a[1..], b, x);
      assert (a + b)[1..] == a[1..] + b;
    }
  }

  lemma {:induction false} KeptIff(cs: seq<Chunk>, x: Tools)
    ensures forall c :: c in Kept(cs, x) <==> c in cs && c.kind in x.keep
    decreases |cs|
  {
    if cs != [] {
      KeptIff(cs[1..], x);
      assert cs == [cs[0]] + cs[1..];
    }
  }

  // Before its end a result holds exactly the chunks of the kinds kept, and at
  // most one other: the orientation in an eXIf of its own, with its CRC.
  lemma NothingElseIsLeft(init: seq<Chunk>, last: Chunk, x: Tools)
    requires x.keep == KEEP && last.kind == IEND
    ensures var o, r := Orientation(init, x), Result(init, last, x);
            && r[|r| - 1] == last
            && (forall c | c in init && c.kind in KEEP :: c in r)
            && (forall c | c in r && c.kind in KEEP :: c in init || c == last)
            && (forall c | c in r && c.kind !in KEEP ::
                  o != 1 && c == Parts(Ascii("eXIf"), Exif.Block(o), (x.crc32)(Ascii("eXIf") + Exif.Block(o))))
            && (o != 1 ==> |r| >= 2 && r[|r| - 2].kind == Ascii("eXIf"))
  {
    KeptIff(init, x);
    KindsKept(IEND);
    KindsKept(EXIF);
    hide Kept, Orientation, Exif.Block;
  }

  lemma {:induction false} PrintAppend(a: seq<Chunk>, b: seq<Chunk>)
    ensures PrintAll(a + b) == PrintAll(a) + PrintAll(b)
    decreases |a|
  {
    if a == [] {
      assert a + b == b;
    } else {
      PrintAppend(a[1..], b);
      assert (a + b)[1..] == a[1..] + b;
    }
  }

  lemma One(c: Chunk, x: Tools)
    ensures Kept([c], x) == if c.kind in x.keep then [c] else []
    ensures PrintAll([c]) == Print(c)
  {
    assert [c][1..] == [];
  }

  // ── The walk ──────────────────────────────────────────────────────

  // The walk at `i` has passed the chunks `done`.
  ghost predicate Passed(data: seq<Byte>, i: nat, done: seq<Chunk>) {
    Parse(From(data, 8)) == match Parse(From(data, i)) case None => None case Some(cs) => Some(done + cs)
  }

  lemma Pass(data: seq<Byte>, i: nat, done: seq<Chunk>)
    requires Passed(data, i, done) && ChunkLength(From(data, i)).Some?
    ensures var c, n := FirstChunk(From(data, i)), ChunkLength(From(data, i)).value;
            if c.kind == IEND then Parse(From(data, 8)) == Some(done + [c])
            else Passed(data, i + n, done + [c])
  {
    var c, n := FirstChunk(From(data, i)), ChunkLength(From(data, i)).value;
    FromFrom(data, i, n);
    assert From(data, i)[n..] == From(data, i + n);
    if c.kind != IEND && Parse(From(data, i + n)).Some? {
      var cs := Parse(From(data, i + n)).value;
      assert done + ([c] + cs) == done + [c] + cs;
    }
  }

  lemma ChunkAt(data: seq<Byte>, i: nat)
    ensures var end := i + 12 + BigEndian(Slice(data, i, i + 4)); var s := From(data, i);
            && (end > |data| <==> ChunkLength(s).None?)
            && (end <= |data| ==>
                  && end == i + ChunkLength(s).value
                  && Print(FirstChunk(s)) == data[i..end]
                  && FirstChunk(s).kind == Slice(data, i + 4, i + 8)
                  && FirstChunk(s).body == data[i + 8..end - 4])
  {
    SliceFrom(data, i, 0, 4);
    var s := From(data, i);
    if ChunkLength(s).Some? {
      ChunkIsItsBytes(s);
      var n := ChunkLength(s).value;
      assert s[..n] == data[i..i + n];
      assert s[8..n - 4] == data[i + 8..i + n - 4];
      SliceFrom(data, i, 4, 8);
    }
  }

  lemma Turn(done: seq<Chunk>, c: Chunk, x: Tools)
    ensures PrintAll(Kept(done + [c], x)) == PrintAll(Kept(done, x)) + if c.kind in x.keep then Print(c) else []
    ensures Orientation(done + [c], x) == if c.kind == EXIF then (x.read)(c.body) else Orientation(done, x)
  {
    KeptAppend(done, [c], x);
    One(c, x);
    PrintAppend(Kept(done, x), if c.kind in x.keep then [c] else []);
    assert (done + [c])[..|done|] == done;
  }

  // The walk's variables after the chunks `done`.
  ghost predicate At(signature: seq<Byte>, done: seq<Chunk>, out: seq<Byte>, orientation: Byte, x: Tools) {
    out == signature + PrintAll(Kept(done, x)) && orientation == Orientation(done, x)
  }

  lemma Start(data: seq<Byte>, signature: seq<Byte>, x: Tools)
    ensures Passed(data, 8, []) && At(signature, [], signature, 1, x)
  {
    assert forall cs: seq<Chunk> :: [] + cs == cs;
    assert signature + [] == signature;
  }

  lemma Advance(signature: seq<Byte>, done: seq<Chunk>, c: Chunk, out: seq<Byte>, orientation: Byte, x: Tools)
    requires At(signature, done, out, orientation, x)
    ensures At(signature, done + [c], if c.kind in x.keep then out + Print(c) else out,
               if c.kind == EXIF then (x.read)(c.body) else orientation, x)
  {
    Turn(done, c, x);
    Associates(signature, PrintAll(Kept(done, x)), Print(c));
  }

  lemma Stop(data: seq<Byte>, i: nat, done: seq<Chunk>, x: Tools)
    requires Passed(data, i, done) && ChunkLength(From(data, i)).None?
    ensures Stripped(data, x) == Err(Truncated)
  {
  }

  lemma Arrive(data: seq<Byte>, i: nat, done: seq<Chunk>, out: seq<Byte>, orientation: Byte, x: Tools)
    requires Passed(data, i, done) && At(Slice(data, 0, 8), done, out, orientation, x)
    requires ChunkLength(From(data, i)).Some? && FirstChunk(From(data, i)).kind == IEND
    ensures Stripped(data, x) == Ok(out + PrintAll(Middle(orientation, x)) + Print(FirstChunk(From(data, i))))
  {
    var c := FirstChunk(From(data, i));
    Pass(data, i, done);
    LastTurn(Slice(data, 0, 8), done, c, x);
    assert (done + [c])[..|done|] == done;
  }

  // The end of the walk: what was kept, the new block, and IEND.
  lemma LastTurn(signature: seq<Byte>, done: seq<Chunk>, last: Chunk, x: Tools)
    ensures signature + PrintAll(Result(done, last, x)) ==
            signature + PrintAll(Kept(done, x)) + PrintAll(Middle(Orientation(done, x), x)) + Print(last)
  {
    var ks, middle := Kept(done, x), Middle(Orientation(done, x), x);
    PrintAppend(ks + middle, [last]);
    PrintAppend(ks, middle);
    One(last, x);
    Associates(signature, PrintAll(ks), PrintAll(middle));
    Associates(signature, PrintAll(ks) + PrintAll(middle), Print(last));
  }

  method NewBlock(orientation: Byte, x: Tools) returns (out: seq<Byte>)
    ensures out == PrintAll(Middle(orientation, x))
  {
    out := [];
    if orientation != 1 {
      var exif := EXIF + Exif.Block(orientation);
      out := Big4(|exif| - 4) + exif;
      out := out + (x.crc32)(exif);
      One(Middle(orientation, x)[0], x);
    }
  }

  method Walk(data: seq<Byte>, x: Tools) returns (r: Options.Result<seq<Byte>, Error>)
    requires EXIF !in x.keep && EXIF != IEND
    ensures r == Stripped(data, x)
  {
    hide *;
    ghost var signature := Slice(data, 0, 8);
    var out, i, orientation := Slice(data, 0, 8), 8, 1;
    ghost var done: seq<Chunk> := [];
    Start(data, signature, x);
    while true
      invariant Passed(data, i, done)
      invariant At(signature, done, out, orientation, x)
      decreases |data| - i
    {
      var length := BigEndian(Slice(data, i, i + 4));
      var kind, end := Slice(data, i + 4, i + 8), i + 12 + length;
      ChunkAt(data, i);
      if end > |data| {
        Stop(data, i, done, x);
        return Err(Truncated);
      }
      ghost var c := FirstChunk(From(data, i));
      Advance(signature, done, c, out, orientation, x);
      if kind == EXIF {
        orientation := (x.read)(data[i + 8..end - 4]);
      } else if kind == IEND { // anything after it is not part of the image
        Arrive(data, i, done, out, orientation, x);
        var exif := NewBlock(orientation, x);
        return Ok(out + exif + data[i..end]);
      } else if kind in x.keep {
        out := out + data[i..end];
      }
      Pass(data, i, done);
      done := done + [c];
      i := end;
    }
  }

  lemma ExifIsNotKept()
    ensures EXIF !in KEEP && EXIF != IEND
  {
  }

  method Strip(data: seq<Byte>, read: seq<Byte> -> Byte, crc32: seq<Byte> -> Four)
    returns (r: Options.Result<seq<Byte>, Error>)
    ensures r == Stripped(data, Tools(KEEP, read, crc32))
  {
    ExifIsNotKept();
    r := Walk(data, Tools(KEEP, read, crc32));
  }

  // ── What stripping is for ─────────────────────────────────────────

  lemma {:induction false} KeptTwice(cs: seq<Chunk>, x: Tools)
    ensures Kept(Kept(cs, x), x) == Kept(cs, x)
    ensures forall c | c in Kept(cs, x) :: c.kind in x.keep && c in cs
    decreases |cs|
  {
    if cs != [] {
      KeptTwice(cs[1..], x);
      if cs[0].kind in x.keep {
        assert Kept(cs, x)[1..] == Kept(cs[1..], x);
      }
    }
  }

  lemma {:induction false} NoExifIsUpright(cs: seq<Chunk>, x: Tools)
    requires forall c | c in cs :: c.kind != EXIF
    ensures Orientation(cs, x) == 1
    decreases |cs|
  {
    if cs != [] {
      NoExifIsUpright(cs[..|cs| - 1], x);
    }
  }

  lemma {:induction false} OrientationInRange(cs: seq<Chunk>, x: Tools)
    requires Exif.ReadsOrientation(x.read)
    ensures 1 <= Orientation(cs, x) <= 8
    decreases |cs|
  {
    if cs != [] {
      OrientationInRange(cs[..|cs| - 1], x);
    }
  }

  // Of what was kept and the new block, a second pass reads the same.
  lemma MiddleTwice(ks: seq<Chunk>, o: Byte, x: Tools)
    requires Exif.ReadsOrientation(x.read) && 1 <= o <= 8 && EXIF !in x.keep
    requires Kept(ks, x) == ks && forall c | c in ks :: c.kind in x.keep
    ensures Kept(ks + Middle(o, x), x) == ks && Orientation(ks + Middle(o, x), x) == o
  {
    NoExifIsUpright(ks, x);
    KeptAppend(ks, Middle(o, x), x);
    if o != 1 {
      var c := Middle(o, x)[0];
      One(c, x);
      assert (ks + [c])[|ks + [c]| - 1] == c;
    } else {
      assert ks + Middle(o, x) == ks;
    }
  }

  lemma ResultTwice(init: seq<Chunk>, last: Chunk, x: Tools)
    requires Exif.ReadsOrientation(x.read) && EXIF !in x.keep
    ensures var once := Result(init, last, x);
            once[..|once| - 1] == Kept(init, x) + Middle(Orientation(init, x), x) &&
            Result(once[..|once| - 1], once[|once| - 1], x) == once
  {
    var o, ks := Orientation(init, x), Kept(init, x);
    var once := Result(init, last, x);
    KeptTwice(init, x);
    OrientationInRange(init, x);
    MiddleTwice(ks, o, x);
    assert once[..|once| - 1] == ks + Middle(o, x);
  }

  lemma ResultEnds(init: seq<Chunk>, last: Chunk, x: Tools)
    requires last.kind == IEND && forall c | c in init :: c.kind != IEND
    ensures Ends(Result(init, last, x))
  {
    KeptTwice(init, x);
    var once := Result(init, last, x);
    forall i | 0 <= i < |once| - 1 ensures once[i].kind != IEND {
      assert once[i] in Kept(init, x) || once[i] in Middle(Orientation(init, x), x);
    }
  }

  // Either the data end before IEND, or they are the signature, chunks up to
  // IEND, and a rest; then the result is the signature and the chunks kept,
  // with the orientation in a block of its own before IEND.
  lemma StripPrinted(data: seq<Byte>, x: Tools)
    ensures Stripped(data, x).Ok? <==>
            exists cs, rest :: Ends(cs) && |data| >= 8 && data[8..] == PrintAll(cs) + rest
    ensures forall cs, rest | Ends(cs) && |data| >= 8 && data[8..] == PrintAll(cs) + rest ::
              Stripped(data, x) == Ok(data[..8] + PrintAll(Result(cs[..|cs| - 1], cs[|cs| - 1], x)))
  {
    var s := From(data, 8);
    if Parse(s).Some? {
      var rest := ParsedIsPrinted(s);
      assert data[8..] == PrintAll(Parse(s).value) + rest;
    }
    forall cs, rest | Ends(cs) && |data| >= 8 && data[8..] == PrintAll(cs) + rest
      ensures Stripped(data, x) == Ok(data[..8] + PrintAll(Result(cs[..|cs| - 1], cs[|cs| - 1], x)))
    {
      ParsesPrinted(cs, rest);
    }
  }

  // Stripping what was accepted once more changes nothing.
  lemma StripTwice(data: seq<Byte>, x: Tools)
    requires Exif.ReadsOrientation(x.read) && x.keep == KEEP && Stripped(data, x).Ok?
    ensures Stripped(Stripped(data, x).value, x) == Stripped(data, x)
  {
    ExifIsNotKept();
    var once := Stripped(data, x).value;
    var cs := Parse(From(data, 8)).value;
    var _ := ParsedIsPrinted(From(data, 8));
    var init, last := cs[..|cs| - 1], cs[|cs| - 1];
    ResultTwice(init, last, x);
    ResultEnds(init, last, x);
    var ks := Result(init, last, x);
    ParsesPrinted(ks, []);
    assert |data| >= 8 && From(once, 8) == PrintAll(ks) + [];
    assert Slice(once, 0, 8) == Slice(data, 0, 8);
  }
}
