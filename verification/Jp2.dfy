/**
 * The JPEG 2000 stripper of app/services/attachment.py: the boxes of ISO/IEC
 * 15444-1, Annex I, without the metadata boxes, and the codestream in them
 * without its comments. A codestream box may hold a box file again.
 */
module Jp2 {
  import opened Options
  import opened Bytes
  import opened Facts

  datatype Error = NotJp2 | Truncated | OverflowError

  const SOC: seq<Byte> := [0xFF, 0x4F]
  const JP: seq<Byte> := [0x6A, 0x50, 0x20, 0x20]
  const JP2C: seq<Byte> := [0x6A, 0x70, 0x32, 0x63]

  // "jP  ", ftyp, rreq, jp2h, jp2c
  const KEEP: set<seq<Byte>> := {
    [0x6A, 0x50, 0x20, 0x20], [0x66, 0x74, 0x79, 0x70], [0x72, 0x72, 0x65, 0x71],
    [0x6A, 0x70, 0x32, 0x68], [0x6A, 0x70, 0x32, 0x63]
  }

  // By name: so none of "xml ", uuid, uinf and jp2i.
  lemma KindsKept(kind: seq<Byte>)
    ensures kind in KEEP <==> kind in {Ascii("jP  "), Ascii("ftyp"), Ascii("rreq"), Ascii("jp2h"), Ascii("jp2c")}
    ensures JP == Ascii("jP  ") && JP2C == Ascii("jp2c")
  {
  }

  // A marker segment before the first tile, as far as the data go.
  function SegmentLength(s: seq<Byte>): (n: nat)
    requires |s| >= 4
    ensures 2 <= n <= |s|
  {
    var n := 2 + BigEndian(Slice(s, 2, 4));
    if n > |s| then |s| else n
  }

  predicate StartsSegment(s: seq<Byte>) { |s| >= 4 && s[0] == 0xFF && s[1] != 0x90 }

  function Codestream(s: seq<Byte>): (r: seq<Byte>)
    ensures |r| <= |s|
  {
    if !StartsSegment(s) then s
    else (if s[1] == 0x64 then [] else s[..SegmentLength(s)]) + Codestream(s[SegmentLength(s)..])
  }

  datatype Head = Head(kind: seq<Byte>, header: nat, end: nat)

  // The first box: its kind, where its content starts and where it ends.
  function FirstBox(s: seq<Byte>): (h: Head)
    requires |s| >= 8
    ensures h.header >= 8
  {
    var short := BigEndian(Slice(s, 0, 4));
    var size := if short == 1 then BigEndian(Slice(s, 8, 16)) else short;
    Head(s[4..8], if short == 1 then 16 else 8, if size == 0 then |s| else size)
  }

  predicate Fits(s: seq<Byte>)
    requires |s| >= 8
  {
    FirstBox(s).header <= FirstBox(s).end <= |s|
  }

  // What is written for the first box.
  function Written(s: seq<Byte>, keep: set<seq<Byte>>): (r: Result<seq<Byte>, Error>)
    requires |s| >= 8 && Fits(s)
    ensures r.Ok? ==> |r.value| <= FirstBox(s).end
    decreases |s|, 1
  {
    var h := FirstBox(s);
    if h.kind == JP2C then
      match Stripped(s[h.header..h.end], keep)
      case Err(e) => Err(e)
      case Ok(c) => if 8 + |c| >= TWO_32 then Err(OverflowError) else Ok(Big4(8 + |c|) + h.kind + c)
    else Ok(if h.kind in keep then s[..h.end] else [])
  }

  function Boxes(s: seq<Byte>, keep: set<seq<Byte>>): (r: Result<seq<Byte>, Error>)
    ensures r.Ok? ==> |r.value| <= |s|
    decreases |s|, 2
  {
    if |s| < 8 then Ok([])
    else if !Fits(s) then Err(Truncated)
    else match Written(s, keep)
         case Err(e) => Err(e)
         case Ok(first) =>
           match Boxes(s[FirstBox(s).end..], keep)
           case Err(e) => Err(e)
           case Ok(rest) => Ok(first + rest)
  }

  // No result is longer than its input, however deep the boxes nest.
  function Stripped(data: seq<Byte>, keep: set<seq<Byte>>): (r: Result<seq<Byte>, Error>)
    ensures r.Ok? ==> |r.value| <= |data|
    decreases |data|, 3
  {
    if Slice(data, 0, 2) == SOC then Ok(SOC + Codestream(data[2..]))
    else if Slice(data, 4, 8) != JP then Err(NotJp2)
    else Boxes(data, keep)
  }

  // ── The walks ─────────────────────────────────────────────────────

  lemma Unfold(s: seq<Byte>)
    requires StartsSegment(s)
    ensures Codestream(s) ==
            (if s[1] == 0x64 then [] else s[..SegmentLength(s)]) + Codestream(s[SegmentLength(s)..])
  {
  }

  lemma SegmentIs(data: seq<Byte>, i: nat, end: nat)
    requires i + 4 <= |data| && end == i + 2 + BigEndian(Slice(data, i + 2, i + 4))
    ensures var s := From(data, i);
            |s| >= 4 && s[..SegmentLength(s)] == Slice(data, i, end) && s[SegmentLength(s)..] == From(data, end)
  {
    hide BigEndian;
    SliceFrom(data, i, 2, 4);
  }

  lemma SegmentAt(data: seq<Byte>, i: nat, end: nat, out: seq<Byte>)
    requires i + 4 <= |data| && data[i] == 0xFF && data[i + 1] != 0x90
    requires end == i + 2 + BigEndian(Slice(data, i + 2, i + 4))
    ensures out + Codestream(From(data, i)) ==
            (if data[i + 1] != 0x64 then out + Slice(data, i, end) else out) + Codestream(From(data, end))
  {
    hide Codestream, BigEndian, Slice, SegmentLength;
    SegmentIs(data, i, end);
    Unfold(From(data, i));
    Associates(out, Slice(data, i, end), Codestream(From(data, end)));
  }

  method StripCodestream(data: seq<Byte>) returns (r: seq<Byte>)
    requires Slice(data, 0, 2) == SOC
    ensures r == SOC + Codestream(data[2..])
  {
    var out, i := data[..2], 2;
    assert data[2..] == From(data, 2);
    while i + 4 <= |data| && data[i] == 0xFF && data[i + 1] != 0x90
      invariant 2 <= i
      invariant out + Codestream(From(data, i)) == SOC + Codestream(data[2..])
      decreases |data| - i
    {
      hide *;
      var end := i + 2 + BigEndian(Slice(data, i + 2, i + 4));
      SegmentAt(data, i, end, out);
      if data[i + 1] != 0x64 {
        out := out + Slice(data, i, end);
      }
      i := end;
    }
    assert !StartsSegment(From(data, i));
    r := out + From(data, i);
  }

  // The walk at `i` has written `out`.
  ghost predicate At(data: seq<Byte>, i: nat, out: seq<Byte>, keep: set<seq<Byte>>) {
    Boxes(data, keep) == match Boxes(From(data, i), keep) case Err(e) => Err(e) case Ok(rest) => Ok(out + rest)
  }

  lemma Pass(data: seq<Byte>, i: nat, out: seq<Byte>, keep: set<seq<Byte>>)
    requires i + 8 <= |data| && At(data, i, out, keep)
    ensures !Fits(From(data, i)) ==> Boxes(data, keep) == Err(Truncated)
    ensures Fits(From(data, i)) ==>
              match Written(From(data, i), keep)
              case Err(e) => Boxes(data, keep) == Err(e)
              case Ok(first) => At(data, i + FirstBox(From(data, i)).end, out + first, keep)
  {
    var s := From(data, i);
    if Fits(s) && Written(s, keep).Ok? {
      var n, first := FirstBox(s).end, Written(s, keep).value;
      FromFrom(data, i, n);
      assert s[n..] == From(data, i + n);
      if Boxes(s[n..], keep).Ok? {
        hide Written;
        assert out + (first + Boxes(s[n..], keep).value) == out + first + Boxes(s[n..], keep).value;
      }
    }
  }

  lemma BoxAt(data: seq<Byte>, i: nat)
    requires i + 8 <= |data|
    ensures var short := BigEndian(Slice(data, i, i + 4));
            var size := if short == 1 then BigEndian(Slice(data, i + 8, i + 16)) else short;
            FirstBox(From(data, i)) ==
            Head(Slice(data, i + 4, i + 8), if short == 1 then 16 else 8, if size == 0 then |data| - i else size)
  {
    hide BigEndian;
    SliceFrom(data, i, 0, 4);
    SliceFrom(data, i, 4, 8);
    SliceFrom(data, i, 8, 16);
  }

  lemma BoxBytes(data: seq<Byte>, i: nat)
    requires i + 8 <= |data| && Fits(From(data, i))
    ensures var h := FirstBox(From(data, i));
            && From(data, i)[h.header..h.end] == Slice(data, i + h.header, i + h.end)
            && From(data, i)[..h.end] == Slice(data, i, i + h.end)
            && |Slice(data, i + h.header, i + h.end)| < |data|
  {
    hide FirstBox;
  }

  lemma Arrived(data: seq<Byte>, i: nat, out: seq<Byte>, keep: set<seq<Byte>>)
    requires At(data, i, out, keep) && i + 8 > |data|
    ensures Boxes(data, keep) == Ok(out)
  {
    assert out + [] == out;
  }

  method Strip(data: seq<Byte>, keep: set<seq<Byte>>) returns (r: Result<seq<Byte>, Error>)
    ensures r == Stripped(data, keep)
    decreases |data|
  {
    if Slice(data, 0, 2) == SOC {
      var c := StripCodestream(data);
      return Ok(c);
    }
    if Slice(data, 4, 8) != JP {
      return Err(NotJp2);
    }
    r := StripBoxes(data, keep);
  }

  // One turn of the walk over boxes, in terms of the data.
  lemma Turn(data: seq<Byte>, i: nat, size: nat, header: nat, end: nat, out: seq<Byte>, keep: set<seq<Byte>>)
    requires i + 8 <= |data| && At(data, i, out, keep)
    requires var short := BigEndian(Slice(data, i, i + 4));
             && size == (if short == 1 then BigEndian(Slice(data, i + 8, i + 16)) else short)
             && header == (if short == 1 then 16 else 8)
             && end == if size == 0 then |data| else i + size
    ensures end > |data| || end < i + header ==> Boxes(data, keep) == Err(Truncated)
    ensures i + header <= end <= |data| ==>
              var kind, inner := Slice(data, i + 4, i + 8), Slice(data, i + header, end);
              && |inner| < |data|
              && (kind != JP2C && kind !in keep ==> At(data, end, out, keep))
              && (kind != JP2C && kind in keep ==> At(data, end, out + Slice(data, i, end), keep))
              && (kind == JP2C ==>
                    match Stripped(inner, keep)
                    case Err(e) => Boxes(data, keep) == Err(e)
                    case Ok(c) => if 8 + |c| >= TWO_32 then Boxes(data, keep) == Err(OverflowError)
                                  else At(data, end, out + (Big4(8 + |c|) + kind + c), keep))
  {
    hide At, Boxes, BigEndian, FirstBox, Stripped, Big4, Slice;
    BoxAt(data, i);
    if i + header <= end <= |data| {
      BoxBytes(data, i);
    }
    Pass(data, i, out, keep);
    assert out + [] == out;
  }

  method StripBoxes(data: seq<Byte>, keep: set<seq<Byte>>) returns (r: Result<seq<Byte>, Error>)
    ensures r == Boxes(data, keep)
    decreases |data|, 0
  {
    hide *;
    var out, i := [], 0;
    Started(data, keep);
    while i + 8 <= |data|
      invariant At(data, i, out, keep)
      decreases |data| - i
    {
      var size, header := BigEndian(Slice(data, i, i + 4)), 8;
      if size == 1 {
        size, header := BigEndian(Slice(data, i + 8, i + 16)), 16;
      }
      var kind, end := Slice(data, i + 4, i + 8), if size == 0 then |data| else i + size;
      Turn(data, i, size, header, end, out, keep);
      if end > |data| || end < i + header {
        return Err(Truncated);
      }
      if kind == JP2C { // rewritten: its length changes with the comments
        var c := Strip(Slice(data, i + header, end), keep);
        if c.Err? {
          return Err(c.error);
        }
        if 8 + |c.value| >= TWO_32 {
          return Err(OverflowError);
        }
        out := out + (Big4(8 + |c.value|) + kind + c.value);
      } else if kind in keep {
        out := out + Slice(data, i, end);
      }
      i := end;
    }
    Arrived(data, i, out, keep);
    r := Ok(out);
  }

  lemma Started(data: seq<Byte>, keep: set<seq<Byte>>)
    ensures At(data, 0, [], keep)
  {
    assert From(data, 0) == data && forall rest: seq<Byte> :: [] + rest == rest;
  }

  // ── A second pass ─────────────────────────────────────────────────

  lemma {:induction false} CodestreamTwice(s: seq<Byte>)
    ensures Codestream(Codestream(s)) == Codestream(s)
    decreases |s|
  {
    if StartsSegment(s) {
      var n := SegmentLength(s);
      CodestreamTwice(s[n..]);
      if s[1] != 0x64 {
        KeptSegmentTwice(s);
      } else {
        assert [] + Codestream(s[n..]) == Codestream(s[n..]);
      }
    }
  }

  // A segment shorter than its length field: what follows is no segment.
  lemma ShortSegment(s: seq<Byte>)
    requires StartsSegment(s) && SegmentLength(s) < 4
    ensures Codestream(s[SegmentLength(s)..]) == s[SegmentLength(s)..]
  {
    Big2Bytes(s[2..4]);
    assert Slice(s, 2, 4) == s[2..4];
    assert Big2(BigEndian(s[2..4]))[0] == 0;
  }

  // A segment that its length field ends stays one, whatever follows it.
  lemma SegmentStays(s: seq<Byte>, rest: seq<Byte>)
    requires StartsSegment(s) && 4 <= SegmentLength(s) < |s|
    ensures var n, out := SegmentLength(s), s[..SegmentLength(s)] + rest;
            && StartsSegment(out) && out[1] == s[1] && SegmentLength(out) == n
            && out[..n] == s[..n] && out[n..] == rest
  {
    var n := SegmentLength(s);
    SliceOfPrefix(s, n, rest, 2, 4);
    hide Slice, BigEndian;
    var out := s[..n] + rest;
    assert out[0] == s[0] && out[1] == s[1];
  }

  lemma KeptSegmentTwice(s: seq<Byte>)
    requires StartsSegment(s) && s[1] != 0x64
    requires var rest := s[SegmentLength(s)..]; Codestream(Codestream(rest)) == Codestream(rest)
    ensures Codestream(Codestream(s)) == Codestream(s)
  {
    Unfold(s);
    var n := SegmentLength(s);
    var rest := Codestream(s[n..]);
    if n < 4 {
      ShortSegment(s);
      hide *;
      assert s[..n] + rest == s;
    } else if n == |s| {
      Empty();
      hide *;
      assert s[..n] + [] == s;
    } else {
      SegmentStays(s, rest);
      Unfold(s[..n] + rest);
      hide *;
    }
  }

  lemma Empty()
    ensures Codestream([]) == []
  {
  }

  // A written box followed by anything is read and written again as it is.
  lemma KeptBoxAgain(s: seq<Byte>, rest: seq<Byte>, keep: set<seq<Byte>>)
    requires |s| >= 8 && Fits(s) && FirstBox(s).kind != JP2C && FirstBox(s).kind in keep
    requires FirstBox(s).end == |s| ==> rest == []
    ensures var first := s[..FirstBox(s).end];
            && |first + rest| >= 8 && Fits(first + rest) && FirstBox(first + rest).end == |first|
            && FirstBox(first + rest).kind == FirstBox(s).kind && FirstBox(first + rest).header == FirstBox(s).header
            && Written(first + rest, keep) == Ok(first) && (first + rest)[|first|..] == rest
  {
    var h := FirstBox(s);
    var first := s[..h.end];
    var t := first + rest;
    SliceOfPrefix(s, h.end, rest, 0, 4);
    SliceOfPrefix(s, h.end, rest, 4, 8);
    assert Slice(t, 4, 8) == t[4..8] && Slice(s, 4, 8) == s[4..8];
    if h.header == 16 {
      SliceOfPrefix(s, h.end, rest, 8, 16);
    }
    hide BigEndian, Slice;
    assert FirstBox(t) == h.(end := |first|);
    assert t[..|first|] == first;
  }

  lemma CodestreamBoxAgain(c: seq<Byte>, rest: seq<Byte>, keep: set<seq<Byte>>)
    requires 8 + |c| < TWO_32 && Stripped(c, keep) == Ok(c)
    ensures var first := Big4(8 + |c|) + JP2C + c;
            && |first + rest| >= 8 && Fits(first + rest) && FirstBox(first + rest).end == |first|
            && FirstBox(first + rest).kind == JP2C && FirstBox(first + rest).header == 8
            && Written(first + rest, keep) == Ok(first) && (first + rest)[|first|..] == rest
  {
    var first := Big4(8 + |c|) + JP2C + c;
    var t := first + rest;
    Big4Value(8 + |c|);
    assert Slice(t, 0, 4) == Big4(8 + |c|) && t[4..8] == JP2C;
    assert FirstBox(t) == Head(JP2C, 8, |first|);
    hide FirstBox, Stripped, Big4, Slice, BigEndian;
    assert t[8..|first|] == c;
  }

  // Reading back what was written for the first box, and the rest.
  lemma Again(s: seq<Byte>, rest: seq<Byte>, keep: set<seq<Byte>>)
    requires |s| >= 8 && Fits(s) && Written(s, keep).Ok? && Boxes(rest, keep) == Ok(rest)
    requires FirstBox(s).end == |s| ==> rest == []
    requires FirstBox(s).kind == JP2C ==>
               var c := Stripped(s[FirstBox(s).header..FirstBox(s).end], keep); c.Ok? && Stripped(c.value, keep) == c
    ensures Boxes(Written(s, keep).value + rest, keep) == Ok(Written(s, keep).value + rest)
  {
    var h, first := FirstBox(s), Written(s, keep).value;
    if h.kind == JP2C {
      var c := Stripped(s[h.header..h.end], keep).value;
      CodestreamBoxAgain(c, rest, keep);
    } else if h.kind in keep {
      KeptBoxAgain(s, rest, keep);
    } else {
      assert first + rest == rest;
    }
  }

  lemma {:induction false} BoxesTwice(s: seq<Byte>, keep: set<seq<Byte>>)
    requires Boxes(s, keep).Ok? && keep == KEEP
    ensures Boxes(Boxes(s, keep).value, keep) == Boxes(s, keep)
    decreases |s|, 0
  {
    if |s| >= 8 {
      var h := FirstBox(s);
      if h.kind == JP2C {
        StripTwice(s[h.header..h.end], keep);
      }
      BoxesTwice(s[h.end..], keep);
      var rest := Boxes(s[h.end..], keep).value;
      Again(s, rest, keep);
    }
  }

  // The first box is the signature, which is kept as it is.
  lemma StartsAlike(data: seq<Byte>, keep: set<seq<Byte>>)
    requires JP in keep && JP != JP2C && Slice(data, 4, 8) == JP && Boxes(data, keep).Ok?
    ensures var out := Boxes(data, keep).value;
            Slice(out, 0, 2) == Slice(data, 0, 2) && Slice(out, 4, 8) == JP
  {
    assert FirstBox(data).kind == JP;
    hide FirstBox;
    var out, end := Boxes(data, keep).value, FirstBox(data).end;
    assert out[..end] == data[..end];
  }

  // Stripping what was accepted once more changes nothing, at every depth.
  lemma {:induction false} StripTwice(data: seq<Byte>, keep: set<seq<Byte>>)
    requires Stripped(data, keep).Ok? && keep == KEEP
    ensures Stripped(Stripped(data, keep).value, keep) == Stripped(data, keep)
    decreases |data|, 1
  {
    if Slice(data, 0, 2) == SOC {
      CodestreamTwice(data[2..]);
      var out := SOC + Codestream(data[2..]);
      assert Slice(out, 0, 2) == SOC && out[2..] == Codestream(data[2..]);
    } else {
      BoxesTwice(data, keep);
      StartsAlike(data, keep);
    }
  }

  // ── What is kept ──────────────────────────────────────────────────

  // A marker segment of a codestream, and one before its first tile.
  datatype Parts = Parts(marker: Byte, payload: seq<Byte>)
  type Segment = g: Parts | g.marker != 0x90 && |g.payload| + 2 < 0x1_0000 witness Parts(0, [])

  function Print(g: Segment): seq<Byte> { [0xFF, g.marker] + Big2(|g.payload| + 2) + g.payload }

  function PrintAll(gs: seq<Segment>): seq<Byte> {
    if gs == [] then [] else Print(gs[0]) + PrintAll(gs[1..])
  }

  function NoComments(gs: seq<Segment>): seq<Segment> {
    if gs == [] then []
    else if gs[0].marker == 0x64 then NoComments(gs[1..])
    else [gs[0]] + NoComments(gs[1..])
  }

  lemma OneSegment(g: Segment, rest: seq<Byte>)
    ensures var s := Print(g) + rest;
            && StartsSegment(s) && s[1] == g.marker && SegmentLength(s) == |Print(g)|
            && s[..|Print(g)|] == Print(g) && s[|Print(g)|..] == rest
  {
    var s := Print(g) + rest;
    Big2Value(|g.payload| + 2);
    hide BigEndian, Big2;
    assert Slice(s, 2, 4) == Big2(|g.payload| + 2);
  }

  lemma {:induction false} SegmentsAreKept(gs: seq<Segment>, tail: seq<Byte>)
    requires !StartsSegment(tail)
    ensures Codestream(PrintAll(gs) + tail) == PrintAll(NoComments(gs)) + tail
    decreases |gs|
  {
    if gs == [] {
      assert [] + tail == tail;
    } else {
      var g, rest := gs[0], PrintAll(gs[1..]) + tail;
      Associates(Print(g), PrintAll(gs[1..]), tail);
      OneSegment(g, rest);
      Unfold(Print(g) + rest);
      SegmentsAreKept(gs[1..], tail);
      hide Print, SegmentLength, StartsSegment, Codestream;
      if g.marker == 0x64 {
        assert [] + (PrintAll(NoComments(gs[1..])) + tail) == PrintAll(NoComments(gs[1..])) + tail;
      } else {
        assert ([g] + NoComments(gs[1..]))[1..] == NoComments(gs[1..]);
        Associates(Print(g), PrintAll(NoComments(gs[1..])), tail);
      }
    }
  }

  // Stripping a printed codestream drops exactly its comments before the first
  // tile; the rest, tiles and all, stays byte for byte.
  lemma StripPrinted(gs: seq<Segment>, tail: seq<Byte>, keep: set<seq<Byte>>)
    requires !StartsSegment(tail)
    ensures Stripped([0xFF, 0x4F] + (PrintAll(gs) + tail), keep) == Ok([0xFF, 0x4F] + (PrintAll(NoComments(gs)) + tail))
  {
    var data := SOC + (PrintAll(gs) + tail);
    SegmentsAreKept(gs, tail);
    hide Codestream, PrintAll, NoComments;
    assert Slice(data, 0, 2) == SOC && data[2..] == PrintAll(gs) + tail;
  }

  // A box at the top: its kind, its bytes, and its content.
  datatype Item = Item(kind: seq<Byte>, bytes: seq<Byte>, content: seq<Byte>)

  function FirstItem(s: seq<Byte>): Item
    requires |s| >= 8 && Fits(s)
  {
    var h := FirstBox(s);
    Item(h.kind, s[..h.end], s[h.header..h.end])
  }

  // The boxes at the top, as far as they fit.
  function Items(s: seq<Byte>): seq<Item> {
    if |s| < 8 || !Fits(s) then [] else [FirstItem(s)] + Items(s[FirstBox(s).end..])
  }

  // What is to become of a kept box: a codestream is stripped, and any other
  // box stays as it is, header and all.
  predicate Becomes(was: Item, now: Item, keep: set<seq<Byte>>) {
    && now.kind == was.kind
    && (was.kind == JP2C ==> Stripped(was.content, keep) == Ok(now.content))
    && (was.kind != JP2C ==> now == was)
  }

  function Only(items: seq<Item>, keep: set<seq<Byte>>): seq<Item> {
    if items == [] then []
    else if items[0].kind in keep then [items[0]] + Only(items[1..], keep)
    else Only(items[1..], keep)
  }

  // The boxes of the result are the kept boxes of the input, in their order and
  // with their contents.
  lemma {:induction false} BoxesAreTheKeptOnes(s: seq<Byte>, keep: set<seq<Byte>>)
    requires Boxes(s, keep).Ok? && keep == KEEP
    ensures var now, was := Items(Boxes(s, keep).value), Only(Items(s), keep);
            |now| == |was| && forall i | 0 <= i < |now| :: Becomes(was[i], now[i], keep)
    decreases |s|
  {
    if |s| >= 8 {
      var h := FirstBox(s);
      var rest := Boxes(s[h.end..], keep).value;
      BoxesAreTheKeptOnes(s[h.end..], keep);
      assert ([FirstItem(s)] + Items(s[h.end..]))[1..] == Items(s[h.end..]);
      if h.kind in keep {
        KeptBoxIsRead(s, rest, keep);
      } else {
        JP2CIsKept();
        assert [] + rest == rest;
      }
    }
  }

  lemma JP2CIsKept()
    ensures JP2C in KEEP
  {
  }

  // What is written for a kept box is read as what becomes of it.
  lemma KeptBoxIsRead(s: seq<Byte>, rest: seq<Byte>, keep: set<seq<Byte>>)
    requires |s| >= 8 && Fits(s) && FirstBox(s).kind in keep && Written(s, keep).Ok? && keep == KEEP
    requires FirstBox(s).end == |s| ==> rest == []
    ensures var t := Written(s, keep).value + rest;
            |t| >= 8 && Fits(t) && Items(t) == [FirstItem(t)] + Items(rest) && Becomes(FirstItem(s), FirstItem(t), keep)
  {
    var h := FirstBox(s);
    var first := Written(s, keep).value;
    if h.kind == JP2C {
      var inner := s[h.header..h.end];
      StripTwice(inner, keep);
      var c := Stripped(inner, keep).value;
      CodestreamBoxAgain(c, rest, keep);
      hide Stripped, FirstBox, Big4;
      assert (first + rest)[8..|first|] == c;
    } else {
      KeptBoxAgain(s, rest, keep);
      hide Stripped, FirstBox, Big4;
      assert (first + rest)[h.header..|first|] == s[h.header..h.end];
    }
  }
}
