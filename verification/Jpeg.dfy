/**
 * The JPEG stripper of app/services/attachment.py: a walk over the marker
 * segments of ITU-T T.81, Annex B, that drops APPn (except APP14) and COM.
 */
module Jpeg {
  import opened Options
  import opened Bytes
  import opened Facts
  import Exif

  predicate Restarts(b: Byte) { 0xD0 <= b <= 0xD7 }

  // How much of `s` is entropy-coded data: up to the first marker that is
  // neither byte stuffing nor a restart.
  function EntropyLength(s: seq<Byte>): (n: nat)
    ensures n <= |s|
  {
    if |s| < 2 then |s|
    else if s[0] != 0xFF then 1 + EntropyLength(s[1..])
    else if s[1] == 0 || Restarts(s[1]) then 2 + EntropyLength(s[2..])
    else 0
  }

  lemma {:induction false} NoMarkerAhead(s: seq<Byte>, k: nat)
    requires k <= |s|
    requires forall j | 0 <= j < k :: s[j] != 0xFF
    ensures EntropyLength(s) == k + EntropyLength(s[k..])
    decreases k
  {
    if k == 0 {
      assert s[0..] == s;
    } else if |s| >= 2 {
      NoMarkerAhead(s[1..], k - 1);
      assert s[1..][k - 1..] == s[k..];
    } else {
      assert s[k..] == [];
    }
  }

  // Where a search for FF from `i` on ends.
  ghost predicate FoundMarker(data: seq<Byte>, i: nat, at: int) {
    if at == -1 then forall j | i <= j < |data| :: data[j] != 0xFF
    else i <= at < |data| && data[at] == 0xFF && forall j | i <= j < at :: data[j] != 0xFF
  }

  // data.find(b"\xff", i)
  method FindMarker(data: seq<Byte>, i: nat) returns (at: int)
    ensures -1 <= at < |data| && FoundMarker(data, i, at)
  {
    at := i;
    while at < |data|
      invariant i <= at && forall j | i <= j < at && j < |data| :: data[j] != 0xFF
    {
      if data[at] == 0xFF {
        return;
      }
      at := at + 1;
    }
    at := -1;
  }

  // Where a scan ends that has been followed to the marker there.
  function ScanFrom(data: seq<Byte>, at: int): nat
    requires -1 <= at < |data|
  {
    if at == -1 then |data| else at + EntropyLength(data[at..])
  }

  lemma FromMarkerToMarker(data: seq<Byte>, i: nat, at: int)
    requires -1 <= at < |data| && i <= |data| && FoundMarker(data, i, at)
    ensures i + EntropyLength(data[i..]) == ScanFrom(data, at)
  {
    var end := if at == -1 then |data| else at;
    NoMarkerAhead(data[i..], end - i);
    hide EntropyLength;
    assert data[i..][end - i..] == data[end..];
  }

  lemma OverStuffing(data: seq<Byte>, i: nat)
    requires i + 1 < |data| && data[i] == 0xFF && (data[i + 1] == 0 || Restarts(data[i + 1]))
    ensures i + EntropyLength(data[i..]) == i + 2 + EntropyLength(data[i + 2..])
  {
    assert data[i..][2..] == data[i + 2..];
  }

  method ScanEnd(data: seq<Byte>, start: nat) returns (end: nat)
    ensures end == if start <= |data| then start + EntropyLength(data[start..]) else |data|
  {
    var i := FindMarker(data, start);
    if start > |data| {
      return |data|;
    }
    FromMarkerToMarker(data, start, i);
    ghost var goal := start + EntropyLength(data[start..]);
    while i != -1 && i + 1 < |data|
      invariant -1 <= i < |data| && (i != -1 ==> data[i] == 0xFF)
      invariant ScanFrom(data, i) == goal
      decreases if i == -1 then 0 else |data| - i
    {
      if data[i + 1] != 0 && !Restarts(data[i + 1]) {
        assert EntropyLength(data[i..]) == 0;
        return i;
      }
      OverStuffing(data, i);
      hide EntropyLength;
      var next := FindMarker(data, i + 2);
      FromMarkerToMarker(data, i + 2, next);
      i := next;
    }
    end := |data|;
  }

  predicate Drops(marker: Byte) {
    (0xE0 <= marker <= 0xEF && marker != 0xEE) || marker == 0xFE
  }

  // The length of the segment `s` starts with, as far as the file goes: its
  // header and payload, and for a start of scan the image data after it.
  function SegmentLength(s: seq<Byte>): (n: nat)
    requires |s| >= 2
    ensures 2 <= n <= |s|
  {
    var header := 2 + BigEndian(Slice(s, 2, 4));
    if header > |s| then |s|
    else if s[1] == 0xDA then header + EntropyLength(s[header..])
    else header
  }

  // What is kept of `s`, from a segment's start.
  function Segments(s: seq<Byte>): seq<Byte> {
    if |s| < 2 || s[0] != 0xFF then []
    else if s[1] == 0xFF then Segments(s[1..])
    else if s[1] == 0xD9 then [0xFF, 0xD9]
    else (if Drops(s[1]) then [] else s[..SegmentLength(s)]) + Segments(s[SegmentLength(s)..])
  }

  function Stripped(data: seq<Byte>): seq<Byte> {
    if Slice(data, 0, 2) != [0xFF, 0xD8] then data else [0xFF, 0xD8] + Segments(data[2..])
  }

  // One segment of the walk: where it ends in the file, and what it adds.
  lemma OneSegment(data: seq<Byte>, i: nat, header: nat, end: nat)
    requires i + 1 < |data| && header == i + 2 + BigEndian(Slice(data, i + 2, i + 4))
    requires end == if data[i + 1] != 0xDA then header
                    else if header <= |data| then header + EntropyLength(data[header..]) else |data|
    ensures Slice(data, i, end) == From(data, i)[..SegmentLength(From(data, i))]
    ensures From(data, end) == From(data, i)[SegmentLength(From(data, i))..]
  {
    var s := data[i..];
    SliceFrom(data, i, 2, 4);
    assert Slice(s, 2, 4) == Slice(data, i + 2, i + 4);
    if header <= |data| {
      assert s[header - i..] == data[header..];
    }
  }

  lemma UnfoldSegment(s: seq<Byte>)
    requires |s| >= 2 && s[0] == 0xFF && s[1] != 0xFF && s[1] != 0xD9
    ensures Segments(s) == (if Drops(s[1]) then [] else s[..SegmentLength(s)]) + Segments(s[SegmentLength(s)..])
  {
  }

  lemma KeepOrDrop(data: seq<Byte>, i: nat, header: nat, end: nat, out: seq<Byte>)
    requires i + 1 < |data| && header == i + 2 + BigEndian(Slice(data, i + 2, i + 4))
    requires data[i] == 0xFF && data[i + 1] != 0xFF && data[i + 1] != 0xD9
    requires end == if data[i + 1] != 0xDA then header
                    else if header <= |data| then header + EntropyLength(data[header..]) else |data|
    ensures out + Segments(From(data, i)) ==
            (if Drops(data[i + 1]) then out else out + Slice(data, i, end)) + Segments(From(data, end))
  {
    OneSegment(data, i, header, end);
    UnfoldSegment(From(data, i));
    assert From(data, i)[1] == data[i + 1];
    hide *;
    Associates(out, Slice(data, i, end), Segments(From(data, end)));
  }

  method StripSegments(data: seq<Byte>) returns (out: seq<Byte>)
    ensures out == Stripped(data)
  {
    if Slice(data, 0, 2) != [0xFF, 0xD8] {
      return data;
    }
    out := data[..2];
    var i := 2;
    while i + 1 < |data| && data[i] == 0xFF
      invariant 2 <= i
      invariant out + Segments(From(data, i)) == Stripped(data)
      decreases |data| - i
    {
      var marker := data[i + 1];
      if marker == 0xFF {
        assert From(data, i)[1..] == From(data, i + 1);
        i := i + 1;
        continue;
      }
      if marker == 0xD9 {
        assert Segments(From(data, i)) == [0xFF, 0xD9];
        return out + [0xFF, 0xD9];
      }
      var header := i + 2 + BigEndian(Slice(data, i + 2, i + 4));
      var end := header;
      if marker == 0xDA {
        end := ScanEnd(data, end);
      }
      KeepOrDrop(data, i, header, end, out);
      if !Drops(marker) {
        out := out + Slice(data, i, end);
      }
      i := end;
    }
  }

  // ── Well-formed files ─────────────────────────────────────────────

  // Entropy-coded data: FF only as byte stuffing (FF 00) or in a restart.
  datatype Code = Plain(b: Byte) | Stuffed | Restart(m: nat)
  type Token = c: Code | (c.Plain? ==> c.b != 0xFF) && (c.Restart? ==> c.m < 8) witness Stuffed

  // fill: the optional FF bytes before a marker. Only a scan has image data.
  datatype Part = Part(fill: nat, marker: Byte, payload: seq<Byte>, scan: seq<Token>)
  type Segment = g: Part | ValidSegment(g) witness Part(0, 0xFE, [], [])

  predicate ValidSegment(g: Part) {
    && g.marker !in {0x00, 0xD8, 0xD9, 0xFF} && !Restarts(g.marker)
    && |g.payload| + 2 < 0x1_0000
    && (g.marker != 0xDA ==> g.scan == [])
  }

  function PrintToken(t: Token): seq<Byte> {
    match t
    case Plain(b) => [b]
    case Stuffed => [0xFF, 0x00]
    case Restart(m) => [0xFF, 0xD0 + m]
  }

  function PrintScan(ts: seq<Token>): seq<Byte> {
    if ts == [] then [] else PrintToken(ts[0]) + PrintScan(ts[1..])
  }

  function Fill(n: nat): seq<Byte> { seq(n, _ => 0xFF) }

  // From the marker on.
  function PrintBare(g: Segment): seq<Byte> {
    [0xFF, g.marker] + Big2(|g.payload| + 2) + g.payload + PrintScan(g.scan)
  }

  function PrintAll(gs: seq<Segment>): seq<Byte> {
    if gs == [] then [] else Fill(gs[0].fill) + PrintBare(gs[0]) + PrintAll(gs[1..])
  }

  // A file: start of image, segments, end of image, and whatever follows.
  function Print(gs: seq<Segment>, fill: nat, trailer: seq<Byte>): seq<Byte> {
    [0xFF, 0xD8] + (PrintAll(gs) + (Fill(fill) + ([0xFF, 0xD9] + trailer)))
  }

  function Bare(g: Segment): Segment { g.(fill := 0) }

  function Kept(gs: seq<Segment>): seq<Segment> {
    if gs == [] then []
    else if Drops(gs[0].marker) then Kept(gs[1..])
    else [Bare(gs[0])] + Kept(gs[1..])
  }

  // What ends entropy-coded data: a marker, or fill before one.
  predicate StartsMarker(s: seq<Byte>) {
    |s| >= 2 && s[0] == 0xFF && s[1] != 0 && !Restarts(s[1])
  }

  lemma {:induction false} ScanEndsAtMarker(ts: seq<Token>, rest: seq<Byte>)
    requires StartsMarker(rest)
    ensures EntropyLength(PrintScan(ts) + rest) == |PrintScan(ts)|
    decreases |ts|
  {
    if ts == [] {
      assert PrintScan(ts) + rest == rest;
    } else {
      var tail := PrintScan(ts[1..]) + rest;
      ScanEndsAtMarker(ts[1..], rest);
      assert PrintScan(ts) + rest == PrintToken(ts[0]) + tail;
      assert (PrintToken(ts[0]) + tail)[|PrintToken(ts[0])|..] == tail;
    }
  }

  // FF and 00, or FF and D0 to D7, go on with a scan; any other marker ends it.
  lemma EndsScanIff(m: Byte, rest: seq<Byte>)
    ensures EntropyLength([0xFF, m] + rest) == 0 <==> m != 0 && !(0xD0 <= m < 0xD8)
  {
  }

  // The data before a marker that a scan does not go on with are a scan, printed.
  lemma {:induction false} ScanOf(s: seq<Byte>) returns (ts: seq<Token>)
    requires EntropyLength(s + [0xFF, 0xD9]) == |s|
    ensures PrintScan(ts) == s
    decreases |s|
  {
    ts := [];
    if s != [] {
      var end := s + [0xFF, 0xD9];
      var n := if s[0] != 0xFF then 1 else 2;
      assert n <= |s| && s[n..] + [0xFF, 0xD9] == end[n..];
      var t: Token := if n == 1 then Plain(s[0]) else if s[1] == 0 then Stuffed else Restart(s[1] - 0xD0);
      var more := ScanOf(s[n..]);
      ts := [t] + more;
      assert ts[1..] == more && s == s[..n] + s[n..] && PrintToken(t) == s[..n];
    }
  }

  lemma ScanIff(s: seq<Byte>)
    ensures EntropyLength(s + [0xFF, 0xD9]) == |s| <==> exists ts :: PrintScan(ts) == s
  {
    if EntropyLength(s + [0xFF, 0xD9]) == |s| {
      var ts := ScanOf(s);
    }
    if ts :| PrintScan(ts) == s {
      ScanEndsAtMarker(ts, [0xFF, 0xD9]);
    }
  }

  lemma {:induction false} FillIsSkipped(n: nat, rest: seq<Byte>)
    requires StartsMarker(rest)
    ensures StartsMarker(Fill(n) + rest) && Segments(Fill(n) + rest) == Segments(rest)
    decreases n
  {
    var s := Fill(n) + rest;
    if n == 0 {
      assert s == rest;
    } else {
      FillIsSkipped(n - 1, rest);
      assert s[1..] == Fill(n - 1) + rest;
    }
  }

  lemma SegmentIsKeptOrDropped(g: Segment, rest: seq<Byte>)
    requires StartsMarker(rest)
    ensures StartsMarker(PrintBare(g) + rest)
    ensures Segments(PrintBare(g) + rest) == (if Drops(g.marker) then [] else PrintBare(g)) + Segments(rest)
  {
    var s := PrintBare(g) + rest;
    BareLength(g, rest);
    UnfoldSegment(s);
    hide SegmentLength, Segments, PrintBare;
    assert s[..|PrintBare(g)|] == PrintBare(g) && s[|PrintBare(g)|..] == rest;
  }

  lemma BareLength(g: Segment, rest: seq<Byte>)
    requires StartsMarker(rest)
    ensures var s := PrintBare(g) + rest; |s| >= 2 && s[0] == 0xFF && s[1] == g.marker && SegmentLength(s) == |PrintBare(g)|
  {
    var s := PrintBare(g) + rest;
    var header := 4 + |g.payload|;
    assert Slice(s, 2, 4) == Big2(|g.payload| + 2);
    Big2Value(|g.payload| + 2);
    ScanEndsAtMarker(g.scan, rest);
    hide BigEndian, Big2, Slice, EntropyLength, PrintScan;
    assert s[header..] == PrintScan(g.scan) + rest;
  }

  lemma PrintKept(g: Segment, gs: seq<Segment>)
    ensures PrintAll([Bare(g)] + gs) == PrintBare(g) + PrintAll(gs)
  {
    assert ([Bare(g)] + gs)[1..] == gs;
    assert Fill(0) + PrintBare(Bare(g)) == PrintBare(g);
  }

  lemma FilledIsKeptOrDropped(g: Segment, rest: seq<Byte>)
    requires StartsMarker(rest)
    ensures var s := Fill(g.fill) + (PrintBare(g) + rest);
            && StartsMarker(s)
            && Segments(s) == (if Drops(g.marker) then [] else PrintBare(g)) + Segments(rest)
  {
    SegmentIsKeptOrDropped(g, rest);
    FillIsSkipped(g.fill, PrintBare(g) + rest);
  }

  lemma {:induction false} AllAreKeptOrDropped(gs: seq<Segment>, rest: seq<Byte>)
    requires StartsMarker(rest)
    ensures StartsMarker(PrintAll(gs) + rest)
    ensures Segments(PrintAll(gs) + rest) == PrintAll(Kept(gs)) + Segments(rest)
    decreases |gs|
  {
    if gs == [] {
      assert PrintAll(gs) + rest == rest;
      assert PrintAll(Kept(gs)) + Segments(rest) == Segments(rest);
    } else {
      var g, ks := gs[0], Kept(gs[1..]);
      AllAreKeptOrDropped(gs[1..], rest);
      FilledIsKeptOrDropped(g, PrintAll(gs[1..]) + rest);
      Associates(Fill(g.fill) + PrintBare(g), PrintAll(gs[1..]), rest);
      Associates(Fill(g.fill), PrintBare(g), PrintAll(gs[1..]) + rest);
      PrintKept(g, ks);
      Associates(PrintBare(g), PrintAll(ks), Segments(rest));
      Associates([], PrintAll(ks), Segments(rest));
      assert [] + PrintAll(ks) == PrintAll(ks);
    }
  }

  // Stripping a well-formed file keeps every segment but APPn and COM, byte
  // for byte and in order, and cuts it after the end of image.
  lemma StripPrinted(gs: seq<Segment>, fill: nat, trailer: seq<Byte>)
    ensures Stripped(Print(gs, fill, trailer)) == Print(Kept(gs), 0, [])
  {
    var eoi := [0xFF, 0xD9] + trailer;
    var data := Print(gs, fill, trailer);
    FillIsSkipped(fill, eoi);
    AllAreKeptOrDropped(gs, Fill(fill) + eoi);
    assert data[2..] == PrintAll(gs) + (Fill(fill) + eoi);
    assert Slice(data, 0, 2) == [0xFF, 0xD8];
    assert Segments(eoi) == Fill(0) + ([0xFF, 0xD9] + []);
  }

  // A segment on its own: APPn goes but for APP14, COM goes, and nothing else.
  lemma KeptOne(g: Segment)
    ensures Kept([g]) ==
            if g.marker == 0xFE || (0xE0 <= g.marker <= 0xEF && g.marker != 0xEE) then []
            else [Part(0, g.marker, g.payload, g.scan)]
  {
    assert [Bare(g)] + Kept([]) == [Bare(g)];
  }

  // And each one as if it were: what is kept of a file is kept part by part.
  lemma {:induction false} KeptOfBoth(gs: seq<Segment>, hs: seq<Segment>)
    ensures Kept(gs + hs) == Kept(gs) + Kept(hs)
    decreases |gs|
  {
    if gs == [] {
      assert gs + hs == hs;
    } else {
      KeptOfBoth(gs[1..], hs);
      FirstIsKept(gs);
      FirstIsKept(gs + hs);
      hide Kept, Bare, Drops;
      assert (gs + hs)[1..] == gs[1..] + hs;
    }
  }

  lemma FirstIsKept(gs: seq<Segment>)
    requires gs != []
    ensures Kept(gs) == (if Drops(gs[0].marker) then [] else [Bare(gs[0])]) + Kept(gs[1..])
  {
  }

  // So no stripped file has a segment of metadata.
  lemma {:induction false} NoMetadataIsLeft(gs: seq<Segment>, i: nat)
    requires i < |Kept(gs)|
    ensures var marker := Kept(gs)[i].marker; marker != 0xFE && (0xE0 <= marker <= 0xEF ==> marker == 0xEE)
    decreases |gs|
  {
    if Drops(gs[0].marker) {
      NoMetadataIsLeft(gs[1..], i);
    } else if i > 0 {
      NoMetadataIsLeft(gs[1..], i - 1);
    }
  }

  lemma {:induction false} KeptTwice(gs: seq<Segment>)
    ensures Kept(Kept(gs)) == Kept(gs)
    decreases |gs|
  {
    if gs != [] {
      KeptTwice(gs[1..]);
      if !Drops(gs[0].marker) {
        assert Kept(gs)[1..] == Kept(gs[1..]);
      }
    }
  }

  // A second pass changes nothing.
  lemma StripTwice(gs: seq<Segment>, fill: nat, trailer: seq<Byte>)
    ensures var once := Stripped(Print(gs, fill, trailer)); Stripped(once) == once
  {
    StripPrinted(gs, fill, trailer);
    StripPrinted(Kept(gs), 0, []);
    KeptTwice(gs);
  }

  // _strip_jpeg: an orientation other than upright goes back in as an EXIF
  // block of its own, straight after the start of image.
  function WithExif(body: seq<Byte>, payload: seq<Byte>): seq<Byte>
    requires |payload| + 2 < 0x1_0000
  {
    Slice(body, 0, 2) + [0xFF, 0xE1] + Big2(|payload| + 2) + payload + From(body, 2)
  }

  function ExifPayload(o: Byte): (p: seq<Byte>)
    ensures |p| == 32
  {
    Ascii("Exif") + [0, 0] + Exif.Block(o)
  }

  method StripJpeg(data: seq<Byte>, orientation: Byte) returns (out: seq<Byte>)
    ensures out == if orientation == 1 then Stripped(data) else WithExif(Stripped(data), ExifPayload(orientation))
  {
    out := StripSegments(data);
    if orientation != 1 {
      var payload := ExifPayload(orientation);
      out := Slice(out, 0, 2) + [0xFF, 0xE1] + Big2(|payload| + 2) + payload + From(out, 2);
    }
  }

  // For a well-formed file that is an APP1 segment of its own, the first one:
  // "Exif", two zeros, and the TIFF block.
  lemma OrientationIsPutBack(gs: seq<Segment>, fill: nat, trailer: seq<Byte>, o: Byte)
    ensures WithExif(Stripped(Print(gs, fill, trailer)), ExifPayload(o)) ==
            Print([Part(0, 0xE1, [0x45, 0x78, 0x69, 0x66, 0, 0] + Exif.Block(o), [])] + Kept(gs), 0, [])
  {
    StripPrinted(gs, fill, trailer);
    hide Exif.Block, Stripped, Print, Kept, WithExif;
    ExifIsPrinted(Kept(gs), ExifPayload(o));
    assert ExifPayload(o) == [0x45, 0x78, 0x69, 0x66, 0, 0] + Exif.Block(o);
  }

  // That block is the only metadata: without it the file is the stripped one.
  lemma ExifIsTheOnlyMetadata(gs: seq<Segment>, fill: nat, trailer: seq<Byte>, payload: seq<Byte>)
    requires |payload| + 2 < 0x1_0000
    ensures var body := Stripped(Print(gs, fill, trailer));
            Stripped(WithExif(body, payload)) == body
  {
    StripPrinted(gs, fill, trailer);
    KeptTwice(gs);
    ExifIsPrinted(Kept(gs), payload);
    var exif := Part(0, 0xE1, payload, []);
    StripPrinted([exif] + Kept(gs), 0, []);
    assert ([exif] + Kept(gs))[1..] == Kept(gs);
  }

  lemma ExifIsPrinted(ks: seq<Segment>, payload: seq<Byte>)
    requires |payload| + 2 < 0x1_0000
    ensures WithExif(Print(ks, 0, []), payload) == Print([Part(0, 0xE1, payload, [])] + ks, 0, [])
  {
    var exif: Segment := Part(0, 0xE1, payload, []);
    PrintKept(exif, ks);
    var block := [0xFF, 0xE1] + Big2(|payload| + 2) + payload;
    assert PrintBare(exif) == block;
    var all, tail := PrintAll(ks), Fill(0) + ([0xFF, 0xD9] + []);
    var body := Print(ks, 0, []);
    assert Print([exif] + ks, 0, []) == [0xFF, 0xD8] + (block + all + tail);
    hide PrintBare, PrintAll, Print, Fill, Big2;
    assert body[..2] == [0xFF, 0xD8] && body[2..] == all + tail;
    assert Slice(body, 0, 2) == body[..2] && From(body, 2) == body[2..];
    Spliced(body[..2], block, all, tail);
    Around([0xFF, 0xE1], Big2(|payload| + 2), payload, body);
  }

  lemma Spliced(start: seq<Byte>, block: seq<Byte>, all: seq<Byte>, tail: seq<Byte>)
    ensures start + (block + all + tail) == start + block + (all + tail)
  {
  }

  lemma Around(marker: seq<Byte>, length: seq<Byte>, payload: seq<Byte>, body: seq<Byte>)
    requires |body| >= 2
    ensures body[..2] + marker + length + payload + body[2..] == body[..2] + (marker + length + payload) + body[2..]
  {
  }

  // On any input the result is no longer than it.
  lemma {:induction false} SegmentsNeverLengthen(s: seq<Byte>)
    ensures |Segments(s)| <= |s|
    decreases |s|
  {
    if |s| >= 2 && s[0] == 0xFF && s[1] != 0xD9 {
      SegmentsNeverLengthen(if s[1] == 0xFF then s[1..] else s[SegmentLength(s)..]);
    }
  }

  // ── Any input ─────────────────────────────────────────────────────

  // The marker of the first segment kept of `s`, or of its end of image.
  function FirstKept(s: seq<Byte>): Option<Byte> {
    if |s| < 2 || s[0] != 0xFF then None
    else if s[1] == 0xFF then FirstKept(s[1..])
    else if s[1] == 0xD9 then Some(0xD9)
    else if Drops(s[1]) then FirstKept(s[SegmentLength(s)..])
    else Some(s[1])
  }

  // The two ways a kept segment is read otherwise by a second pass: its length
  // field is one and covers half of itself, or it is a scan and the next kept
  // marker is one that goes on with the scan.
  predicate ReadsAlike(s: seq<Byte>)
    requires |s| >= 2
  {
    var n := SegmentLength(s);
    if s[1] == 0xDA then
      var next := FirstKept(s[n..]);
      next.Some? ==> next.value != 0 && !Restarts(next.value)
    else n != 3 || |s| == 3
  }

  predicate AllReadAlike(s: seq<Byte>) {
    if |s| < 2 || s[0] != 0xFF || s[1] == 0xD9 then true
    else if s[1] == 0xFF then AllReadAlike(s[1..])
    else (Drops(s[1]) || ReadsAlike(s)) && AllReadAlike(s[SegmentLength(s)..])
  }

  // What is kept starts with the first kept marker.
  lemma {:induction false} KeptStartsWith(s: seq<Byte>)
    ensures FirstKept(s).None? ==> Segments(s) == []
    ensures FirstKept(s).Some? ==>
              |Segments(s)| >= 2 && Segments(s)[0] == 0xFF && Segments(s)[1] == FirstKept(s).value && Segments(s)[1] != 0xFF
    decreases |s|
  {
    if |s| >= 2 && s[0] == 0xFF && s[1] != 0xD9 {
      if s[1] == 0xFF {
        KeptStartsWith(s[1..]);
      } else {
        UnfoldSegment(s);
        KeptStartsWith(s[SegmentLength(s)..]);
        hide SegmentLength;
        if Drops(s[1]) {
          assert [] + Segments(s[SegmentLength(s)..]) == Segments(s[SegmentLength(s)..]);
        }
      }
    }
  }

  // The first kept marker, if there is one, ends a scan.
  predicate EndsScan(s: seq<Byte>) { FirstKept(s).Some? ==> FirstKept(s).value != 0 && !Restarts(FirstKept(s).value) }

  lemma {:induction false} FillReadsAlike(n: nat, rest: seq<Byte>)
    requires StartsMarker(rest) && AllReadAlike(rest) && EndsScan(rest)
    ensures AllReadAlike(Fill(n) + rest) && EndsScan(Fill(n) + rest)
    decreases n
  {
    var s := Fill(n) + rest;
    if n == 0 {
      assert s == rest;
    } else {
      FillReadsAlike(n - 1, rest);
      FillIsSkipped(n - 1, rest);
      assert s[1..] == Fill(n - 1) + rest;
    }
  }

  lemma BareReadsAlike(g: Segment, rest: seq<Byte>)
    requires StartsMarker(rest) && AllReadAlike(rest) && EndsScan(rest)
    ensures AllReadAlike(PrintBare(g) + rest) && EndsScan(PrintBare(g) + rest)
  {
    var s := PrintBare(g) + rest;
    BareLength(g, rest);
    assert |PrintBare(g)| >= 4 && s[|PrintBare(g)|..] == rest;
    hide SegmentLength, PrintBare;
  }

  // Every segment of a well-formed file reads alike.
  lemma {:induction false} PrintedReadsAlike(gs: seq<Segment>, rest: seq<Byte>)
    requires StartsMarker(rest) && AllReadAlike(rest) && EndsScan(rest)
    ensures AllReadAlike(PrintAll(gs) + rest) && EndsScan(PrintAll(gs) + rest)
    decreases |gs|
  {
    hide AllReadAlike, EndsScan, StartsMarker;
    if gs == [] {
      assert PrintAll(gs) + rest == rest;
    } else {
      var g, tail := gs[0], PrintAll(gs[1..]) + rest;
      PrintedReadsAlike(gs[1..], rest);
      AllAreKeptOrDropped(gs[1..], rest);
      BareReadsAlike(g, tail);
      SegmentIsKeptOrDropped(g, tail);
      FillReadsAlike(g.fill, PrintBare(g) + tail);
      hide AllReadAlike, EndsScan, StartsMarker, PrintBare, Fill;
      Associates(Fill(g.fill) + PrintBare(g), PrintAll(gs[1..]), rest);
      Associates(Fill(g.fill), PrintBare(g), tail);
    }
  }

  lemma WellFormedReadsAlike(gs: seq<Segment>, fill: nat, trailer: seq<Byte>)
    ensures AllReadAlike(Print(gs, fill, trailer)[2..])
  {
    var eoi := [0xFF, 0xD9] + trailer;
    FillReadsAlike(fill, eoi);
    FillIsSkipped(fill, eoi);
    PrintedReadsAlike(gs, Fill(fill) + eoi);
    assert Print(gs, fill, trailer)[2..] == PrintAll(gs) + (Fill(fill) + eoi);
  }

  lemma PlainByte(b: Byte, rest: seq<Byte>)
    requires b != 0xFF
    ensures EntropyLength([b] + rest) == 1 + EntropyLength(rest)
  {
    assert ([b] + rest)[1..] == rest;
  }

  lemma StuffedByte(b: Byte, rest: seq<Byte>)
    requires b == 0 || Restarts(b)
    ensures EntropyLength([0xFF, b] + rest) == 2 + EntropyLength(rest)
  {
    assert ([0xFF, b] + rest)[2..] == rest;
  }

  // Scan data end at the next marker that is none of theirs.
  lemma {:induction false} EntropyOf(s: seq<Byte>, rest: seq<Byte>)
    requires rest == [] || (|rest| >= 2 && rest[0] == 0xFF && rest[1] != 0 && !Restarts(rest[1]))
    requires EntropyLength(s) < |s| || rest == []
    ensures EntropyLength(s[..EntropyLength(s)] + rest) == EntropyLength(s)
    decreases |s|
  {
    var n := EntropyLength(s);
    if n == 0 {
      assert s[..0] + rest == rest;
    } else if |s| < 2 {
      assert s[..n] + rest == s;
    } else {
      var k := if s[0] == 0xFF then 2 else 1;
      assert n == k + EntropyLength(s[k..]);
      hide EntropyLength;
      EntropyOf(s[k..], rest);
      var u := s[k..][..n - k] + rest;
      Regrouped(s, k, n, rest);
      if k == 2 {
        StuffedByte(s[1], u);
        assert s[..2] == [0xFF, s[1]];
      } else {
        PlainByte(s[0], u);
        assert s[..1] == [s[0]];
      }
    }
  }

  lemma Regrouped(s: seq<Byte>, k: nat, n: nat, rest: seq<Byte>)
    requires k <= n <= |s|
    ensures s[..n] + rest == s[..k] + (s[k..][..n - k] + rest)
  {
  }

  lemma TwoBytes(a: Byte, b: Byte)
    ensures BigEndian([a, b]) == 256 * a as int + b
  {
    Big2Bytes([a, b]);
  }

  // A length field of zero, or one cut short, ends the walk after it.
  lemma ShortSegment(s: seq<Byte>)
    requires |s| >= 2 && s[0] == 0xFF && s[1] != 0xFF && s[1] != 0xD9 && ReadsAlike(s)
    requires SegmentLength(s) < 4 && SegmentLength(s) < |s|
    ensures SegmentLength(s) == 2 && s[1] != 0xDA && Segments(s[2..]) == []
  {
    if |s| == 3 {
      assert Slice(s, 2, 4) == [s[2]] && [s[2]][..0] == [] && BigEndian([s[2]]) == s[2];
    } else {
      TwoBytes(s[2], s[3]);
      assert Slice(s, 2, 4) == [s[2], s[3]];
      hide BigEndian, Slice;
      var v := 256 * s[2] as int + s[3];
      if s[1] == 0xDA && v <= 1 {
        assert s[2..][1..] == s[3..] && EntropyLength(s[3..]) >= 1;
      }
    }
  }

  // A segment kept with what is kept after it is read as it was.
  lemma SegmentAgain(s: seq<Byte>)
    requires |s| >= 2 && s[0] == 0xFF && s[1] != 0xFF && s[1] != 0xD9 && ReadsAlike(s)
    ensures var n := SegmentLength(s);
            var t := s[..n] + Segments(s[n..]);
            t[0] == 0xFF && t[1] == s[1] && SegmentLength(t) == n && t[..n] == s[..n] && t[n..] == Segments(s[n..])
  {
    var n := SegmentLength(s);
    var rest := Segments(s[n..]);
    var t := s[..n] + rest;
    assert t[..n] == s[..n] && t[n..] == rest;
    if n == |s| {
      assert s[n..] == [] && s[..n] == s && t == s;
    } else if n < 4 {
      ShortSegment(s);
      assert t == s[..2] && Slice(t, 2, 4) == [];
    } else {
      SliceOfPrefix(s, n, rest, 2, 4);
      var header := 2 + BigEndian(Slice(s, 2, 4));
      if s[1] == 0xDA {
        KeptStartsWith(s[n..]);
        EntropyOf(s[header..], rest);
        assert t[header..] == s[header..][..n - header] + rest;
      }
    }
  }

  lemma {:induction false} SegmentsTwice(s: seq<Byte>)
    requires AllReadAlike(s)
    ensures Segments(Segments(s)) == Segments(s)
    decreases |s|
  {
    if |s| >= 2 && s[0] == 0xFF && s[1] != 0xD9 {
      if s[1] == 0xFF {
        SegmentsTwice(s[1..]);
      } else {
        var n := SegmentLength(s);
        SegmentsTwice(s[n..]);
        UnfoldSegment(s);
        if Drops(s[1]) {
          assert [] + Segments(s[n..]) == Segments(s[n..]);
        } else {
          SegmentAgain(s);
          UnfoldSegment(s[..n] + Segments(s[n..]));
          hide *;
        }
      }
    }
  }

  // On any input whose kept segments read alike, a second pass changes nothing.
  lemma StripTwiceWhereAlike(data: seq<Byte>)
    requires |data| >= 2 && AllReadAlike(data[2..])
    ensures Stripped(Stripped(data)) == Stripped(data)
  {
    SegmentsTwice(data[2..]);
    if Slice(data, 0, 2) == [0xFF, 0xD8] {
      var once := [0xFF, 0xD8] + Segments(data[2..]);
      assert Slice(once, 0, 2) == [0xFF, 0xD8] && once[2..] == Segments(data[2..]);
    }
  }

  lemma LengthIs(s: seq<Byte>, n: nat)
    requires 4 <= n <= |s| && 256 * s[2] as int + s[3] + 2 == if s[1] == 0xDA then 4 else n
    requires s[1] == 0xDA ==> EntropyLength(s[4..]) == n - 4
    ensures SegmentLength(s) == n
  {
    TwoBytes(s[2], s[3]);
    assert Slice(s, 2, 4) == [s[2], s[3]];
    hide BigEndian, Slice, EntropyLength;
  }

  // The first segment of `s`, of this length, and the rest.
  lemma Step(s: seq<Byte>, n: nat)
    requires 4 <= n <= |s| && s[0] == 0xFF && s[1] != 0xFF && s[1] != 0xD9
    requires 256 * s[2] as int + s[3] + 2 == if s[1] == 0xDA then 4 else n
    requires s[1] == 0xDA ==> EntropyLength(s[4..]) == n - 4
    ensures Segments(s) == (if Drops(s[1]) then [] else s[..n]) + Segments(s[n..])
  {
    LengthIs(s, n);
    UnfoldSegment(s);
    hide *;
  }

  lemma EndOfImage()
    ensures Segments([0xFF, 0xD9]) == [0xFF, 0xD9]
  {
  }

  // A segment whose payload reads as a segment to drop, and the end of image.
  function Inner(): seq<Byte> { [0xFF, 0, 0, 6, 0xFF, 0xE1, 0, 2, 0xFF, 0xD9] }

  function Scan(): seq<Byte> { [0xFF, 0xDA, 0, 2, 1] }

  lemma InnerIsKept()
    ensures Segments(Inner()) == Inner()
  {
    EndOfImage();
    assert Inner()[8..] == [0xFF, 0xD9];
    Step(Inner(), 8);
    hide Segments;
    assert Inner()[..8] + [0xFF, 0xD9] == Inner();
  }

  // With a fill byte before it, the scan ends there...
  lemma FillEndsTheScan()
    ensures Segments(Scan() + ([0xFF] + Inner())) == Scan() + Inner()
  {
    InnerIsKept();
    var filled := [0xFF] + Inner();
    assert filled[1..] == Inner() && filled[0] == 0xFF && filled[1] == 0xFF;
    assert Segments(filled) == Inner();
    var s := Scan() + filled;
    PlainByte(1, filled);
    assert EntropyLength(filled) == 0;
    hide Segments, EntropyLength, Inner;
    assert s[4..] == [1] + filled && s[5..] == filled && s[..5] == Scan();
    Step(s, 5);
  }

  // ...and without it, it goes on into the segment, up to its payload.
  lemma TheScanGoesOn()
    ensures |Segments(Scan() + Inner())| < |Scan() + Inner()|
  {
    EndOfImage();
    var s := Scan() + Inner();
    var last: seq<Byte> := [0xFF, 0xE1, 0, 2, 0xFF, 0xD9];
    assert s[4..] == [1] + Inner() && s[9..] == last && last[4..] == [0xFF, 0xD9];
    ScanLength();
    hide EntropyLength, Segments;
    Step(s, 9);
    Step(last, 4);
  }

  lemma ScanLength()
    ensures EntropyLength([1] + Inner()) == 5
  {
    var a: seq<Byte> := [0xFF, 0xE1, 0, 2, 0xFF, 0xD9];
    assert EntropyLength(a) == 0;
    hide EntropyLength;
    PlainByte(6, a);
    PlainByte(0, [6] + a);
    StuffedByte(0, [0] + ([6] + a));
    PlainByte(1, Inner());
    assert Inner() == [0xFF, 0] + ([0] + ([6] + a));
  }

  // A second pass that changes something: the fill byte after a scan is
  // dropped, and the scan goes on.
  lemma AScanGoesOn()
    ensures var data := [0xFF, 0xD8] + (Scan() + ([0xFF] + Inner()));
            |Stripped(Stripped(data))| < |Stripped(data)|
  {
    FillEndsTheScan();
    TheScanGoesOn();
    AfterStart(Scan() + ([0xFF] + Inner()));
    AfterStart(Scan() + Inner());
  }

  lemma AfterStart(s: seq<Byte>)
    ensures Stripped([0xFF, 0xD8] + s) == [0xFF, 0xD8] + Segments(s)
  {
    var data := [0xFF, 0xD8] + s;
    assert Slice(data, 0, 2) == [0xFF, 0xD8] && data[2..] == s;
  }

  // And another: a length of one makes three bytes a segment, of which a second
  // pass takes two.
  lemma ALengthOfOne()
    ensures var data: seq<Byte> := [0xFF, 0xD8] + [0xFF, 0xC0, 0, 1];
            |Stripped(Stripped(data))| < |Stripped(data)|
  {
    var s: seq<Byte> := [0xFF, 0xC0, 0, 1];
    var t: seq<Byte> := [0xFF, 0xC0, 0];
    TwoBytes(0, 1);
    assert Slice(s, 2, 4) == [0, 1] && s[3..] == [1] && s[..3] == t;
    assert Slice(t, 2, 4) == [0] && BigEndian([0]) == 0 && t[2..] == [0];
    assert SegmentLength(s) == 3 && SegmentLength(t) == 2;
    UnfoldSegment(s);
    UnfoldSegment(t);
    assert Segments([1]) == [] && Segments([0]) == [];
    assert Segments(s) == t && |Segments(t)| == 2;
    AfterStart(s);
    AfterStart(t);
    hide BigEndian, SegmentLength, Segments, Stripped;
  }
}
