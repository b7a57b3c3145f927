/** The page scanner that finds the length of an Opus recording.  It reads the page
    headers of an Ogg stream (section 6 of RFC 3533), skips the payloads, steps one
    byte at a time over anything that is not a page, and takes the largest granule
    position, in samples at 48 kHz (section 4 of RFC 7845), as the length. */
module OpusScanner {
  import opened Basics

  const HEADER := 27
  const TWO_TO_THE_63 := 0x8000_0000_0000_0000
  const TWO_TO_THE_64 := 0x1_0000_0000_0000_0000

  /** Little-endian value of the bytes. */
  function Unsigned(b: seq<byte>): nat {
    if b == [] then 0 else b[0] + 256 * Unsigned(b[1..])
  }

  /** The eight bytes as a signed 64-bit number. */
  function Signed(b: seq<byte>): int {
    if Unsigned(b) >= TWO_TO_THE_63 then Unsigned(b) - TWO_TO_THE_64 else Unsigned(b)
  }

  function Sum(table: seq<byte>): nat {
    if table == [] then 0 else table[0] + Sum(table[1..])
  }

  // ---------------------------------------------------- what the scanner visits

  datatype Hit = Hit(at: nat, granule: int)

  /** The four bytes "OggS". */
  predicate CaptureAt(data: seq<byte>, pos: nat) {
    && pos + 4 <= |data|
    && data[pos] == 0x4F && data[pos + 1] == 0x67 && data[pos + 2] == 0x67 && data[pos + 3] == 0x53
  }

  predicate PageAt(data: seq<byte>, pos: nat) {
    pos + HEADER <= |data| && CaptureAt(data, pos)
  }

  function GranuleAt(data: seq<byte>, pos: nat): int
    requires pos + HEADER <= |data|
  {
    Signed(data[pos + 6..pos + 14])
  }

  /** The position after the page at pos; one whose table is cut off reaches to the end. */
  function After(data: seq<byte>, pos: nat): (next: nat)
    requires pos + HEADER <= |data|
    ensures next >= pos + HEADER
  {
    var table, segments := pos + HEADER, data[pos + 26];
    if table + segments > |data| then |data| else table + segments + Sum(data[table..table + segments])
  }

  /** The pages visited from a position on. */
  function Scan(data: seq<byte>, pos: nat): (hits: seq<Hit>)
    decreases |data| - pos
  {
    if pos + HEADER > |data| then []
    else if CaptureAt(data, pos) then [Hit(pos, GranuleAt(data, pos))] + Scan(data, After(data, pos))
    else Scan(data, pos + 1)
  }

  function Best(hits: seq<Hit>): (g: int) {
    if hits == [] then 0
    else
      var n := |hits| - 1;
      if hits[n].granule > Best(hits[..n]) then hits[n].granule else Best(hits[..n])
  }

  /** The best is the maximum of zero and the granule positions. */
  lemma {:induction false} BestIsMaximum(hits: seq<Hit>)
    ensures Best(hits) >= 0 && (forall i :: 0 <= i < |hits| ==> hits[i].granule <= Best(hits))
    ensures Best(hits) == 0 || exists i :: 0 <= i < |hits| && hits[i].granule == Best(hits)
  {
    if hits != [] {
      var n := |hits| - 1;
      BestIsMaximum(hits[..n]);
      assert forall i :: 0 <= i < n ==> hits[..n][i] == hits[i];
      if Best(hits) == hits[n].granule {
      } else if Best(hits) != 0 {
        var i :| 0 <= i < n && hits[..n][i].granule == Best(hits[..n]);
        assert hits[i].granule == Best(hits);
      }
    }
  }

  // -------------------------------------------------------------- the scanner

  method AddUp(table: seq<byte>) returns (size: nat)
    ensures size == Sum(table)
  {
    size := 0;
    for i := 0 to |table|
      invariant size + Sum(table[i..]) == Sum(table)
    {
      assert table[i..][1..] == table[i + 1..];
      size := size + table[i];
    }
  }

  /** One read into the header buffer, short at the end of the data. */
  method ReadHeader(data: seq<byte>, pos: nat) returns (n: nat, capture: bool, granule: int, segments: byte)
    requires pos < |data|
    ensures n == if |data| - pos < HEADER then |data| - pos else HEADER
    ensures n == HEADER ==>
              capture == CaptureAt(data, pos) && granule == GranuleAt(data, pos) && segments == data[pos + 26]
  {
    n := if |data| - pos < HEADER then |data| - pos else HEADER;
    var buf := data[pos..pos + n];
    capture, granule, segments := false, 0, 0;
    if n == HEADER {
      capture := buf[0] == 0x4F && buf[1] == 0x67 && buf[2] == 0x67 && buf[3] == 0x53;
      SliceOfSlice(data, pos, pos + n, 6, 14);
      granule, segments := Signed(buf[6..14]), buf[26];
    }
  }

  lemma SliceOfSlice(s: seq<byte>, lo: nat, hi: nat, from: nat, to: nat)
    requires lo <= hi <= |s| && from <= to <= hi - lo
    ensures s[lo..hi][from..to] == s[lo + from..lo + to]
  {
    var cut := s[lo..hi];
    forall i | 0 <= i < to - from ensures cut[from..to][i] == s[lo + from..lo + to][i] {
      assert cut[from..to][i] == cut[from + i] == s[lo + (from + i)];
    }
  }

  lemma BestNext(seen: seq<Hit>, hit: Hit)
    ensures Best(seen + [hit]) == if hit.granule > Best(seen) then hit.granule else Best(seen)
  {
    assert (seen + [hit])[..|seen|] == seen;
  }

  /** The hits seen and the hits still to come make up all hits. */
  ghost predicate Halfway(data: seq<byte>, seen: seq<Hit>, pos: nat) {
    seen + Scan(data, pos) == Scan(data, 0)
  }

  lemma HalfwayPage(data: seq<byte>, seen: seq<Hit>, pos: nat)
    requires Halfway(data, seen, pos) && PageAt(data, pos)
    ensures Halfway(data, seen + [Hit(pos, GranuleAt(data, pos))], After(data, pos))
  {
    var hit, rest := Hit(pos, GranuleAt(data, pos)), Scan(data, After(data, pos));
    assert seen + ([hit] + rest) == (seen + [hit]) + rest;
  }

  /** Near the end there are no more hits. */
  lemma HalfwayDone(data: seq<byte>, seen: seq<Hit>, pos: nat)
    requires Halfway(data, seen, pos) && pos + HEADER > |data|
    ensures seen == Scan(data, 0)
  {
    assert seen + Scan(data, pos) == seen;
  }

  /** The loop over a seekable reader whose content is data: a read moves the position
      forward, a mismatch moves it 26 bytes back, a page moves it past its payload,
      possibly beyond the end.  It ends on every input. */
  method Duration(data: seq<byte>) returns (total: int, seconds: real)
    ensures total == Best(Scan(data, 0))
    ensures seconds == total as real / 48000.0
  {
    var pos: nat := 0;
    total := 0;
    ghost var seen: seq<Hit> := [];
    while true
      invariant total == Best(seen)
      invariant Halfway(data, seen, pos)
      decreases |data| - pos
    {
      if pos >= |data| { HalfwayDone(data, seen, pos); break; }
      var n, capture, granule, segments := ReadHeader(data, pos);
      if n < HEADER { HalfwayDone(data, seen, pos); break; }
      if !capture {
        pos := pos + n - 26;
        continue;
      }
      HalfwayPage(data, seen, pos);
      ghost var next := After(data, pos);
      BestNext(seen, Hit(pos, granule));
      seen := seen + [Hit(pos, granule)];
      if granule > total { total := granule; }
      pos := pos + n;
      if pos + segments > |data| { HalfwayDone(data, seen, |data|); break; }
      var size := AddUp(data[pos..pos + segments]);
      pos := pos + segments + size;
      assert pos == next;
    }
    seconds := total as real / 48000.0;
  }

  // ------------------------------------------------------ every byte sequence

  /** The hits are page headers with their granule positions. */
  ghost predicate TrueHits(data: seq<byte>, pos: nat, hits: seq<Hit>) {
    forall h :: h in hits ==> pos <= h.at && PageAt(data, h.at) && h.granule == GranuleAt(data, h.at)
  }

  /** The page of the first hit has ended where the second begins. */
  predicate Ends(data: seq<byte>, first: Hit, second: Hit) {
    PageAt(data, first.at) && After(data, first.at) <= second.at
  }

  /** No page is entered before the one in front of it has ended. */
  ghost predicate Apart(data: seq<byte>, hits: seq<Hit>) {
    forall i, j :: 0 <= i < j < |hits| ==> Ends(data, hits[i], hits[j])
  }

  lemma {:induction false} HitsAreSound(data: seq<byte>, pos: nat)
    ensures TrueHits(data, pos, Scan(data, pos)) && Apart(data, Scan(data, pos))
    decreases |data| - pos
  {
    if pos + HEADER <= |data| {
      if CaptureAt(data, pos) {
        var rest := Scan(data, After(data, pos));
        HitsAreSound(data, After(data, pos));
        PrependApart(data, Hit(pos, GranuleAt(data, pos)), rest);
      } else {
        HitsAreSound(data, pos + 1);
      }
    }
  }

  lemma PrependApart(data: seq<byte>, hit: Hit, rest: seq<Hit>)
    requires PageAt(data, hit.at) && TrueHits(data, After(data, hit.at), rest) && Apart(data, rest)
    ensures Apart(data, [hit] + rest)
  {
    var hits := [hit] + rest;
    assert forall k :: 0 < k < |hits| ==> hits[k] == rest[k - 1];
    forall i, j | 0 <= i < j < |hits| ensures Ends(data, hits[i], hits[j]) {
      if i == 0 {
        assert rest[j - 1] in rest;
      } else {
        assert Ends(data, rest[i - 1], rest[j - 1]);
      }
    }
  }

  predicate Reaches(data: seq<byte>, hit: Hit, q: nat) {
    PageAt(data, hit.at) && hit.at <= q < After(data, hit.at)
  }

  /** No page header is missed: one that is not visited lies inside a visited page. */
  lemma {:induction false} NoneMissed(data: seq<byte>, pos: nat, q: nat)
    requires pos <= q && PageAt(data, q)
    ensures exists hit :: hit in Scan(data, pos) && Reaches(data, hit, q)
    decreases |data| - pos
  {
    if CaptureAt(data, pos) {
      var next, hit := After(data, pos), Hit(pos, GranuleAt(data, pos));
      if q < next {
        assert hit in Scan(data, pos) && Reaches(data, hit, q);
      } else {
        NoneMissed(data, next, q);
        var found :| found in Scan(data, next) && Reaches(data, found, q);
        assert found in Scan(data, pos);
      }
    } else {
      NoneMissed(data, pos + 1, q);
    }
  }

  // --------------------------------------------------------- well-formed streams

  /** A page as section 6 of RFC 3533 lays it out. */
  datatype Page = Page(version: byte, flags: byte, granule: int, serial: seq<byte>, number: seq<byte>,
                       checksum: seq<byte>,
                       table: seq<byte>, payload: seq<byte>)

  predicate WellFormed(p: Page) {
    && -TWO_TO_THE_63 <= p.granule < TWO_TO_THE_63
    && |p.serial| == 4 && |p.number| == 4 && |p.checksum| == 4
    && |p.table| < 256 && |p.payload| == Sum(p.table)
  }

  function LittleEndian(k: nat, u: nat): (b: seq<byte>)
    ensures |b| == k
  {
    if k == 0 then [] else [u % 256] + LittleEndian(k - 1, u / 256)
  }

  function Pow256(k: nat): nat {
    if k == 0 then 1 else 256 * Pow256(k - 1)
  }

  lemma {:induction false} LittleEndianReads(k: nat, u: nat)
    requires u < Pow256(k)
    ensures Unsigned(LittleEndian(k, u)) == u
  {
    if k > 0 {
      LittleEndianReads(k - 1, u / 256);
      assert LittleEndian(k, u)[1..] == LittleEndian(k - 1, u / 256);
    }
  }

  lemma Pow256Of8()
    ensures Pow256(8) == TWO_TO_THE_64
  {
    assert Pow256(2) == 0x1_0000;
    assert Pow256(4) == 0x1_0000_0000;
    assert Pow256(6) == 0x1_0000_0000_0000;
  }

  function GranuleBytes(granule: int): (b: seq<byte>)
    requires -TWO_TO_THE_63 <= granule < TWO_TO_THE_63
    ensures |b| == 8
  {
    LittleEndian(8, if granule < 0 then granule + TWO_TO_THE_64 else granule)
  }

  /** A granule position, negative ones included, survives its eight bytes. */
  lemma GranuleReads(granule: int)
    requires -TWO_TO_THE_63 <= granule < TWO_TO_THE_63
    ensures Signed(GranuleBytes(granule)) == granule
  {
    Pow256Of8();
    LittleEndianReads(8, if granule < 0 then granule + TWO_TO_THE_64 else granule);
  }

  /** The part lies in the data at that position. */
  predicate Holds(data: seq<byte>, pos: nat, part: seq<byte>) {
    pos + |part| <= |data| && forall k :: 0 <= k < |part| ==> part[k] == data[pos + k]
  }

  function Size(p: Page): nat {
    HEADER + |p.table| + |p.payload|
  }

  predicate HoldsPage(data: seq<byte>, pos: nat, p: Page)
    requires WellFormed(p)
  {
    var table := pos + HEADER;
    var payload := table + |p.table|;
    && pos + Size(p) <= |data|
    && CaptureAt(data, pos)
    && data[pos + 4] == p.version && data[pos + 5] == p.flags
    && data[pos + 6..pos + 14] == GranuleBytes(p.granule)
    && data[pos + 14..pos + 18] == p.serial
    && data[pos + 18..pos + 22] == p.number
    && data[pos + 22..pos + 26] == p.checksum
    && data[pos + 26] == |p.table|
    && data[table..payload] == p.table
    && data[payload..pos + Size(p)] == p.payload
  }

  /** The capture pattern is the text "OggS". */
  lemma CaptureIsOggS(data: seq<byte>, pos: nat)
    ensures CaptureAt(data, pos)
       <==> pos + 4 <= |data| && forall k :: 0 <= k < 4 ==> data[pos + k] == "OggS"[k] as int
  {
    if pos + 4 <= |data| && forall k :: 0 <= k < 4 ==> data[pos + k] == "OggS"[k] as int {
      assert data[pos + 0] == "OggS"[0] as int && data[pos + 1] == "OggS"[1] as int;
      assert data[pos + 2] == "OggS"[2] as int && data[pos + 3] == "OggS"[3] as int;
    }
  }

  /** The length of a payload adds up over the entries of its table. */
  lemma {:induction false} SumAddsUp(a: seq<byte>, x: byte)
    ensures Sum([]) == 0 && Sum(a + [x]) == Sum(a) + x
  {
    if a == [] {
      assert a + [x] == [x] && [x][1..] == [];
    } else {
      assert (a + [x])[1..] == a[1..] + [x];
      SumAddsUp(a[1..], x);
    }
  }

  /** A page is visited with its granule position and left behind whole: its payload is
      never looked at. */
  lemma ScanPage(data: seq<byte>, pos: nat, p: Page)
    requires WellFormed(p) && HoldsPage(data, pos, p)
    ensures PageAt(data, pos)
    ensures Scan(data, pos) == [Hit(pos, p.granule)] + Scan(data, pos + Size(p))
  {
    GranuleReads(p.granule);
    assert After(data, pos) == pos + Size(p);
  }

  predicate NoCapture(junk: seq<byte>) {
    forall i :: 0 <= i < |junk| ==> !CaptureAt(junk, i)
  }

  /** The capture pattern does not overlap itself: it can not begin in junk without it and
      end in what follows, when that starts with the pattern. */
  lemma NoOverlap(data: seq<byte>, pos: nat, junk: seq<byte>, i: nat)
    requires NoCapture(junk) && Holds(data, pos, junk) && CaptureAt(data, pos + |junk|) && i < |junk|
    ensures !CaptureAt(data, pos + i)
  {
    if i + 4 <= |junk| { assert !CaptureAt(junk, i); }
  }

  /** Junk in front of a page is stepped over to exactly the page. */
  lemma {:induction false} ScanJunk(data: seq<byte>, pos: nat, junk: seq<byte>, i: nat)
    requires NoCapture(junk) && Holds(data, pos, junk) && PageAt(data, pos + |junk|) && i <= |junk|
    ensures Scan(data, pos + i) == Scan(data, pos + |junk|)
    decreases |junk| - i
  {
    if i < |junk| {
      NoOverlap(data, pos, junk, i);
      ScanJunk(data, pos, junk, i + 1);
    }
  }

  /** Bytes without the pattern at the end hold no page. */
  lemma {:induction false} ScanTail(data: seq<byte>, pos: nat, tail: seq<byte>, i: nat)
    requires NoCapture(tail) && Holds(data, pos, tail) && pos + |tail| == |data| && i <= |tail|
    ensures Scan(data, pos + i) == []
    decreases |tail| - i
  {
    if i + HEADER <= |tail| {
      assert !CaptureAt(tail, i);
      ScanTail(data, pos, tail, i + 1);
    }
  }

  /** A stream: pages, each with junk in front of it (the first, say, after foreign
      bytes; the others usually after none), and a tail. */
  datatype Piece = Piece(junk: seq<byte>, page: Page)

  predicate HoldsPiece(data: seq<byte>, pos: nat, piece: Piece) {
    && NoCapture(piece.junk) && WellFormed(piece.page)
    && Holds(data, pos, piece.junk) && HoldsPage(data, pos + |piece.junk|, piece.page)
  }

  function PieceSize(piece: Piece): nat {
    |piece.junk| + Size(piece.page)
  }

  lemma ScanPiece(data: seq<byte>, pos: nat, piece: Piece)
    requires HoldsPiece(data, pos, piece)
    ensures Scan(data, pos) == [HitOf(piece, pos)] + Scan(data, pos + PieceSize(piece))
  {
    ScanPage(data, pos + |piece.junk|, piece.page);
    ScanJunk(data, pos, piece.junk, 0);
  }

  /** From the position on there is no page: only the tail. */
  predicate HoldsTail(data: seq<byte>, pos: nat, tail: seq<byte>) {
    NoCapture(tail) && Holds(data, pos, tail) && pos + |tail| == |data|
  }

  /** Pieces one behind the other from the position on, and then the end. */
  predicate Sequence(holds: (nat, Piece) -> bool, ends: nat -> bool, pos: nat, pieces: seq<Piece>)
    decreases |pieces|
  {
    if pieces == [] then ends(pos)
    else holds(pos, pieces[0]) && Sequence(holds, ends, pos + PieceSize(pieces[0]), pieces[1..])
  }

  /** From the position on the data is the stream and nothing else. */
  predicate IsStream(data: seq<byte>, pos: nat, pieces: seq<Piece>, tail: seq<byte>) {
    Sequence((p: nat, piece) => HoldsPiece(data, p, piece), (p: nat) => HoldsTail(data, p, tail), pos, pieces)
  }

  /** The page of a piece, with its granule position. */
  function HitOf(piece: Piece, pos: nat): Hit {
    Hit(pos + |piece.junk|, piece.page.granule)
  }

  /** Where the pages of the stream start, with their granule positions. */
  function Starts(pieces: seq<Piece>, pos: nat): seq<Hit> {
    if pieces == [] then [] else [HitOf(pieces[0], pos)] + Starts(pieces[1..], pos + PieceSize(pieces[0]))
  }

  /** A visit that steps over every piece and stops at the end. */
  ghost predicate StepsOver(visit: nat -> seq<Hit>, holds: (nat, Piece) -> bool, ends: nat -> bool) {
    && (forall pos: nat, piece :: holds(pos, piece) ==>
          visit(pos) == [HitOf(piece, pos)] + visit(pos + PieceSize(piece)))
    && (forall pos: nat :: ends(pos) ==> visit(pos) == [])
  }

  lemma {:induction false} VisitsPieces(visit: nat -> seq<Hit>, holds: (nat, Piece) -> bool, ends: nat -> bool,
                                        pos: nat, pieces: seq<Piece>)
    requires StepsOver(visit, holds, ends) && Sequence(holds, ends, pos, pieces)
    ensures visit(pos) == Starts(pieces, pos)
    decreases |pieces|
  {
    if pieces != [] { VisitsPieces(visit, holds, ends, pos + PieceSize(pieces[0]), pieces[1..]); }
  }

  lemma ScanStepsOver(data: seq<byte>, tail: seq<byte>)
    ensures StepsOver((p: nat) => Scan(data, p), (p: nat, piece) => HoldsPiece(data, p, piece),
                      (p: nat) => HoldsTail(data, p, tail))
  {
    forall pos: nat, piece | HoldsPiece(data, pos, piece)
      ensures Scan(data, pos) == [HitOf(piece, pos)] + Scan(data, pos + PieceSize(piece))
    {
      ScanPiece(data, pos, piece);
    }
    forall pos: nat | HoldsTail(data, pos, tail) ensures Scan(data, pos) == [] {
      ScanTail(data, pos, tail, 0);
    }
  }

  /** The scanner visits exactly the page starts, whatever the payloads contain. */
  lemma VisitsExactlyThePages(data: seq<byte>, pos: nat, pieces: seq<Piece>, tail: seq<byte>)
    requires IsStream(data, pos, pieces, tail)
    ensures Scan(data, pos) == Starts(pieces, pos)
  {
    ScanStepsOver(data, tail);
    VisitsPieces((p: nat) => Scan(data, p), (p: nat, piece) => HoldsPiece(data, p, piece),
                 (p: nat) => HoldsTail(data, p, tail), pos, pieces);
  }

  lemma {:induction false} StartsHaveGranules(pieces: seq<Piece>, pos: nat)
    ensures |Starts(pieces, pos)| == |pieces|
    ensures forall i :: 0 <= i < |pieces| ==> Starts(pieces, pos)[i].granule == pieces[i].page.granule
  {
    if pieces != [] { StartsHaveGranules(pieces[1..], pos + PieceSize(pieces[0])); }
  }

  /** The length found in a stream: the maximum of zero and the pages' granule positions. */
  lemma StreamLength(data: seq<byte>, pieces: seq<Piece>, tail: seq<byte>)
    requires IsStream(data, 0, pieces, tail)
    ensures var total := Best(Scan(data, 0));
            && total >= 0 && (forall i :: 0 <= i < |pieces| ==> pieces[i].page.granule <= total)
            && (total == 0 || exists i :: 0 <= i < |pieces| && pieces[i].page.granule == total)
  {
    VisitsExactlyThePages(data, 0, pieces, tail);
    StartsHaveGranules(pieces, 0);
    var hits := Starts(pieces, 0);
    BestIsMaximum(hits);
    if Best(hits) != 0 {
      var i :| 0 <= i < |hits| && hits[i].granule == Best(hits);
      assert pieces[i].page.granule == Best(hits);
    }
  }
}
