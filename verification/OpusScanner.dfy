/** The duration scan over Ogg pages of `getOpusDuration`.

    The scanner reads a fixed page header at the current offset. Without the capture
    pattern it moves one byte on; with it, it takes the granule position and skips the
    segment table and the body. Pages are those of section 6 of RFC 3533; granule
    positions count samples at 48 kHz, section 4 of RFC 7845. */
module OpusScanner {
  import opened Numbers
  import opened Options

  const HEADER := 27
  const SAMPLE_RATE := 48000.0
  const CAPTURE: seq<Byte> := [79, 103, 103, 83] // "OggS"

  // Little-endian integers

  function Little(n: nat, width: nat): (r: seq<Byte>)
    ensures |r| == width
  {
    if width == 0 then [] else [n % 256] + Little(n / 256, width - 1)
  }

  function Value(bytes: seq<Byte>): nat {
    if bytes == [] then 0 else bytes[0] + 256 * Value(bytes[1..])
  }

  function Pow256(n: nat): nat {
    if n == 0 then 1 else 256 * Pow256(n - 1)
  }

  lemma {:induction false} ValueLittle(n: nat, width: nat)
    requires n < Pow256(width)
    ensures Value(Little(n, width)) == n
  {
    if width > 0 {
      assert n / 256 < Pow256(width - 1);
      ValueLittle(n / 256, width - 1);
      assert Little(n, width)[1..] == Little(n / 256, width - 1);
    }
  }

  lemma Pow256Of8()
    ensures Pow256(8) == TWO_64
  {
    assert Pow256(4) == 0x1_0000_0000;
  }

  /** The conversion of an unsigned to a signed 64-bit integer. */
  function Signed(n: nat): (r: int) {
    if n % TWO_64 < TWO_63 then n % TWO_64 else n % TWO_64 - TWO_64
  }

  function Unsigned(x: Int64): (r: nat)
    ensures r < TWO_64 && Signed(r) == x
  {
    if x < 0 then x + TWO_64 else x
  }

  // Pages

  /** `rest` is the serial number, the sequence number and the checksum. */
  datatype Page = Page(version: Byte, flags: Byte, granule: Int64, rest: seq<Byte>, table: seq<Byte>, body: seq<Byte>)

  predicate ValidPage(p: Page) {
    |p.rest| == 12 && |p.table| < 256 && |p.body| == Sum(p.table)
  }

  function Sum(bytes: seq<Byte>): nat {
    if bytes == [] then 0 else bytes[0] + Sum(bytes[1..])
  }

  function Header(p: Page): (r: seq<Byte>)
    requires ValidPage(p)
    ensures |r| == HEADER
  {
    CAPTURE + [p.version, p.flags] + Little(Unsigned(p.granule), 8) + p.rest + [|p.table|]
  }

  function Encode(p: Page): seq<Byte>
    requires ValidPage(p)
  {
    Header(p) + p.table + p.body
  }

  // The scan

  predicate Captured(s: seq<Byte>) {
    |s| >= 4 && s[..4] == CAPTURE
  }

  function GranuleAt(s: seq<Byte>): int
    requires |s| >= HEADER
  {
    Signed(Value(s[6..14]))
  }

  function Max(a: int, b: int): int {
    if b > a then b else a
  }

  /** The largest granule position found from here on, `best` so far. */
  function Scan(s: seq<Byte>, best: int): int
    decreases |s|
  {
    if |s| < HEADER then best
    else if !Captured(s) then Scan(s[1..], best)
    else
      var found := Max(best, GranuleAt(s));
      var bodyAt := HEADER + s[26];
      if |s| < bodyAt then found
      else
        var next := bodyAt + Sum(s[HEADER..bodyAt]);
        if next > |s| then found else Scan(s[next..], found)
  }

  /** The scan from an offset, which a skipped page can leave beyond the end. */
  function ScanAt(file: seq<Byte>, at: nat, best: int): int {
    if at > |file| then best else Scan(file[at..], best)
  }

  lemma ScanAtEnd(file: seq<Byte>, at: nat, best: int)
    requires at + HEADER > |file|
    ensures ScanAt(file, at, best) == best
  {
  }

  lemma ScanJunkAt(file: seq<Byte>, at: nat, best: int)
    requires at + HEADER <= |file| && file[at..at + 4] != CAPTURE
    ensures ScanAt(file, at, best) == ScanAt(file, at + 1, best)
  {
    var s := file[at..];
    assert s[..4] == file[at..at + 4];
    assert s[1..] == file[at + 1..];
  }

  lemma ScanPageAt(file: seq<Byte>, at: nat, best: int)
    requires at + HEADER <= |file| && file[at..at + 4] == CAPTURE
    ensures
      var found := Max(best, Signed(Value(file[at + 6..at + 14])));
      var bodyAt := at + HEADER + file[at + 26];
      ScanAt(file, at, best) ==
        if bodyAt > |file| then found else ScanAt(file, bodyAt + Sum(file[at + HEADER..bodyAt]), found)
  {
    var s := file[at..];
    assert s[..4] == file[at..at + 4] && s[6..14] == file[at + 6..at + 14];
    var bodyAt := at + HEADER + file[at + 26];
    if bodyAt <= |file| {
      assert s[HEADER..bodyAt - at] == file[at + HEADER..bodyAt];
      var next := bodyAt + Sum(file[at + HEADER..bodyAt]);
      if next <= |file| {
        assert s[next - at..] == file[next..];
      }
    }
  }

  method PageSize(table: seq<Byte>) returns (size: nat)
    ensures size == Sum(table)
  {
    size := 0;
    for i := 0 to |table|
      invariant size + Sum(table[i..]) == Sum(table)
    {
      assert table[i..][1..] == table[i + 1..];
      size := size + table[i];
    }
  }

  ghost predicate HasGranule(s: seq<Byte>, r: int) {
    exists at :: 0 <= at <= |s| - HEADER && Captured(s[at..]) && r == GranuleAt(s[at..])
  }

  lemma Shifted(s: seq<Byte>, k: nat, r: int)
    requires k <= |s| && HasGranule(s[k..], r)
    ensures HasGranule(s, r)
  {
    var at :| 0 <= at <= |s| - k - HEADER && Captured(s[k..][at..]) && r == GranuleAt(s[k..][at..]);
    assert s[k..][at..] == s[k + at..];
  }

  lemma FirstGranule(s: seq<Byte>)
    requires |s| >= HEADER && Captured(s)
    ensures HasGranule(s, GranuleAt(s))
  {
    assert s[0..] == s;
  }

  /** On any bytes at all the answer is the start value or the granule position of some
      captured header. */
  lemma {:induction false} ScanIsSound(s: seq<Byte>, best: int)
    ensures Scan(s, best) >= best
    ensures Scan(s, best) == best || HasGranule(s, Scan(s, best))
    decreases |s|
  {
    hide HasGranule;
    var r := Scan(s, best);
    if |s| >= HEADER {
      if !Captured(s) {
        ScanIsSound(s[1..], best);
        if r != best { Shifted(s, 1, r); }
      } else {
        FirstGranule(s);
        var found := Max(best, GranuleAt(s));
        var bodyAt := HEADER + s[26];
        if |s| >= bodyAt {
          var next := bodyAt + Sum(s[HEADER..bodyAt]);
          if next <= |s| {
            ScanIsSound(s[next..], found);
            if r != found { Shifted(s, next, r); }
          }
        }
      }
    }
  }

  /** What goes wrong in a turn of the loop: reading the header fails or comes short, or the
      segment table or the next offset cannot be reached. */
  datatype Fault = Works | HeaderFails | HeaderShort | TableFails | SeekFails

  lemma GranuleFound(file: seq<Byte>, at: nat)
    requires at + HEADER <= |file| && file[at..at + 4] == CAPTURE
    ensures HasGranule(file, Signed(Value(file[at + 6..at + 14])))
  {
    var s := file[at..];
    assert s[..4] == file[at..at + 4] && s[6..14] == file[at + 6..at + 14];
    assert Captured(file[at..]);
  }

  lemma ScanAtGrows(file: seq<Byte>, at: nat, best: int)
    ensures ScanAt(file, at, best) >= best
  {
    if at <= |file| {
      ScanIsSound(file[at..], best);
    }
  }

  /** A captured page: its granule position, and the next offset unless the loop ends. */
  method TakePage(file: seq<Byte>, at: nat, total: int, fault: Fault) returns (found: int, next: Option<nat>)
    requires at + HEADER <= |file| && file[at..at + 4] == CAPTURE
    ensures total <= found <= ScanAt(file, at, total) && (found == total || HasGranule(file, found))
    ensures next.Some? ==> next.value > at && ScanAt(file, next.value, found) == ScanAt(file, at, total)
    ensures next.None? && fault == Works ==> found == ScanAt(file, at, total)
  {
    ScanPageAt(file, at, total);
    GranuleFound(file, at);
    hide ScanAt, Scan, Value, Sum, Signed, HasGranule;
    found := total;
    var granule := Signed(Value(file[at + 6..at + 14]));
    if granule > found {
      found := granule;
    }
    var bodyAt := at + HEADER + file[at + 26];
    if bodyAt > |file| {
      return found, None;
    }
    var size := PageSize(file[at + HEADER..bodyAt]);
    ScanAtGrows(file, bodyAt + size, found);
    if fault == TableFails || fault == SeekFails {
      return found, None;
    }
    next := Some(bodyAt + size);
  }

  /** The loop terminates on every byte string. Without faults it finds what the scan
      finds; otherwise at most that, still the granule position of a captured header or 0,
      and an error only if a header could not be read. */
  method GetOpusDuration(file: seq<Byte>, faults: nat -> Fault) returns (ok: bool, total: int, duration: real)
    ensures duration == if ok then total as real / SAMPLE_RATE else 0.0
    ensures (forall n :: faults(n) == Works) ==> ok && total == Scan(file, 0)
    ensures 0 <= total <= Scan(file, 0) && (total == 0 || HasGranule(file, total))
    ensures !ok ==> exists n :: faults(n) == HeaderFails
  {
    var at, n, done := 0, 0, false;
    ok, total := true, 0;
    assert file[0..] == file;
    ScanAtGrows(file, 0, 0);
    assert ScanAt(file, at, total) == Scan(file, 0);
    hide ScanAt, Scan, HasGranule;
    while !done && at + HEADER <= |file| && faults(n) != HeaderFails && faults(n) != HeaderShort
      invariant 0 <= total <= Scan(file, 0) && (total == 0 || HasGranule(file, total))
      invariant !done ==> ScanAt(file, at, total) == Scan(file, 0)
      invariant done ==> total == Scan(file, 0) || exists m :: faults(m) != Works
      invariant done ==> faults(n) != HeaderFails
      decreases !done, |file| - at
    {
      if file[at..at + 4] != CAPTURE {
        ScanJunkAt(file, at, total);
        if faults(n) == SeekFails {
          done := true;
        } else {
          at, n := at + 1, n + 1;
        }
      } else {
        var next;
        total, next := TakePage(file, at, total, faults(n));
        if next.None? {
          done := true;
        } else {
          at, n := next.value, n + 1;
        }
      }
    }
    if !done && at + HEADER > |file| {
      ScanAtEnd(file, at, total);
    }
    ok := faults(n) != HeaderFails;
    duration := if ok then total as real / SAMPLE_RATE else 0.0;
  }

  // Streams

  /** A page after some bytes without the capture pattern, such as lost synchronisation. */
  datatype Piece = Piece(junk: seq<Byte>, page: Page)

  predicate NoCapture(s: seq<Byte>) {
    forall i :: 0 <= i <= |s| ==> !Captured(s[i..])
  }

  predicate ValidStream(pieces: seq<Piece>, tail: seq<Byte>) {
    NoCapture(tail) && forall i :: 0 <= i < |pieces| ==> NoCapture(pieces[i].junk) && ValidPage(pieces[i].page)
  }

  function Bytes(pieces: seq<Piece>, tail: seq<Byte>): seq<Byte>
    requires ValidStream(pieces, tail)
  {
    if pieces == [] then tail
    else pieces[0].junk + (Encode(pieces[0].page) + Bytes(pieces[1..], tail))
  }

  /** The largest granule position of the pages whose header lies in the first `n` bytes. */
  function Largest(pieces: seq<Piece>, n: int, best: int): int
    requires ValidStream(pieces, [])
  {
    if pieces == [] || |pieces[0].junk| + HEADER > n then best
    else Largest(pieces[1..], n - |pieces[0].junk| - |Encode(pieces[0].page)|, Max(best, pieces[0].page.granule))
  }

  lemma NoCaptureTail(s: seq<Byte>)
    requires NoCapture(s) && s != []
    ensures NoCapture(s[1..])
  {
    forall i | 0 <= i <= |s| - 1 ensures !Captured(s[1..][i..]) {
      assert s[1..][i..] == s[i + 1..];
    }
  }

  /** The pattern does not overlap itself, so none starts in the junk and ends in the page. */
  lemma NoStraddle(junk: seq<Byte>, rest: seq<Byte>)
    requires NoCapture(junk) && junk != []
    requires rest == [] || rest[0] == CAPTURE[0]
    ensures !Captured(junk + rest)
  {
    assert junk[0..] == junk;
    if |junk| >= 4 {
      assert (junk + rest)[..4] == junk[..4];
    } else if |junk + rest| >= 4 {
      assert (junk + rest)[..4][|junk|] == rest[0];
    }
  }

  lemma {:induction false} SkipJunk(junk: seq<Byte>, rest: seq<Byte>, best: int)
    requires NoCapture(junk)
    requires rest == [] || rest[0] == CAPTURE[0]
    ensures Scan(junk + rest, best) == Scan(rest, best)
  {
    if junk == [] {
      assert junk + rest == rest;
    } else {
      NoStraddle(junk, rest);
      NoCaptureTail(junk);
      assert (junk + rest)[1..] == junk[1..] + rest;
      SkipJunk(junk[1..], rest, best);
    }
  }

  /** A short prefix of a page is too short to be read. */
  lemma CutBeforeHeader(junk: seq<Byte>, page: seq<Byte>, n: nat, best: int)
    requires NoCapture(junk) && |page| >= HEADER && page[0] == CAPTURE[0]
    requires n <= |junk + page| && n < |junk| + HEADER
    ensures Scan((junk + page)[..n], best) == best
  {
    if n < |junk| {
      NoCapturePrefix(junk, n);
      SkipJunk(junk[..n], [], best);
      assert (junk + page)[..n] == junk[..n] + [];
    } else {
      var rest := page[..n - |junk|];
      SkipJunk(junk, rest, best);
      assert (junk + page)[..n] == junk + rest;
    }
  }

  lemma NoCapturePrefix(s: seq<Byte>, n: nat)
    requires NoCapture(s) && n <= |s|
    ensures NoCapture(s[..n])
  {
    forall i | 0 <= i <= n ensures !Captured(s[..n][i..]) {
      if i + 4 <= n {
        assert s[..n][i..][..4] == s[i..][..4];
      }
    }
  }

  /** The fields of a header are read back from any bytes that begin with it. */
  lemma ReadHeader(p: Page, s: seq<Byte>)
    requires ValidPage(p) && |s| >= HEADER && s[..HEADER] == Header(p)
    ensures Captured(s) && GranuleAt(s) == p.granule && s[26] == |p.table|
  {
    var h := Header(p);
    assert s[..4] == h[..4] == CAPTURE;
    assert s[6..14] == h[6..14] == Little(Unsigned(p.granule), 8);
    Pow256Of8();
    ValueLittle(Unsigned(p.granule), 8);
    assert s[26] == h[26];
  }

  /** A page cut anywhere after its header still gives its granule position. */
  lemma ScanPage(p: Page, more: seq<Byte>, m: nat, best: int)
    requires ValidPage(p) && HEADER <= m <= |Encode(p) + more|
    ensures Scan((Encode(p) + more)[..m], best) ==
      if m < |Encode(p)| then Max(best, p.granule)
      else Scan(more[..m - |Encode(p)|], Max(best, p.granule))
  {
    var whole := Encode(p) + more;
    assert Encode(p) + more == Header(p) + (p.table + (p.body + more));
    ScanParts(p, Header(p), p.table, p.body, more, whole, m, best);
  }

  lemma ScanParts(p: Page, header: seq<Byte>, table: seq<Byte>, body: seq<Byte>, more: seq<Byte>,
                  whole: seq<Byte>, m: nat, best: int)
    requires ValidPage(p) && header == Header(p) && table == p.table && |body| == Sum(table)
    requires whole == header + (table + (body + more)) && HEADER <= m <= |whole|
    ensures Scan(whole[..m], best) ==
      var size := HEADER + |table| + |body|;
      if m < size then Max(best, p.granule) else Scan(more[..m - size], Max(best, p.granule))
  {
    hide Header, Value, Signed, Sum, ValidPage, GranuleAt, Captured, Max, Scan;
    var s, size := whole[..m], HEADER + |table| + |body|;
    PartsOfPrefix(header, table, body, more, whole, m);
    ReadHeader(p, s);
    ScanCaptured(s, best, table, if m < size then [] else more[..m - size]);
  }

  lemma ScanCaptured(s: seq<Byte>, best: int, table: seq<Byte>, rest: seq<Byte>)
    requires |s| >= HEADER && Captured(s) && s[26] == |table|
    requires |s| >= HEADER + |table| ==> s[HEADER..HEADER + |table|] == table
    requires var next := HEADER + |table| + Sum(table); |s| >= next ==> s[next..] == rest
    ensures Scan(s, best) ==
      var found := Max(best, GranuleAt(s));
      if |s| < HEADER + |table| + Sum(table) then found else Scan(rest, found)
  {
    hide Captured, GranuleAt, Max, Sum;
  }

  lemma PartsOfPrefix(header: seq<Byte>, table: seq<Byte>, body: seq<Byte>, more: seq<Byte>, whole: seq<Byte>, m: nat)
    requires |header| == HEADER && whole == header + (table + (body + more)) && HEADER <= m <= |whole|
    ensures whole[..m][..HEADER] == header
    ensures m >= HEADER + |table| ==> whole[..m][HEADER..HEADER + |table|] == table
    ensures var size := HEADER + |table| + |body|; m >= size ==> whole[..m][size..] == more[..m - size]
  {
    var s, x := whole[..m], table + (body + more);
    Take(header, x, m);
    Split(header, x[..m - HEADER]);
    if m >= HEADER + |table| {
      var k := m - HEADER;
      Take(table, body + more, k);
      Split(table, (body + more)[..k - |table|]);
      Between(s, HEADER, |table|);
      if k >= |table| + |body| {
        Take(body, more, k - |table|);
        Split(body, more[..k - |table| - |body|]);
        Beyond(s, HEADER, |table|, |body|);
      }
    }
  }

  lemma Take<T>(a: seq<T>, b: seq<T>, m: nat)
    requires |a| <= m <= |a + b|
    ensures (a + b)[..m] == a + b[..m - |a|]
  {
  }

  lemma Split<T>(a: seq<T>, b: seq<T>)
    ensures (a + b)[..|a|] == a && (a + b)[|a|..] == b
  {
  }

  lemma Between<T>(s: seq<T>, i: nat, n: nat)
    requires i + n <= |s|
    ensures s[i..i + n] == s[i..][..n]
  {
  }

  lemma Beyond<T>(s: seq<T>, i: nat, j: nat, k: nat)
    requires i + j + k <= |s|
    ensures s[i + j + k..] == s[i..][j..][k..]
  {
  }

  /** Main theorem: on a stream of pages with junk between them, cut off after any number
      of bytes, the scan finds the largest granule position of the pages whose header is
      still there. */
  lemma {:induction false} ScanStream(pieces: seq<Piece>, tail: seq<Byte>, n: nat, best: int)
    requires ValidStream(pieces, tail) && n <= |Bytes(pieces, tail)|
    ensures Scan(Bytes(pieces, tail)[..n], best) == Largest(pieces, n, best)
  {
    if pieces == [] {
      NoCapturePrefix(tail, n);
      SkipJunk(tail[..n], [], best);
      assert tail[..n] + [] == tail[..n];
    } else {
      var junk, page := pieces[0].junk, pieces[0].page;
      var more := Bytes(pieces[1..], tail);
      var pages := Encode(page) + more;
      assert pages[0] == CAPTURE[0];
      var m := n - |junk|;
      if m >= |Encode(page)| {
        ScanStream(pieces[1..], tail, m - |Encode(page)|, Max(best, page.granule));
      } else {
        LargestOfNothing(pieces[1..], m - |Encode(page)|, Max(best, page.granule));
      }
      hide Scan, NoCapture, ValidPage, Encode, Max;
      if m < HEADER {
        CutBeforeHeader(junk, pages, n, best);
      } else {
        assert (junk + pages)[..n] == junk + pages[..m];
        SkipJunk(junk, pages[..m], best);
        ScanPage(page, more, m, best);
      }
    }
  }

  lemma LargestOfNothing(pieces: seq<Piece>, n: int, best: int)
    requires ValidStream(pieces, []) && n < 0
    ensures Largest(pieces, n, best) == best
  {
  }

  lemma {:induction false} LargestOfAll(pieces: seq<Piece>, tail: seq<Byte>, best: int)
    requires ValidStream(pieces, tail)
    ensures var r := Largest(pieces, |Bytes(pieces, tail)|, best);
      r >= best && (forall i :: 0 <= i < |pieces| ==> pieces[i].page.granule <= r) &&
      (r == best || exists i :: 0 <= i < |pieces| && pieces[i].page.granule == r)
  {
    if pieces != [] {
      var rest := pieces[1..];
      LargestOfAll(rest, tail, Max(best, pieces[0].page.granule));
      assert pieces == [pieces[0]] + rest;
    }
  }

  /** On a whole stream the scan finds the largest granule position; pages without a
      finished packet carry -1 and do not count. */
  lemma ScanWholeStream(pieces: seq<Piece>, tail: seq<Byte>)
    requires ValidStream(pieces, tail)
    ensures var r := Scan(Bytes(pieces, tail), 0);
      r >= 0 && (forall i :: 0 <= i < |pieces| ==> pieces[i].page.granule <= r) &&
      (r == 0 || exists i :: 0 <= i < |pieces| && pieces[i].page.granule == r)
  {
    var file := Bytes(pieces, tail);
    ScanStream(pieces, tail, |file|, 0);
    assert file[..|file|] == file;
    LargestOfAll(pieces, tail, 0);
  }
}
