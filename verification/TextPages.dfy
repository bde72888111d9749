/** The log viewer's line scans and windows over a fixed file. Offsets are bytes; the buffer,
    window and line sizes are parameters, so that every statement holds for any of them. */
module TextPages {
  import opened Basics

  // ----- counting newlines -----

  /** How many newlines there are in f[a..b]. */
  function Count(f: string, a: nat, b: nat): nat
    requires a <= b <= |f|
    decreases b
  {
    if a == b then 0 else Count(f, a, b - 1) + if f[b - 1] == '\n' then 1 else 0
  }

  lemma {:induction false} CountSplits(f: string, a: nat, b: nat, c: nat)
    requires a <= b <= c <= |f|
    ensures Count(f, a, c) == Count(f, a, b) + Count(f, b, c)
    decreases c
  {
    if b < c {
      CountSplits(f, a, b, c - 1);
    }
  }

  lemma {:induction false} CountNone(f: string, a: nat, b: nat)
    requires a <= b <= |f| && forall k :: a <= k < b ==> f[k] != '\n'
    ensures Count(f, a, b) == 0
    decreases b
  {
    if a < b {
      CountNone(f, a, b - 1);
    }
  }

  /** Counting in an appended file agrees on the old part. */
  lemma {:induction false} CountAppended(f: string, more: string, a: nat, b: nat)
    requires a <= b <= |f|
    ensures Count(f + more, a, b) == Count(f, a, b)
    decreases b
  {
    if a < b {
      CountAppended(f, more, a, b - 1);
    }
  }

  /** The first newline in f[i..end], or end. */
  function IndexNewline(f: string, i: nat, end: nat): (k: nat)
    requires i <= end <= |f|
    ensures i <= k <= end
    ensures k < end ==> f[k] == '\n'
    ensures forall j :: i <= j < k ==> f[j] != '\n'
    decreases end - i
  {
    if i == end || f[i] == '\n' then i else IndexNewline(f, i + 1, end)
  }

  function Min(a: int, b: int): int {
    if a <= b then a else b
  }

  function Max(a: int, b: int): int {
    if a >= b then a else b
  }

  /** Line n begins at offset p. */
  predicate StartsLine(f: string, p: nat, n: int) {
    p < |f| && (p == 0 || f[p - 1] == '\n') && Count(f, 0, p) == n - 1
  }

  /** The newline before q comes after p. */
  lemma StartsApart(f: string, p: nat, q: nat)
    requires p < q <= |f| && f[q - 1] == '\n'
    ensures Count(f, 0, p) < Count(f, 0, q)
  {
    CountSplits(f, 0, p, q);
  }

  // ----- reading one line -----

  function EndOfLine(f: string, p: nat): nat
    requires p <= |f|
  {
    IndexNewline(f, p, |f|)
  }

  function NextLine(f: string, p: nat): (q: nat)
    requires p <= |f|
    ensures p <= q <= |f| && (p < |f| ==> p < q)
  {
    if EndOfLine(f, p) < |f| then EndOfLine(f, p) + 1 else |f|
  }

  function TrimReturns(s: string): string {
    if s != "" && s[|s| - 1] == '\r' then TrimReturns(s[..|s| - 1]) else s
  }

  /** What is shown of the line from p: at most maxLine of its bytes, without carriage returns at the end. */
  function LineText(f: string, p: nat, maxLine: nat): string
    requires p <= |f|
  {
    TrimReturns(f[p..Min(EndOfLine(f, p), p + maxLine)])
  }

  datatype RawLine = RawLine(text: string, cut: nat, read: nat, ended: bool)

  /** The first n bytes from p, as far as they are kept. */
  function Kept(f: string, p: nat, n: nat, maxLine: nat): string
    requires p + n <= |f|
  {
    f[p..p + Min(n, maxLine)]
  }

  lemma KeepMore(f: string, p: nat, n: nat, more: nat, maxLine: nat)
    requires p + n + more <= |f|
    ensures var take := Min(more, Max(maxLine - Min(n, maxLine), 0));
      && Kept(f, p, n + more, maxLine) == Kept(f, p, n, maxLine) + f[p + n..p + n + take]
      && Min(n, maxLine) + take == Min(n + more, maxLine)
  {
  }

  /** What is kept of a line with its newline, without the newline. */
  lemma DropNewline(f: string, p: nat, maxLine: nat)
    requires p <= |f| && EndOfLine(f, p) < |f|
    ensures var e := EndOfLine(f, p); var text := Kept(f, p, e + 1 - p, maxLine);
      && (if text != "" && text[|text| - 1] == '\n' then text[..|text| - 1] else text) == Kept(f, p, e - p, maxLine)
  {
  }

  lemma KeptIsText(f: string, p: nat, maxLine: nat)
    requires p <= |f|
    ensures TrimReturns(Kept(f, p, EndOfLine(f, p) - p, maxLine)) == LineText(f, p, maxLine)
  {
  }

  /** A further part of the line: what fits is kept, the rest is cut. */
  method TakePart(f: string, p: nat, read: nat, part: nat, maxLine: nat, text: string, cut: nat)
    returns (longer: string, more: nat)
    requires p + read + part <= |f| && text == Kept(f, p, read, maxLine) && cut == read - |text|
    ensures longer == Kept(f, p, read + part, maxLine) && more == read + part - |longer|
  {
    hide Kept;
    KeepMore(f, p, read, part, maxLine);
    KeptLength(f, p, read, maxLine);
    KeptLength(f, p, read + part, maxLine);
    var at := p + read;
    var take := Min(part, Max(maxLine - |text|, 0));
    return text + f[at..at + take], cut + part - take;
  }

  lemma KeptLength(f: string, p: nat, n: nat, maxLine: nat)
    requires p + n <= |f|
    ensures |Kept(f, p, n, maxLine)| == Min(n, maxLine)
  {
  }

  /** At its newline the line is complete: the newline is neither text nor cut. */
  method CloseLine(f: string, p: nat, maxLine: nat, text: string, cut: nat, read: nat) returns (l: RawLine)
    requires p <= |f| && EndOfLine(f, p) < |f| && read == EndOfLine(f, p) + 1 - p
    requires text == Kept(f, p, read, maxLine) && cut == read - |text|
    ensures l == RawLine(LineText(f, p, maxLine), Max(EndOfLine(f, p) - p - maxLine, 0), read, true)
  {
    hide EndOfLine, TrimReturns, Kept, LineText;
    DropNewline(f, p, maxLine);
    KeptIsText(f, p, maxLine);
    KeptLength(f, p, read, maxLine);
    var shown := text;
    if shown != "" && shown[|shown| - 1] == '\n' {
      shown := shown[..|shown| - 1];
    }
    return RawLine(TrimReturns(shown), if cut > 0 then cut - 1 else 0, read, true);
  }

  /** The line is read in buffers of the given size; the text keeps maxLine bytes, the newline is
      never part of it, and cut is the number of bytes of the line that were dropped. */
  method ReadLine(f: string, p: nat, buffer: nat, maxLine: nat) returns (l: RawLine)
    requires p <= |f| && buffer > 0
    ensures l.text == LineText(f, p, maxLine)
    ensures l.cut == Max(EndOfLine(f, p) - p - maxLine, 0)
    ensures p + l.read == NextLine(f, p)
    ensures l.ended <==> EndOfLine(f, p) < |f|
  {
    hide EndOfLine, TrimReturns, Kept, LineText, IndexNewline;
    EndIsFirst(f, p);
    ghost var e := EndOfLine(f, p);
    var text, cut, read := "", 0, 0;
    KeptNothing(f, p, maxLine);
    while true
      invariant p + read <= e
      invariant text == Kept(f, p, read, maxLine) && cut == read - |text|
      decreases e - p - read
    {
      var at := p + read;
      var full := Min(|f|, at + buffer);
      var i := IndexNewline(f, at, full);
      var part := if i < full then i + 1 - at else full - at;
      text, cut := TakePart(f, p, read, part, maxLine, text, cut);
      read := read + part;
      if i < full {
        assert i == e;
        l := CloseLine(f, p, maxLine, text, cut, read);
        return;
      }
      if full < at + buffer {
        assert full == e == |f|;
        KeptIsText(f, p, maxLine);
        KeptLength(f, p, read, maxLine);
        return RawLine(TrimReturns(text), cut, read, false);
      }
    }
  }

  lemma KeptNothing(f: string, p: nat, maxLine: nat)
    requires p <= |f|
    ensures Kept(f, p, 0, maxLine) == ""
  {
  }

  lemma EndIsFirst(f: string, p: nat)
    requires p <= |f|
    ensures p <= EndOfLine(f, p) <= |f|
    ensures EndOfLine(f, p) < |f| ==> f[EndOfLine(f, p)] == '\n'
    ensures forall j :: p <= j < EndOfLine(f, p) ==> f[j] != '\n'
  {
  }

  // ----- hits -----

  /** The numbers of the first lines from p on that match, at most room of them; p begins line n. */
  function Hits(f: string, p: nat, n: nat, room: nat, maxLine: nat, matches: string -> bool): seq<nat>
    requires p <= |f|
    decreases |f| - p
  {
    if room == 0 || p == |f| then []
    else if matches(LineText(f, p, maxLine)) then [n] + Hits(f, NextLine(f, p), n + 1, room - 1, maxLine, matches)
    else Hits(f, NextLine(f, p), n + 1, room, maxLine, matches)
  }

  method HitLines(f: string, buffer: nat, maxLine: nat, maxHits: nat, matches: string -> bool) returns (hits: seq<nat>)
    requires buffer > 0
    ensures hits == Hits(f, 0, 1, maxHits, maxLine, matches)
  {
    hide LineText, NextLine, IndexNewline, EndOfLine;
    hits := [];
    var p, n := 0, 1;
    while |hits| < maxHits
      invariant 0 <= p <= |f| && |hits| <= maxHits
      invariant hits + Hits(f, p, n, maxHits - |hits|, maxLine, matches) == Hits(f, 0, 1, maxHits, maxLine, matches)
      decreases |f| - p, maxHits - |hits|
    {
      var l := ReadLine(f, p, buffer, maxLine);
      if l.read > 0 && matches(l.text) {
        HitsStep(f, p, n, maxHits - |hits|, maxLine, matches);
        assert hits + ([n] + Hits(f, NextLine(f, p), n + 1, maxHits - |hits| - 1, maxLine, matches))
            == hits + [n] + Hits(f, NextLine(f, p), n + 1, maxHits - |hits| - 1, maxLine, matches);
        hits := hits + [n];
      }
      p := p + l.read;
      if !l.ended {
        LastLine(f, p - l.read);
        break;
      }
      NextIsNext(f, p - l.read);
      n := n + 1;
    }
  }

  lemma HitsStep(f: string, p: nat, n: nat, room: nat, maxLine: nat, matches: string -> bool)
    requires p < |f| && room > 0 && matches(LineText(f, p, maxLine))
    ensures Hits(f, p, n, room, maxLine, matches)
            == [n] + Hits(f, NextLine(f, p), n + 1, room - 1, maxLine, matches)
  {
  }

  lemma LastLine(f: string, p: nat)
    requires p <= |f| && EndOfLine(f, p) >= |f|
    ensures NextLine(f, p) == |f|
  {
  }

  lemma NextIsNext(f: string, p: nat)
    requires p <= |f| && EndOfLine(f, p) < |f|
    ensures p < NextLine(f, p)
  {
  }

  /** A hit is the number of a line whose text matches. */
  lemma {:induction false} HitsMatch(f: string, p: nat, n: nat, room: nat, maxLine: nat, matches: string -> bool,
                                     h: nat)
    requires p == |f| || StartsLine(f, p, n)
    requires h in Hits(f, p, n, room, maxLine, matches)
    ensures exists q: nat :: p <= q && StartsLine(f, q, h) && matches(LineText(f, q, maxLine))
    decreases |f| - p
  {
    if room > 0 && p < |f| {
      var at := p;
      NextStarts(f, p, n);
      if matches(LineText(f, p, maxLine)) && h == n {
        assert p <= at && StartsLine(f, at, h) && matches(LineText(f, at, maxLine));
      } else {
        var left := if matches(LineText(f, p, maxLine)) then room - 1 else room;
        HitsMatch(f, NextLine(f, p), n + 1, left, maxLine, matches, h);
      }
    }
  }

  lemma NextStarts(f: string, p: nat, n: int)
    requires StartsLine(f, p, n)
    ensures NextLine(f, p) == |f| || StartsLine(f, NextLine(f, p), n + 1)
    ensures forall q :: p <= q < NextLine(f, p) - 1 ==> f[q] != '\n'
  {
    var e := EndOfLine(f, p);
    CountNone(f, p, e);
    CountSplits(f, 0, p, e);
    if e < |f| {
      CountSplits(f, 0, e, e + 1);
    }
  }

  /** Every line that matches is among the hits, unless there are as many hits as there is room for. */
  lemma {:induction false} HitsComplete(f: string, p: nat, n: nat, room: nat, maxLine: nat, matches: string -> bool,
                                        q: nat, h: nat)
    requires StartsLine(f, p, n) && p <= q && StartsLine(f, q, h) && matches(LineText(f, q, maxLine))
    ensures |Hits(f, p, n, room, maxLine, matches)| <= room
    ensures |Hits(f, p, n, room, maxLine, matches)| == room || h in Hits(f, p, n, room, maxLine, matches)
    decreases |f| - p
  {
    if room > 0 {
      NextStarts(f, p, n);
      var left := if matches(LineText(f, p, maxLine)) then room - 1 else room;
      if p < q {
        HitsComplete(f, NextLine(f, p), n + 1, left, maxLine, matches, q, h);
      } else {
        HitsFit(f, NextLine(f, p), n + 1, left, maxLine, matches);
      }
    }
  }

  lemma {:induction false} HitsFit(f: string, p: nat, n: nat, room: nat, maxLine: nat, matches: string -> bool)
    requires p <= |f|
    ensures |Hits(f, p, n, room, maxLine, matches)| <= room
    decreases |f| - p
  {
    if room > 0 && p < |f| {
      var left := if matches(LineText(f, p, maxLine)) then room - 1 else room;
      HitsFit(f, NextLine(f, p), n + 1, left, maxLine, matches);
    }
  }

  // ----- counting and finding lines -----

  method CountLines(f: string, upto: nat, buffer: nat) returns (n: nat)
    requires upto <= |f| && buffer > 0
    ensures n == Count(f, 0, upto)
  {
    n := 0;
    var at := 0;
    while at < upto
      invariant 0 <= at <= upto && n == Count(f, 0, at)
    {
      var k := Min(buffer, upto - at);
      n := n + Count(f, at, at + k);
      CountSplits(f, 0, at, at + k);
      at := at + k;
    }
  }

  /** The offset where a line begins, if the file has that line. A number below 1 stands for line 1. */
  method LineStart(f: string, line: int, buffer: nat) returns (start: nat, ok: bool)
    requires buffer > 0
    ensures line <= 1 ==> ok && start == 0
    ensures line > 1 ==> (ok <==> exists p: nat :: StartsLine(f, p, line))
    ensures line > 1 && ok ==> StartsLine(f, start, line)
  {
    var need, at := line - 1, 0;
    while need > 0 && at < |f|
      invariant 0 <= at <= |f|
      invariant need == line - 1 - Count(f, 0, at)
      invariant line > 1 ==> need > 0
      decreases |f| - at
    {
      var k := Min(buffer, |f| - at);
      var i := at;
      while true
        invariant at <= i <= at + k
        invariant need == line - 1 - Count(f, 0, i) && need > 0
        decreases at + k - i
      {
        var j := IndexNewline(f, i, at + k);
        CountNone(f, i, j);
        CountSplits(f, 0, i, j);
        if j == at + k {
          break;
        }
        i := j + 1;
        need := need - 1;
        if need == 0 {
          OnlyStart(f, i, line);
          assert i < |f| ==> StartsLine(f, i, line);
          return i, i < |f|;
        }
      }
      at := at + k;
    }
    if line > 1 {
      TooFewLines(f, line);
    }
    return 0, line <= 1;
  }

  lemma OnlyStart(f: string, i: nat, line: int)
    requires 0 < i <= |f| && f[i - 1] == '\n' && Count(f, 0, i) == line - 1
    ensures forall p: nat :: StartsLine(f, p, line) ==> p == i
  {
    forall p: nat | StartsLine(f, p, line)
      ensures p == i
    {
      if p < i {
        StartsApart(f, p, i);
      } else if i < p {
        StartsApart(f, i, p);
      }
    }
  }

  lemma TooFewLines(f: string, line: int)
    requires Count(f, 0, |f|) < line - 1
    ensures forall p: nat :: !StartsLine(f, p, line)
  {
    forall p: nat
      ensures !StartsLine(f, p, line)
    {
      if p < |f| {
        CountSplits(f, 0, p, |f|);
      }
    }
  }

  // ----- windows -----

  /** The first line start at or after offset at, looking at maxLine bytes from the one before it;
      at itself when they hold no newline. */
  function LineAfter(f: string, at: int, maxLine: nat): (r: nat)
    ensures r <= |f|
    ensures 0 <= at <= |f| ==> at <= r
  {
    if at <= 0 || at >= |f| then Min(Max(at, 0), |f|)
    else
      var end := at - 1 + Min(maxLine, |f| - at + 1);
      var i := IndexNewline(f, at - 1, end);
      if i < end then i + 1 else at
  }

  lemma LineAfterTwice(f: string, at: int, maxLine: nat)
    ensures LineAfter(f, LineAfter(f, at, maxLine), maxLine) == LineAfter(f, at, maxLine)
  {
  }

  /** LineAfter finds the first line start within maxLine bytes, and stays when there is none. */
  lemma LineAfterIsFirst(f: string, at: nat, maxLine: nat)
    requires 0 < at < |f|
    ensures var r := LineAfter(f, at, maxLine);
      && (f[r - 1] == '\n' || r == at)
      && (forall k :: at - 1 <= k < r - 1 ==> f[k] != '\n')
      && (f[r - 1] != '\n' ==> forall k :: at - 1 <= k < at - 1 + maxLine && k < |f| ==> f[k] != '\n')
  {
  }

  /** One page of a file that is not shown whole. */
  datatype Page = Page(at: nat, end: nat, first: nat, later: bool)

  function PageAt(f: string, request: int, window: nat, maxLine: nat): (p: Page)
    ensures p.at <= p.end <= |f|
  {
    var at := LineAfter(f, Min(Max(request, 0), |f|), maxLine);
    var end := if at + window < |f| then LineAfter(f, at + window, maxLine) else |f|;
    Page(at, end, Count(f, 0, at) + 1, end < |f|)
  }

  /** The pages met by following the Later offset, which is the end of the page. */
  function Following(f: string, request: nat, window: nat, maxLine: nat): seq<Page>
    requires window > 0 && request <= |f|
    decreases |f| - request
  {
    var p := PageAt(f, request, window, maxLine);
    if p.later then [p] + Following(f, p.end, window, maxLine) else [p]
  }

  ghost predicate Tiles(f: string, from: nat, pages: seq<Page>) {
    && pages != []
    && pages[0].at == from
    && pages[|pages| - 1].end == |f|
    && (forall i :: 0 <= i < |pages| ==> pages[i].at <= pages[i].end <= |f|)
    && (forall i :: 0 <= i < |pages| ==> pages[i].later == (i < |pages| - 1) == (pages[i].end < |f|))
    && (forall i :: 0 <= i < |pages| - 1 ==> pages[i].end == pages[i + 1].at)
    && (forall i :: 0 <= i < |pages| && from < |f| ==> pages[i].at < pages[i].end)
    && (forall i :: 0 <= i < |pages| ==> pages[i].at <= |f| && pages[i].first == Count(f, 0, pages[i].at) + 1)
  }

  /** Following Later from offset 0 tiles the file with no gap and no overlap and ends; every page
      knows how many lines come before it. */
  lemma LaterTilesTheFile(f: string, window: nat, maxLine: nat)
    requires window > 0 && maxLine > 0
    ensures Tiles(f, 0, Following(f, 0, window, maxLine))
    ensures Contents(f, Following(f, 0, window, maxLine)) == f
  {
    FollowingTiles(f, 0, window, maxLine);
    TilesContents(f, 0, Following(f, 0, window, maxLine));
    assert f[0..] == f;
  }

  function Contents(f: string, pages: seq<Page>): string {
    if pages == [] then ""
    else (if pages[0].at <= pages[0].end <= |f| then f[pages[0].at..pages[0].end] else "") + Contents(f, pages[1..])
  }

  lemma {:induction false} FollowingTiles(f: string, from: nat, window: nat, maxLine: nat)
    requires window > 0 && maxLine > 0 && from <= |f| && LineAfter(f, from, maxLine) == from
    ensures Tiles(f, from, Following(f, from, window, maxLine))
    decreases |f| - from
  {
    hide LineAfter;
    var p := PageAt(f, from, window, maxLine);
    if p.later {
      LineAfterTwice(f, p.at + window, maxLine);
      FollowingTiles(f, p.end, window, maxLine);
      TilesCons(f, p, Following(f, p.end, window, maxLine));
    }
  }

  lemma TilesCons(f: string, p: Page, rest: seq<Page>)
    requires Tiles(f, p.end, rest) && p.at < p.end < |f| && p.later && p.first == Count(f, 0, p.at) + 1
    ensures Tiles(f, p.at, [p] + rest)
  {
    hide Count;
    var pages := [p] + rest;
    forall i | 0 <= i < |pages|
      ensures pages[i].at < pages[i].end <= |f|
      ensures pages[i].later == (i < |pages| - 1) == (pages[i].end < |f|)
      ensures pages[i].first == Count(f, 0, pages[i].at) + 1
    {
      if i > 0 {
        assert pages[i] == rest[i - 1];
      }
    }
    forall i | 0 <= i < |pages| - 1
      ensures pages[i].end == pages[i + 1].at
    {
      assert pages[i + 1] == rest[i];
      if i > 0 {
        assert pages[i] == rest[i - 1];
      }
    }
  }

  lemma {:induction false} TilesContents(f: string, from: nat, pages: seq<Page>)
    requires from <= |f| && Tiles(f, from, pages)
    ensures Contents(f, pages) == f[from..]
    decreases |pages|
  {
    hide Count;
    var p, rest := pages[0], pages[1..];
    if rest != [] {
      assert rest[0] == pages[1];
      TilesTail(f, from, pages);
      TilesContents(f, p.end, rest);
      assert f[p.at..p.end] + f[p.end..] == f[from..];
    } else {
      assert |pages| == 1 && p == pages[|pages| - 1];
      assert f[p.at..p.end] == f[from..];
      assert Contents(f, rest) == "";
    }
  }

  lemma TilesTail(f: string, from: nat, pages: seq<Page>)
    requires Tiles(f, from, pages) && |pages| > 1
    ensures Tiles(f, pages[0].end, pages[1..])
  {
    hide Count;
    var rest := pages[1..];
    assert forall i :: 0 <= i < |rest| ==> rest[i] == pages[i + 1];
    assert pages[0].end == pages[1].at;
    assert pages[0].later;
  }

  /** Asking for a line that exists opens the page that begins with it. */
  lemma PageOfLine(f: string, start: nat, line: int, window: nat, maxLine: nat)
    requires StartsLine(f, start, line)
    ensures PageAt(f, start, window, maxLine).at == start
    ensures PageAt(f, start, window, maxLine).first == line
  {
  }

  /** The page before: it begins earlier, and ends where this page begins or after it. */
  lemma EarlierLeavesNoGap(f: string, at: nat, window: nat, maxLine: nat)
    requires 0 < at <= |f| && 0 < maxLine <= window
    ensures var p := PageAt(f, Max(at - window, 0), window, maxLine); p.at < at <= p.end
  {
  }

  /** The pages met by following the Earlier offset back to the start of the file, first page first. */
  function GoingBack(f: string, at: nat, window: nat, maxLine: nat): seq<Page>
    requires at <= |f| && 0 < maxLine <= window
  {
    if at == 0 then []
    else
      EarlierLeavesNoGap(f, at, window, maxLine);
      var p := PageAt(f, Max(at - window, 0), window, maxLine);
      GoingBack(f, p.at, window, maxLine) + [p]
  }

  /** Following Earlier from a page shows every byte before it. */
  lemma {:induction false} EarlierShowsAll(f: string, at: nat, window: nat, maxLine: nat, o: nat)
    requires o < at <= |f| && 0 < maxLine <= window
    ensures exists p :: p in GoingBack(f, at, window, maxLine) && p.at <= o < p.end
  {
    EarlierLeavesNoGap(f, at, window, maxLine);
    var p := PageAt(f, Max(at - window, 0), window, maxLine);
    if o < p.at {
      EarlierShowsAll(f, p.at, window, maxLine, o);
      var q :| q in GoingBack(f, p.at, window, maxLine) && q.at <= o < q.end;
      assert q in GoingBack(f, at, window, maxLine);
    } else {
      assert p in GoingBack(f, at, window, maxLine);
    }
  }

  /** What a request asks for: a line, an offset, or the end of the file. */
  datatype Query = Line(n: int) | At(offset: int) | Tail

  /** The page of a request, and the offset that its link to the page before names. A file that is
      short enough is shown whole, whatever is asked for. */
  method TextPage(f: string, q: Query, maxWhole: nat, window: nat, maxLine: nat, buffer: nat)
    returns (p: Page, earlier: Option<nat>)
    requires buffer > 0
    ensures |f| <= maxWhole ==> p == Page(0, |f|, 1, false)
    ensures |f| > maxWhole && q.At? ==> p == PageAt(f, q.offset, window, maxLine)
    ensures |f| > maxWhole && q.Tail? ==> p == PageAt(f, |f| - window, window, maxLine)
    ensures |f| > maxWhole && q.Line? && q.n <= 1 ==> p == PageAt(f, 0, window, maxLine)
    ensures |f| > maxWhole && q.Line? && q.n > 1 ==> forall s: nat :: StartsLine(f, s, q.n) ==>
      p == PageAt(f, s, window, maxLine) && p.at == s && p.first == q.n
    ensures |f| > maxWhole && q.Line? && q.n > 1 && (forall s: nat :: !StartsLine(f, s, q.n)) ==>
      p == PageAt(f, |f| - window, window, maxLine)
    ensures earlier == if p.at == 0 then None else Some(Max(p.at - window, 0))
  {
    hide LineAfter, Count;
    if |f| <= maxWhole {
      return Page(0, |f|, 1, false), None;
    }
    var at := |f| - window;
    if q.Line? {
      var start, ok := LineStart(f, q.n, buffer);
      if ok {
        at := start;
        StartsOnce(f, start, q.n, window, maxLine);
      }
    } else if q.At? {
      at := q.offset;
    }
    var from := LineAfter(f, Min(Max(at, 0), |f|), maxLine);
    var end := from + window;
    if end < |f| {
      end := LineAfter(f, end, maxLine);
    } else {
      end := |f|;
    }
    var n := CountLines(f, from, buffer);
    p := Page(from, end, n + 1, end < |f|);
    earlier := if from > 0 then Some(Max(from - window, 0)) else None;
  }

  lemma StartsOnce(f: string, start: nat, line: int, window: nat, maxLine: nat)
    requires line > 1 ==> StartsLine(f, start, line)
    ensures line > 1 ==> forall s: nat :: StartsLine(f, s, line) ==>
      s == start && PageAt(f, s, window, maxLine).at == s && PageAt(f, s, window, maxLine).first == line
  {
    if line > 1 {
      PageOfLine(f, start, line, window, maxLine);
      OnlyStart(f, start, line);
    }
  }

  // ----- following a growing file -----

  /** How much of r are complete lines, read in buffers of the given size, and how many lines that is. */
  method CompleteLines(r: string, buffer: nat) returns (done: nat, lines: nat)
    requires buffer > 0
    ensures IsComplete(r, done, lines)
  {
    done, lines := 0, 0;
    var read := 0;
    while read < |r|
      invariant 0 <= read <= |r| && done <= read
      invariant lines == Count(r, 0, read)
      invariant done > 0 ==> r[done - 1] == '\n'
      invariant forall k :: done <= k < read ==> r[k] != '\n'
    {
      var k := Min(buffer, |r| - read);
      var i := LastNewline(r, read, read + k);
      if i >= 0 {
        done := i + 1;
      }
      CountSplits(r, 0, read, read + k);
      lines := lines + Count(r, read, read + k);
      read := read + k;
    }
    CountNone(r, done, |r|);
    CountSplits(r, 0, done, |r|);
  }

  function LastNewline(r: string, a: nat, b: nat): (i: int)
    requires a <= b <= |r|
    ensures i == -1 || (a <= i < b && r[i] == '\n')
    ensures forall k :: a <= k < b && i < k ==> r[k] != '\n'
  {
    if a == b then -1 else if r[b - 1] == '\n' then b - 1 else LastNewline(r, a, b - 1)
  }

  predicate IsComplete(r: string, done: nat, lines: nat) {
    && done <= |r|
    && (done > 0 ==> r[done - 1] == '\n')
    && (forall k :: done <= k < |r| ==> r[k] != '\n')
    && lines == Count(r, 0, |r|)
    && lines == Count(r, 0, done)
  }

  /** The place a reader has reached: after whole lines, and with the number of the next line. */
  predicate AtLine(f: string, from: int, line: int) {
    0 <= from <= |f| && (from == 0 || f[from - 1] == '\n') && line == Count(f, 0, from) + 1
  }

  /** One request of a follower: a place that is no line start of the file is reset; otherwise what is
      sent are the complete lines of one window, and the next place comes with its line number. */
  method Follow(f: string, from: int, line: int, window: nat, buffer: nat)
    returns (reset: bool, next: int, nextLine: int)
    requires buffer > 0
    ensures reset <==> from < 0 || from > |f| || line < 1 || (from > 0 && f[from - 1] != '\n')
    ensures !reset ==> var span := Min(|f| - from, window);
      from <= next && line <= nextLine && IsComplete(f[from..from + span], next - from, nextLine - line)
    ensures AtLine(f, from, line) ==> !reset && AtLine(f, next, nextLine)
  {
    if from < 0 || from > |f| || line < 1 || (from > 0 && f[from - 1] != '\n') {
      return true, 0, 0;
    }
    var span := Min(|f| - from, window);
    var done, lines := CompleteLines(f[from..from + span], buffer);
    if AtLine(f, from, line) {
      assert f + "" == f;
      FollowKeepsPlace(f, "", from, line, span, done, lines);
    }
    return false, from + done, line + lines;
  }

  /** However the file grows between requests, following keeps the place: what was sent are whole
      lines from the place on, and the line number stays right. */
  lemma FollowKeepsPlace(f: string, more: string, from: nat, line: int, span: nat, done: nat, lines: nat)
    requires AtLine(f, from, line) && from + span <= |f + more|
    requires IsComplete((f + more)[from..from + span], done, lines)
    ensures AtLine(f + more, from + done, line + lines)
  {
    var g := f + more;
    var r := g[from..from + span];
    CountAppended(f, more, 0, from);
    CountSplits(g, 0, from, from + done);
    CountSlice(g, from, r, done);
    assert from > 0 ==> g[from - 1] == f[from - 1];
    assert done > 0 ==> g[from + done - 1] == r[done - 1];
  }

  lemma {:induction false} CountSlice(g: string, from: nat, r: string, b: nat)
    requires from + |r| <= |g| && r == g[from..from + |r|] && b <= |r|
    ensures Count(g, from, from + b) == Count(r, 0, b)
  {
    if b > 0 {
      CountSlice(g, from, r, b - 1);
    }
  }
}
