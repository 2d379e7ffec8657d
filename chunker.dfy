/**
 * The document chunker: `DocumentService._split_text_into_chunks`.
 *
 * The text is walked in windows. A window starts at `start` and would end at
 * `start + chunkSize`; unless that reaches the end of the text, the end is
 * pulled back to just after the last sentence or paragraph boundary
 * (`. ! ? \n`) found by scanning downwards from index `start + chunkSize`
 * itself, no lower than half a chunk and no more than 200 characters back.
 * Each window's text is stripped and kept when non-empty, and the next
 * window starts `overlap` characters before the current one ended.
 */
module Chunker {
  import opened Text
  import opened Wrappers

  /** The source's default `chunk_size` and `overlap`. */
  const DefaultChunkSize: int := 1000
  const DefaultOverlap: int := 100
  /** How far back from the naive end the boundary scan may go. */
  const MaxLookBack: int := 200

  predicate IsBoundary(c: char) {
    c == '.' || c == '!' || c == '?' || c == '\n'
  }

  /** The exclusive lower end of the boundary scan: `max(start + chunk_size // 2, end - 200)`. */
  function ScanFloor(start: nat, chunkSize: int): int {
    Max(start + chunkSize / 2, start + chunkSize - MaxLookBack)
  }

  /** No boundary character at any index in `(lo, hi]`. */
  predicate NoBoundaryIn(text: string, lo: int, hi: int)
    requires -1 <= lo && hi < |text|
  {
    forall j :: lo < j <= hi ==> !IsBoundary(text[j])
  }

  /**
   * `for i in range(hi, lo, -1): if text[i] in '.!?\n': ... break`: the
   * highest boundary index in `(lo, hi]`, if there is one.
   */
  function ScanBack(text: string, hi: int, lo: int): (r: Option<nat>)
    requires -1 <= lo && hi < |text|
    ensures r.None? <==> NoBoundaryIn(text, lo, hi)
    ensures r.Some? ==> lo < r.value <= hi && IsBoundary(text[r.value])
                        && NoBoundaryIn(text, r.value, hi)
    decreases hi - lo
  {
    if hi <= lo then None
    else if IsBoundary(text[hi]) then Some(hi)
    else ScanBack(text, hi - 1, lo)
  }

  /**
   * The shortest window the loop can produce for this chunk size: either the
   * plain cut, or a cut just after a boundary found one step above the scan's
   * floor.
   */
  function MinWindow(chunkSize: int): int {
    Min(chunkSize, Max(chunkSize / 2, chunkSize - MaxLookBack) + 2)
  }

  /**
   * The configurations for which the loop is guaranteed to advance on every
   * text: each window must be longer than the overlap. The defaults
   * (1000, 100) qualify, since MinWindow(1000) == 802.
   */
  predicate ValidConfig(chunkSize: int, overlap: int) {
    chunkSize >= 1 && overlap < MinWindow(chunkSize)
  }

  /**
   * Any overlap from 0 up to half the chunk size keeps the loop advancing;
   * so do the defaults.
   */
  lemma HalfOverlapIsValid(chunkSize: int, overlap: int)
    requires chunkSize >= 1 && 0 <= overlap <= chunkSize / 2
    ensures ValidConfig(chunkSize, overlap)
  {
  }

  lemma DefaultsAreValid()
    ensures ValidConfig(DefaultChunkSize, DefaultOverlap)
    ensures MinWindow(DefaultChunkSize) == 802
  {
  }

  /**
   * Where the window starting at `start` ends (exclusive; it may lie past the
   * end of the text, which slicing clamps): never shorter than
   * MinWindow(chunkSize) and, because the scan starts at index
   * `start + chunkSize` itself, up to `chunkSize + 1` long. WindowEndCases
   * says which cut is taken.
   */
  function WindowEnd(text: string, start: nat, chunkSize: int): (e: nat)
    requires chunkSize >= 1
    ensures start < e
    ensures start + MinWindow(chunkSize) <= e <= start + chunkSize + 1
  {
    var end := start + chunkSize;
    if end < |text| then
      match ScanBack(text, end, ScanFloor(start, chunkSize))
      case Some(i) => i + 1
      case None => end
    else
      end
  }

  /**
   * The cut: `start + chunkSize` when that reaches the end of the text or no
   * boundary lies in the scan range; otherwise just after the highest
   * boundary in that range.
   */
  lemma WindowEndCases(text: string, start: nat, chunkSize: int)
    requires chunkSize >= 1
    ensures var e := WindowEnd(text, start, chunkSize);
      && (start + chunkSize >= |text| ==> e == start + chunkSize)
      && (start + chunkSize < |text| ==>
            if NoBoundaryIn(text, ScanFloor(start, chunkSize), start + chunkSize) then
              e == start + chunkSize
            else
              ScanFloor(start, chunkSize) < e - 1 <= start + chunkSize && IsBoundary(text[e - 1])
              && NoBoundaryIn(text, e - 1, start + chunkSize))
  {
  }

  /** One iteration of the loop: the text between `start` and `end`. */
  datatype Window = Window(start: nat, end: nat)

  predicate WellFormed(text: string, ws: seq<Window>) {
    forall k :: 0 <= k < |ws| ==> ws[k].start <= ws[k].end && ws[k].start <= |text|
  }

  /** The windows of every loop iteration from cursor `start` on (WindowsFromShape). */
  function WindowsFrom(text: string, start: nat, chunkSize: int, overlap: int): (ws: seq<Window>)
    requires ValidConfig(chunkSize, overlap)
    ensures WellFormed(text, ws)
    decreases |text| - start
  {
    if start >= |text| then []
    else
      var e := WindowEnd(text, start, chunkSize);
      [Window(start, e)] + WindowsFrom(text, e - overlap, chunkSize, overlap)
  }

  /**
   * The loop runs exactly while the cursor is inside the text: the windows
   * start at `start`, every start lies in `[start, |text|)`, each window
   * starts where the previous one ended minus the overlap, and the last one
   * is the first whose successor would start at or past the end.
   */
  lemma {:induction false} WindowsFromShape(text: string, start: nat, chunkSize: int, overlap: int)
    requires ValidConfig(chunkSize, overlap)
    ensures var ws := WindowsFrom(text, start, chunkSize, overlap);
      && (ws == [] <==> start >= |text|)
      && (ws != [] ==> ws[0].start == start)
      && (forall k :: 0 <= k < |ws| ==> start <= ws[k].start < |text|)
      && (forall i, j :: 0 <= i && j == i + 1 && j < |ws| ==> ws[j].start == ws[i].end - overlap)
      && (ws != [] ==> ws[|ws| - 1].end - overlap >= |text|)
    decreases |text| - start
  {
    var ws := WindowsFrom(text, start, chunkSize, overlap);
    if start < |text| {
      var e := WindowEnd(text, start, chunkSize);
      var rest := WindowsFrom(text, e - overlap, chunkSize, overlap);
      WindowsFromShape(text, e - overlap, chunkSize, overlap);
      assert ws == [Window(start, e)] + rest;
      forall i, j | 0 <= i && j == i + 1 && j < |ws| ensures ws[j].start == ws[i].end - overlap {
        assert ws[j] == rest[j - 1];
        if i > 0 {
          assert ws[i] == rest[i - 1];
        }
      }
      if rest != [] {
        assert ws[|ws| - 1] == rest[|rest| - 1];
      }
    }
  }

  /** Every window ends where WindowEnd cuts it. */
  lemma {:induction false} WindowsAreCuts(text: string, start: nat, chunkSize: int, overlap: int)
    requires ValidConfig(chunkSize, overlap)
    ensures var ws := WindowsFrom(text, start, chunkSize, overlap);
      forall k :: 0 <= k < |ws| ==> ws[k].end == WindowEnd(text, ws[k].start, chunkSize)
    decreases |text| - start
  {
    var ws := WindowsFrom(text, start, chunkSize, overlap);
    if ws != [] {
      var next := ws[0].end - overlap;
      WindowsAreCuts(text, next, chunkSize, overlap);
      assert ws[1..] == WindowsFrom(text, next, chunkSize, overlap);
    }
  }

  function Windows(text: string, chunkSize: int, overlap: int): seq<Window>
    requires ValidConfig(chunkSize, overlap)
  {
    WindowsFrom(text, 0, chunkSize, overlap)
  }

  /** `text[w.start:w.end]`, with Python's clamping of the end. */
  function WindowText(text: string, w: Window): string
    requires w.start <= w.end && w.start <= |text|
  {
    text[w.start..Min(w.end, |text|)]
  }

  /** `text[start:end].strip()` for one window. */
  function ChunkOf(text: string, w: Window): string
    requires w.start <= w.end && w.start <= |text|
  {
    Strip(WindowText(text, w))
  }

  /** `[text[w.start:w.end].strip() for w in ws]`: every window's candidate chunk. */
  function Candidates(text: string, ws: seq<Window>): (cs: seq<string>)
    requires WellFormed(text, ws)
    ensures |cs| == |ws|
    ensures forall k :: 0 <= k < |ws| ==> cs[k] == ChunkOf(text, ws[k])
  {
    seq(|ws|, k requires 0 <= k < |ws| => ChunkOf(text, ws[k]))
  }

  /**
   * `xs` with every occurrence of `x` removed, the rest in order; the chunker
   * keeps `[c for c in cs if c]`, that is `Without(cs, "")`.
   */
  function Without<T(==)>(xs: seq<T>, x: T): (r: seq<T>)
    ensures |r| <= |xs|
  {
    if xs == [] then []
    else (if xs[0] == x then [] else [xs[0]]) + Without(xs[1..], x)
  }

  /** Without drops every `x` and keeps every other element as often as it occurs. */
  lemma {:induction false} WithoutCounts<T>(xs: seq<T>, x: T)
    ensures multiset(Without(xs, x)) == multiset(xs)[x := 0]
  {
    if xs != [] {
      WithoutCounts(xs[1..], x);
      assert xs == [xs[0]] + xs[1..];
    }
  }

  /** The stripped text of the window the loop cuts at cursor `start`. */
  function CursorChunk(text: string, start: nat, chunkSize: int): string
    requires chunkSize >= 1 && start <= |text|
  {
    Strip(text[start..Min(WindowEnd(text, start, chunkSize), |text|)])
  }

  /** The loop's chunk at a cursor is the candidate chunk of the window cut there. */
  lemma CursorChunkIsChunkOf(text: string, start: nat, chunkSize: int)
    requires chunkSize >= 1 && start <= |text|
    ensures CursorChunk(text, start, chunkSize) == ChunkOf(text, Window(start, WindowEnd(text, start, chunkSize)))
  {
  }

  /** What the loop appends for one candidate: `if chunk: chunks.append(chunk)`. */
  function Kept(chunk: string): seq<string> {
    if chunk == [] then [] else [chunk]
  }

  /**
   * The chunks the loop produces from cursor `start` on: the stripped text
   * of the window at `start`, when non-empty, then those from `end - overlap`.
   */
  function ChunksFrom(text: string, start: nat, chunkSize: int, overlap: int): seq<string>
    requires ValidConfig(chunkSize, overlap)
    decreases |text| - start
  {
    if start >= |text| then []
    else Kept(CursorChunk(text, start, chunkSize)) + ChunksFrom(text, WindowEnd(text, start, chunkSize) - overlap, chunkSize, overlap)
  }

  /** One step of ChunksFrom, for a cursor inside the text; `next` is the next cursor. */
  lemma ChunksFromStep(text: string, start: nat, chunkSize: int, overlap: int, next: nat)
    requires ValidConfig(chunkSize, overlap) && start < |text|
    requires next == WindowEnd(text, start, chunkSize) - overlap
    ensures ChunksFrom(text, start, chunkSize, overlap)
         == Kept(CursorChunk(text, start, chunkSize)) + ChunksFrom(text, next, chunkSize, overlap)
  {
  }

  /** The result of `_split_text_into_chunks(text, chunkSize, overlap)`. */
  function SplitText(text: string, chunkSize: int, overlap: int): seq<string>
    requires ValidConfig(chunkSize, overlap)
  {
    ChunksFrom(text, 0, chunkSize, overlap)
  }

  /**
   * The loop's output, seen window by window: the stripped texts of all the
   * windows, with the empty ones dropped.
   */
  lemma {:induction false} ChunksFromWindows(text: string, start: nat, chunkSize: int, overlap: int)
    requires ValidConfig(chunkSize, overlap)
    ensures ChunksFrom(text, start, chunkSize, overlap)
         == Without(Candidates(text, WindowsFrom(text, start, chunkSize, overlap)), "")
    decreases |text| - start
  {
    if start < |text| {
      var e := WindowEnd(text, start, chunkSize);
      var rest := WindowsFrom(text, e - overlap, chunkSize, overlap);
      var ws := WindowsFrom(text, start, chunkSize, overlap);
      ChunksFromWindows(text, e - overlap, chunkSize, overlap);
      assert ws == [Window(start, e)] + rest;
      var cs := Candidates(text, ws);
      assert cs[1..] == Candidates(text, rest);
    }
  }

  /** The same view of the whole result. */
  lemma SplitTextWindows(text: string, chunkSize: int, overlap: int)
    requires ValidConfig(chunkSize, overlap)
    ensures SplitText(text, chunkSize, overlap)
         == Without(Candidates(text, Windows(text, chunkSize, overlap)), "")
  {
    ChunksFromWindows(text, 0, chunkSize, overlap);
  }

  /**
   * The source's loop. Its early return for blank text agrees with
   * SplitText because a blank text has no non-empty window (BlankTextHasNoChunks).
   */
  method SplitTextIntoChunks(text: string, chunkSize: int, overlap: int) returns (chunks: seq<string>)
    requires ValidConfig(chunkSize, overlap)
    ensures chunks == SplitText(text, chunkSize, overlap)
  {
    if Strip(text) == [] {
      StripEmptyIffBlank(text);
      BlankTextHasNoChunks(text, chunkSize, overlap);
      return [];
    }
    chunks := [];
    var start: nat := 0;
    while start < |text|
      invariant chunks + ChunksFrom(text, start, chunkSize, overlap) == SplitText(text, chunkSize, overlap)
      decreases |text| - start
    {
      var chunk, next := ChunkAt(text, start, chunkSize, overlap);
      ChunksFromStep(text, start, chunkSize, overlap, next);
      ghost var later := ChunksFrom(text, next, chunkSize, overlap);
      if chunk != [] {
        assert Kept(chunk) == [chunk];
        AppendKept(chunks, [chunk], later, SplitText(text, chunkSize, overlap));
        chunks := chunks + [chunk];
      } else {
        assert Kept(chunk) + later == later;
      }
      start := next;
    }
  }

  /**
   * One iteration of the loop: the window's stripped text and the next
   * cursor, which is strictly further on.
   */
  method ChunkAt(text: string, start: nat, chunkSize: int, overlap: int) returns (chunk: string, next: nat)
    requires ValidConfig(chunkSize, overlap) && start < |text|
    ensures chunk == CursorChunk(text, start, chunkSize)
    ensures next == WindowEnd(text, start, chunkSize) - overlap
  {
    var end := CutWindow(text, start, chunkSize);
    chunk := Strip(text[start..Min(end, |text|)]);
    next := end - overlap;
  }

  /**
   * The body's first half: `end = start + chunk_size`, then, unless that
   * reaches the end of the text, the backward `for` scan with its `break`.
   */
  method CutWindow(text: string, start: nat, chunkSize: int) returns (end: nat)
    requires chunkSize >= 1
    ensures end == WindowEnd(text, start, chunkSize)
  {
    end := start + chunkSize;
    if end < |text| {
      var floor := Max(start + chunkSize / 2, end - MaxLookBack);
      var i := end;
      while i > floor
        invariant floor <= i <= end == start + chunkSize
        invariant ScanBack(text, end, floor) == ScanBack(text, i, floor)
        decreases i
      {
        if IsBoundary(text[i]) {
          end := i + 1;
          break;
        }
        i := i - 1;
      }
    }
  }

  /** Appending the kept chunk to what is done keeps the loop invariant. */
  lemma AppendKept<T>(done: seq<T>, kept: seq<T>, later: seq<T>, total: seq<T>)
    requires done + (kept + later) == total
    ensures (done + kept) + later == total
  {
  }

  // ---------------------------------------------------------------------
  // Properties of the chunker

  /**
   * `r` is picked out of `xs` at the increasing positions `js`, and none of
   * the picked elements is `x`.
   */
  ghost predicate Picks<T>(xs: seq<T>, x: T, r: seq<T>, js: seq<nat>) {
    && |js| == |r|
    && (forall i :: 0 <= i < |js| ==> js[i] < |xs| && r[i] == xs[js[i]] != x)
    && (forall i, i' :: 0 <= i < i' < |js| ==> js[i] < js[i'])
  }

  /** Each element of `Without(xs, x)` is the element of `xs` at `js[i]`, and it is not `x`. */
  lemma {:induction false} WithoutIndices<T>(xs: seq<T>, x: T) returns (js: seq<nat>)
    ensures Picks(xs, x, Without(xs, x), js)
  {
    if xs == [] {
      js := [];
    } else {
      var rest := WithoutIndices(xs[1..], x);
      js := Shifted(xs, x, Without(xs[1..], x), rest);
      if xs[0] != x {
        js := PickFirst(xs, x, Without(xs[1..], x), js);
      }
    }
  }

  /** Positions picked in the tail are one further on in the whole sequence. */
  lemma Shifted<T>(xs: seq<T>, x: T, r: seq<T>, js: seq<nat>) returns (ks: seq<nat>)
    requires xs != [] && Picks(xs[1..], x, r, js)
    ensures Picks(xs, x, r, ks)
    ensures forall i :: 0 <= i < |ks| ==> ks[i] > 0
  {
    ks := seq(|js|, i requires 0 <= i < |js| => js[i] + 1);
    forall i | 0 <= i < |ks| ensures r[i] == xs[ks[i]] {
      assert xs[1..][js[i]] == xs[ks[i]];
    }
  }

  /** Picking the first element too, when it is not `x`. */
  lemma PickFirst<T>(xs: seq<T>, x: T, r: seq<T>, ks: seq<nat>) returns (js: seq<nat>)
    requires xs != [] && xs[0] != x && Picks(xs, x, r, ks)
    requires forall i :: 0 <= i < |ks| ==> ks[i] > 0
    ensures Picks(xs, x, [xs[0]] + r, js)
  {
    js := [0] + ks;
    forall i | 0 < i < |js| ensures js[i] < |xs| && ([xs[0]] + r)[i] == xs[js[i]] {
      assert js[i] == ks[i - 1];
    }
    forall i, i' | 0 <= i < i' < |js| ensures js[i] < js[i'] {
      assert js[i'] == ks[i' - 1];
      if i > 0 {
        assert js[i] == ks[i - 1];
      }
    }
  }

  /** An element other than `x` survives, so the result is not empty. */
  lemma {:induction false} WithoutKeeps<T>(xs: seq<T>, x: T, j: nat)
    requires j < |xs| && xs[j] != x
    ensures Without(xs, x) != []
  {
    if j > 0 && xs[0] == x {
      assert xs[1..][j - 1] == xs[j];
      WithoutKeeps(xs[1..], x, j - 1);
    }
  }

  /** When every element is `x`, nothing survives. */
  lemma {:induction false} WithoutAll<T>(xs: seq<T>, x: T)
    requires forall k :: 0 <= k < |xs| ==> xs[k] == x
    ensures Without(xs, x) == []
  {
    if xs != [] {
      WithoutAll(xs[1..], x);
    }
  }

  /** Empty or whitespace-only text yields no chunks. */
  lemma BlankTextHasNoChunks(text: string, chunkSize: int, overlap: int)
    requires ValidConfig(chunkSize, overlap) && IsBlank(text)
    ensures SplitText(text, chunkSize, overlap) == []
  {
    var ws := Windows(text, chunkSize, overlap);
    var cs := Candidates(text, ws);
    forall k | 0 <= k < |cs| ensures cs[k] == [] {
      var t := WindowText(text, ws[k]);
      assert forall m :: 0 <= m < |t| ==> t[m] == text[ws[k].start + m];
      StripEmptyIffBlank(t);
    }
    WithoutAll(cs, "");
    SplitTextWindows(text, chunkSize, overlap);
  }

  /** Every chunk of the source's output is non-empty, has no whitespace at either end, and is at most `chunkSize + 1` long. */
  lemma ChunkShape(text: string, chunkSize: int, overlap: int, i: nat)
    requires ValidConfig(chunkSize, overlap)
    requires i < |SplitText(text, chunkSize, overlap)|
    ensures var c := SplitText(text, chunkSize, overlap)[i];
      0 < |c| <= chunkSize + 1 && !IsSpace(c[0]) && !IsSpace(c[|c| - 1])
  {
    var ws := Windows(text, chunkSize, overlap);
    SplitTextWindows(text, chunkSize, overlap);
    var js := WithoutIndices(Candidates(text, ws), "");
    WindowsAreCuts(text, 0, chunkSize, overlap);
    assert js[i] < |ws|;
    assert ws == WindowsFrom(text, 0, chunkSize, overlap);
    var w := ws[js[i]];
    assert w.end == WindowEnd(text, w.start, chunkSize);
    var t := WindowText(text, w);
    assert |t| <= chunkSize + 1;
    assert SplitText(text, chunkSize, overlap)[i] == Strip(t);
    StripFacts(t);
  }

  /** Each chunk is the stripped text of a window, and later chunks come from later windows. */
  lemma ChunkSources(text: string, chunkSize: int, overlap: int) returns (js: seq<nat>)
    requires ValidConfig(chunkSize, overlap)
    ensures var ws := Windows(text, chunkSize, overlap);
      && |js| == |SplitText(text, chunkSize, overlap)|
      && (forall i :: 0 <= i < |js| ==>
            js[i] < |ws| && SplitText(text, chunkSize, overlap)[i] == ChunkOf(text, ws[js[i]]))
      && (forall i, i' :: 0 <= i < i' < |js| ==> js[i] < js[i'])
  {
    SplitTextWindows(text, chunkSize, overlap);
    js := WithoutIndices(Candidates(text, Windows(text, chunkSize, overlap)), "");
  }

  /** With a non-negative overlap the windows cover every index from their first start on. */
  lemma {:induction false} CoveringWindow(text: string, start: nat, chunkSize: int, overlap: int, k: nat)
    returns (j: nat)
    requires ValidConfig(chunkSize, overlap) && overlap >= 0
    requires start <= k < |text|
    ensures var ws := WindowsFrom(text, start, chunkSize, overlap);
      j < |ws| && ws[j].start <= k < ws[j].end
    decreases |text| - start
  {
    var e := WindowEnd(text, start, chunkSize);
    var next := e - overlap;
    var rest := WindowsFrom(text, next, chunkSize, overlap);
    var ws := WindowsFrom(text, start, chunkSize, overlap);
    assert ws == [Window(start, e)] + rest;
    if k < e {
      j := 0;
    } else {
      var j' := CoveringWindow(text, next, chunkSize, overlap, k);
      assert ws[j' + 1] == rest[j'];
      j := j' + 1;
    }
  }

  /**
   * With a non-negative overlap, the source returns at least one chunk
   * exactly when the text has a non-whitespace character.
   */
  lemma SplitNonEmptyIffNotBlank(text: string, chunkSize: int, overlap: int)
    requires ValidConfig(chunkSize, overlap) && overlap >= 0
    ensures SplitText(text, chunkSize, overlap) != [] <==> !IsBlank(text)
  {
    if IsBlank(text) {
      BlankTextHasNoChunks(text, chunkSize, overlap);
    } else {
      var k :| 0 <= k < |text| && !IsSpace(text[k]);
      var ws := Windows(text, chunkSize, overlap);
      var j := CoveringWindow(text, 0, chunkSize, overlap, k);
      var t := WindowText(text, ws[j]);
      assert t[k - ws[j].start] == text[k];
      StripEmptyIffBlank(t);
      var cs := Candidates(text, ws);
      assert cs[j] == Strip(t) != [];
      WithoutKeeps(cs, "", j);
      SplitTextWindows(text, chunkSize, overlap);
    }
  }

  /** Successive windows start strictly later: the loop never revisits a cursor position. */
  lemma {:induction false} WindowStartsIncrease(text: string, start: nat, chunkSize: int, overlap: int)
    requires ValidConfig(chunkSize, overlap)
    ensures var ws := WindowsFrom(text, start, chunkSize, overlap);
      forall i, i' :: 0 <= i < i' < |ws| ==> ws[i].start < ws[i'].start
    decreases |text| - start
  {
    var ws := WindowsFrom(text, start, chunkSize, overlap);
    if ws != [] {
      var e := WindowEnd(text, start, chunkSize);
      var next := e - overlap;
      var rest := WindowsFrom(text, next, chunkSize, overlap);
      WindowStartsIncrease(text, next, chunkSize, overlap);
      WindowsFromShape(text, next, chunkSize, overlap);
      assert ws == [Window(start, e)] + rest;
      forall i, i' | 0 <= i < i' < |ws| ensures ws[i].start < ws[i'].start {
        assert ws[i'] == rest[i' - 1];
        assert next <= rest[i' - 1].start;
        if i > 0 {
          assert ws[i] == rest[i - 1];
        }
      }
    }
  }

  /**
   * Outside the valid configurations the loop can stall: when the overlap is
   * at least the chunk size and the window takes the plain cut (it reaches
   * the end of the text, or no boundary is in range), the next start is not
   * beyond the current one.
   */
  lemma PlainCutWithLargeOverlapStalls(text: string, start: nat, chunkSize: int, overlap: int)
    requires chunkSize >= 1 && overlap >= chunkSize
    requires start + chunkSize >= |text|
          || NoBoundaryIn(text, ScanFloor(start, chunkSize), start + chunkSize)
    ensures WindowEnd(text, start, chunkSize) - overlap <= start
  {
  }

  /**
   * The trailing fragment: once a window reaches the end of the text, one
   * more window follows whenever its end minus the overlap is still inside
   * the text, and that window's text is a suffix of the previous one's.
   */
  lemma TrailingFragment(text: string, chunkSize: int, overlap: int, k: nat)
    requires ValidConfig(chunkSize, overlap)
    requires k < |Windows(text, chunkSize, overlap)|
    requires Windows(text, chunkSize, overlap)[k].end >= |text|
    requires Windows(text, chunkSize, overlap)[k].end - overlap < |text|
    ensures var ws := Windows(text, chunkSize, overlap);
      k + 1 < |ws| && ws[k].start < ws[k + 1].start
      && WindowText(text, ws[k + 1]) == WindowText(text, ws[k])[ws[k + 1].start - ws[k].start..]
  {
    var ws := Windows(text, chunkSize, overlap);
    WindowsAreCuts(text, 0, chunkSize, overlap);
    WindowsFromShape(text, 0, chunkSize, overlap);
    assert k + 1 < |ws|;
    var a, b := ws[k], ws[k + 1];
    assert b.start == a.end - overlap;
    assert b.end == WindowEnd(text, b.start, chunkSize);
    assert a.start < b.start;
    assert b.end >= |text|;
    assert text[a.start..][b.start - a.start..] == text[b.start..];
  }

  /** A window can be one character longer than the chunk size: the scan starts at the naive end. */
  lemma WindowMayExceedChunkSize()
    ensures WindowEnd("ab.c", 0, 2) == 3
  {
  }

  /** The scan passes over a stretch with no boundary. */
  lemma {:induction false} ScanBackSkips(text: string, hi: int, lo: int, m: int)
    requires -1 <= lo <= m <= hi < |text|
    requires NoBoundaryIn(text, m, hi)
    ensures ScanBack(text, hi, lo) == ScanBack(text, m, lo)
    decreases hi - m
  {
    if m < hi {
      ScanBackSkips(text, hi - 1, lo, m);
    }
  }

  /** A string that neither starts nor ends with whitespace is its own `strip()`. */
  lemma StripKeepsTrimmed(s: string)
    requires s != [] && !IsSpace(s[0]) && !IsSpace(s[|s| - 1])
    ensures Strip(s) == s
  {
    assert StripStart(s) == 0;
    assert StripEnd(s) == |s|;
  }

  /**
   * "Paris is the capital of France. It is known for the Eiffel Tower.",
   * written as the pieces its chunks are made of: the first chunk is
   * ParisA + ParisB, the second ParisB + ParisC + ParisD + ParisE, the third
   * ParisE.
   */
  const ParisA: string := "Paris is the capital of Fr"
  const ParisB: string := "ance."
  const ParisC: string := " It is kno"
  const ParisD: string := "wn for the Eiffel To"
  const ParisE: string := "wer."
  const ParisText: string := ParisA + ParisB + ParisC + ParisD + ParisE

  /** The first window of the example text is cut just after "France.". */
  lemma ParisFirstCut()
    ensures |ParisText| == 65 && WindowEnd(ParisText, 0, 40) == 31
  {
    var t := ParisText;
    var c := ParisC;
    assert t[31..41] == c;
    assert NoBoundaryIn(t, 30, 40) by {
      forall j | 30 < j <= 40 ensures !IsBoundary(t[j]) {
        assert t[j] == c[j - 31];
      }
    }
    ScanBackSkips(t, 40, 20, 30);
    assert t[30] == '.';
  }

  /**
   * A window that reaches the end of the text is cut at `start + chunkSize`
   * without a scan, and its chunk is the stripped rest of the text.
   */
  lemma WindowToEnd(text: string, start: nat, chunkSize: int, overlap: int)
    requires ValidConfig(chunkSize, overlap) && start < |text| <= start + chunkSize
    ensures ChunksFrom(text, start, chunkSize, overlap)
         == Kept(Strip(text[start..])) + ChunksFrom(text, start + chunkSize - overlap, chunkSize, overlap)
  {
    CutAtEnd(text, start, chunkSize);
    ChunksFromStep(text, start, chunkSize, overlap, start + chunkSize - overlap);
  }

  /** The cut of a window reaching the end of the text, and its chunk. */
  lemma CutAtEnd(text: string, start: nat, chunkSize: int)
    requires chunkSize >= 1 && start < |text| <= start + chunkSize
    ensures WindowEnd(text, start, chunkSize) == start + chunkSize
    ensures CursorChunk(text, start, chunkSize) == Strip(text[start..])
  {
    var e := WindowEnd(text, start, chunkSize);
    assert text[start..Min(e, |text|)] == text[start..];
  }

  /** Dropping a prefix from a concatenation leaves the other part. */
  lemma AfterPrefix<T>(a: seq<T>, b: seq<T>)
    ensures (a + b)[|a|..] == b
  {
  }

  /** The example's last window: from index 61 only "wer." is left. */
  lemma ParisLast()
    ensures ChunksFrom(ParisText, 61, 40, 5) == [ParisE]
  {
    var t := ParisText;
    assert |t| == 65;
    assert t[61..] == ParisE;
    StripKeepsTrimmed(ParisE);
    WindowToEnd(t, 61, 40, 5);
    assert ChunksFrom(t, 96, 40, 5) == [];
  }

  /** The example's last two windows both reach the end of the text. */
  lemma ParisTail()
    ensures ChunksFrom(ParisText, 26, 40, 5) == [ParisB + ParisC + ParisD + ParisE, ParisE]
  {
    var rest := ParisB + ParisC + ParisD + ParisE;
    var t := ParisText;
    assert |t| == 65;
    assert t == ParisA + rest;
    AfterPrefix(ParisA, rest);
    StripKeepsTrimmed(rest);
    WindowToEnd(t, 26, 40, 5);
    ParisLast();
  }

  /**
   * The example text with `chunkSize = 40, overlap = 5` is cut after
   * "France." (index 30), and yields a third, trailing chunk because the
   * second window ends at 66 and 66 - 5 < 65.
   */
  lemma ParisExample()
    ensures SplitText(ParisText, 40, 5) == [ParisA + ParisB, ParisB + ParisC + ParisD + ParisE, ParisE]
  {
    var t := ParisText;
    ParisFirstCut();
    assert t[0..31] == ParisA + ParisB;
    StripKeepsTrimmed(ParisA + ParisB);
    ParisTail();
  }
}
