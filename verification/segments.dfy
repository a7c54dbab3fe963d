/** The segment planner inside `handleGenerate` (App.tsx): the song is cut
    into windows of a fixed length, the lyrics into non-blank lines, and each
    window gets a fixed-size slice of those lines and an outro flag.
    Durations are exact reals; the browser's double rounding is not modelled. */
module Segments {
  import opened Text

  /** A time range of the song, in seconds. */
  datatype Window = Window(startTime: real, endTime: real)

  /** What one generation call is made from: its window, its lyric lines and
      whether it is the short closing outro. */
  datatype SegmentRequest = SegmentRequest(window: Window, lines: seq<string>, isOutro: bool)
  {
    /** The lyric text sent with the call: the lines joined by line breaks. */
    function LyricsChunk(): string
    {
      Join(lines, '\n')
    }
  }

  function Min(a: int, b: int): int
  {
    if a <= b then a else b
  }

  function MinReal(a: real, b: real): real
  {
    if a <= b then a else b
  }

  /** `Math.ceil(x)`: the least integer not below `x`. */
  function Ceil(x: real): (n: int)
    ensures x <= n as real < x + 1.0
  {
    if x.Floor as real == x then x.Floor else x.Floor + 1
  }

  /** `Math.ceil(duration / segmentDuration)`: the fewest windows of the
      given length that reach the end of the song. */
  function NumSegments(duration: real, segmentDuration: nat): (n: nat)
    requires duration >= 0.0 && segmentDuration > 0
    ensures duration <= (n * segmentDuration) as real
    ensures n == 0 || ((n - 1) * segmentDuration) as real < duration
  {
    var q := duration / segmentDuration as real;
    var n := Ceil(q);
    CeilOfQuotient(duration, segmentDuration, n);
    n
  }

  lemma MulRealMonotone(a: real, b: real, c: real)
    requires a <= b && c >= 0.0
    ensures a * c <= b * c
  {
  }

  /** The least integer not below `duration / segmentDuration` is a segment
      count that reaches the end of the song, and one fewer does not. */
  lemma CeilOfQuotient(duration: real, segmentDuration: nat, n: int)
    requires duration >= 0.0 && segmentDuration > 0
    requires duration / segmentDuration as real <= n as real < duration / segmentDuration as real + 1.0
    ensures n >= 0
    ensures duration <= (n * segmentDuration) as real
    ensures n == 0 || ((n - 1) * segmentDuration) as real < duration
  {
    var seg := segmentDuration as real;
    var q := duration / seg;
    assert q * seg == duration;
    assert (n * segmentDuration) as real == n as real * seg;
    MulRealMonotone(q, n as real, seg);
    if n > 0 {
      assert ((n - 1) * segmentDuration) as real == (n - 1) as real * seg;
      assert (n - 1) as real < q;
      assert (n - 1) as real * seg < q * seg;
    }
  }

  /** A song of positive length has at least one window, a silent one none. */
  lemma NumSegmentsPositive(duration: real, segmentDuration: nat)
    requires duration >= 0.0 && segmentDuration > 0
    ensures NumSegments(duration, segmentDuration) >= 1 <==> duration > 0.0
  {
  }

  /** Window `i`: it starts at `i * segmentDuration` and ends one segment
      later, clipped to the end of the song. */
  function WindowAt(duration: real, segmentDuration: nat, i: nat): Window
  {
    Window((i * segmentDuration) as real, MinReal(((i + 1) * segmentDuration) as real, duration))
  }

  /** The outro test of the loop: the last window, with strictly between zero
      and half a segment of song left from its start. */
  predicate IsOutroAt(duration: real, segmentDuration: nat, numSegments: nat, i: nat)
  {
    var remaining := duration - (i * segmentDuration) as real;
    i + 1 == numSegments && remaining < segmentDuration as real / 2.0 && remaining > 0.0
  }

  /** `lines.filter(line => line.trim() !== '')`; a line trims to the empty
      string exactly when it is blank (`TrimEmptyIffBlank`), which is the
      test written here. */
  function KeepNonBlank(lines: seq<string>): (kept: seq<string>)
    ensures |kept| <= |lines|
    ensures forall i :: 0 <= i < |kept| ==> !IsBlank(kept[i])
  {
    if |lines| == 0 then []
    else (if !IsBlank(lines[0]) then [lines[0]] else []) + KeepNonBlank(lines[1..])
  }

  /** The filter keeps exactly the lines whose trimmed form is not empty,
      untrimmed. */
  lemma {:induction false} KeepNonBlankMembers(lines: seq<string>)
    ensures forall x :: x in KeepNonBlank(lines) <==> x in lines && Trim(x) != []
    decreases |lines|
  {
    if |lines| > 0 {
      KeepNonBlankMembers(lines[1..]);
      TrimEmptyIffBlank(lines[0]);
      assert lines == [lines[0]] + lines[1..];
    }
  }

  /** The filter keeps relative order: filtering a concatenation filters each part. */
  lemma {:induction false} KeepNonBlankAppend(a: seq<string>, b: seq<string>)
    ensures KeepNonBlank(a + b) == KeepNonBlank(a) + KeepNonBlank(b)
    decreases |a|
  {
    if |a| > 0 {
      assert (a + b)[1..] == a[1..] + b;
      KeepNonBlankAppend(a[1..], b);
    } else {
      assert a + b == b;
    }
  }

  /** `lyrics.split('\n').filter(line => line.trim() !== '')`. */
  function LyricLines(lyrics: string): (lines: seq<string>)
    ensures forall i :: 0 <= i < |lines| ==> '\n' !in lines[i] && !IsBlank(lines[i])
  {
    var pieces := Split(lyrics, '\n');
    var kept := KeepNonBlank(pieces);
    KeepNonBlankMembers(pieces);
    assert forall i :: 0 <= i < |kept| ==> kept[i] in kept;
    kept
  }

  /** A list of blank lines filters down to nothing. */
  lemma {:induction false} KeepNonBlankOfBlanks(lines: seq<string>)
    requires forall i :: 0 <= i < |lines| ==> IsBlank(lines[i])
    ensures KeepNonBlank(lines) == []
    decreases |lines|
  {
    if |lines| > 0 {
      KeepNonBlankOfBlanks(lines[1..]);
    }
  }

  /** Lyrics made of whitespace alone yield no lines at all. */
  lemma BlankLyricsHaveNoLines(lyrics: string)
    requires IsBlank(lyrics)
    ensures LyricLines(lyrics) == []
  {
    var pieces := Split(lyrics, '\n');
    forall i | 0 <= i < |pieces|
      ensures IsBlank(pieces[i])
    {
      forall j | 0 <= j < |pieces[i]|
        ensures IsWhitespace(pieces[i][j])
      {
        SplitKeepsCharacters(lyrics, '\n', i, j);
      }
    }
    KeepNonBlankOfBlanks(pieces);
  }

  lemma ExampleLyricsSplit()
    ensures Split("a\nb\n\nc", '\n') == ["a", "b", "", "c"]
  {
    SplitWithoutSeparator("c", '\n');
    SplitAfterHead("", '\n', "c");
    assert "" + ['\n'] + "c" == "\nc";
    SplitAfterHead("b", '\n', "\nc");
    assert "b" + ['\n'] + "\nc" == "b\n\nc";
    SplitAfterHead("a", '\n', "b\n\nc");
    assert "a" + ['\n'] + "b\n\nc" == "a\nb\n\nc";
  }

  lemma KeepNonBlankCons(x: string, rest: seq<string>)
    ensures KeepNonBlank([x] + rest) == (if !IsBlank(x) then [x] else []) + KeepNonBlank(rest)
  {
    assert ([x] + rest)[1..] == rest;
  }

  /** The blank line of "a\nb\n\nc" is dropped; the others keep their order. */
  lemma LyricLinesExample()
    ensures LyricLines("a\nb\n\nc") == ["a", "b", "c"]
  {
    ExampleLyricsSplit();
    ExampleLinesKept();
  }

  lemma ExampleLinesKept()
    ensures KeepNonBlank(["a", "b", "", "c"]) == ["a", "b", "c"]
  {
    assert "a"[0] == 'a' && "b"[0] == 'b' && "c"[0] == 'c';
    KeepNonBlankDropsBlankThird("a", "b", "c");
  }

  lemma KeepNonBlankDropsBlankThird(a: string, b: string, c: string)
    requires !IsBlank(a) && !IsBlank(b) && !IsBlank(c)
    ensures KeepNonBlank([a, b, "", c]) == [a, b, c]
  {
    KeepNonBlankCons(c, []);
    KeepNonBlankCons("", [c]);
    KeepNonBlankCons(b, ["", c]);
    KeepNonBlankCons(a, [b, "", c]);
    assert [a] + [b, "", c] == [a, b, "", c];
    assert [b] + ["", c] == [b, "", c];
    assert [""] + [c] == ["", c];
    assert [c] + [] == [c];
  }

  /** `Math.max(1, Math.floor(totalLines / numSegments))`. */
  function LinesPerSegment(totalLines: nat, numSegments: nat): (lps: nat)
    requires numSegments >= 1
    ensures lps >= 1
    ensures totalLines >= numSegments ==> lps * numSegments <= totalLines < (lps + 1) * numSegments
    ensures totalLines < numSegments ==> lps == 1
  {
    var q := totalLines / numSegments;
    if q < 1 then 1 else q
  }

  /** `s.slice(from, to)` for non-negative bounds: both are clamped to the length. */
  function Slice<T>(s: seq<T>, from: nat, to: nat): seq<T>
  {
    var lo := Min(from, |s|);
    var hi := Min(to, |s|);
    if lo <= hi then s[lo..hi] else []
  }

  /** Where chunk `i` starts and ends in the line list, once clamped. */
  function ChunkStart(totalLines: nat, lps: nat, i: nat): nat
  {
    Min(i * lps, totalLines)
  }

  function ChunkEnd(totalLines: nat, lps: nat, i: nat): nat
  {
    Min((i + 1) * lps, totalLines)
  }

  /** `lyricLines.slice(i * lps, (i + 1) * lps)`. */
  function Chunk(lines: seq<string>, lps: nat, i: nat): (chunk: seq<string>)
    ensures chunk == lines[ChunkStart(|lines|, lps, i)..ChunkEnd(|lines|, lps, i)]
  {
    Slice(lines, i * lps, (i + 1) * lps)
  }

  /** The loop of `handleGenerate`: one request per window, in window order. */
  function Plan(duration: real, segmentDuration: nat, lyrics: string): (plan: seq<SegmentRequest>)
    requires duration >= 0.0 && segmentDuration > 0
    ensures |plan| == NumSegments(duration, segmentDuration)
  {
    var n := NumSegments(duration, segmentDuration);
    var lines := LyricLines(lyrics);
    if n == 0 then []
    else
      var lps := LinesPerSegment(|lines|, n);
      seq(n, i requires 0 <= i < n =>
        SegmentRequest(WindowAt(duration, segmentDuration, i),
                       Chunk(lines, lps, i),
                       IsOutroAt(duration, segmentDuration, n, i)))
  }

  /** The lines per segment the plan used for these inputs. */
  function PlanLinesPerSegment(duration: real, segmentDuration: nat, lyrics: string): nat
    requires duration > 0.0 && segmentDuration > 0
  {
    LinesPerSegment(|LyricLines(lyrics)|, NumSegments(duration, segmentDuration))
  }

  /** All lyric lines a plan sends, segment after segment. */
  function SentLines(plan: seq<SegmentRequest>): seq<string>
  {
    if |plan| == 0 then [] else SentLines(plan[..|plan| - 1]) + plan[|plan| - 1].lines
  }

  /** A silent song is planned as no segments at all. */
  lemma PlanOfSilence(segmentDuration: nat, lyrics: string)
    requires segmentDuration > 0
    ensures Plan(0.0, segmentDuration, lyrics) == []
  {
  }

  lemma MulMonotone(a: nat, b: nat, c: nat)
    requires a <= b
    ensures a * c <= b * c
  {
  }

  /** Window `i` of a song of positive length is non-empty and inside the song. */
  lemma WindowInSong(duration: real, segmentDuration: nat, i: nat)
    requires duration > 0.0 && segmentDuration > 0
    requires i < NumSegments(duration, segmentDuration)
    ensures 0.0 <= WindowAt(duration, segmentDuration, i).startTime
    ensures WindowAt(duration, segmentDuration, i).startTime < WindowAt(duration, segmentDuration, i).endTime
    ensures WindowAt(duration, segmentDuration, i).endTime <= duration
  {
    MulMonotone(i, NumSegments(duration, segmentDuration) - 1, segmentDuration);
  }

  /** Consecutive windows meet: each ends where the next one starts. */
  lemma WindowsMeet(duration: real, segmentDuration: nat, i: nat)
    requires duration > 0.0 && segmentDuration > 0
    requires i + 1 < NumSegments(duration, segmentDuration)
    ensures WindowAt(duration, segmentDuration, i).endTime
         == WindowAt(duration, segmentDuration, i + 1).startTime
  {
    MulMonotone(i + 1, NumSegments(duration, segmentDuration) - 1, segmentDuration);
  }

  /** The plan's element `i`, spelled out. */
  lemma PlanAt(duration: real, segmentDuration: nat, lyrics: string, i: nat)
    requires duration > 0.0 && segmentDuration > 0
    requires i < NumSegments(duration, segmentDuration)
    ensures Plan(duration, segmentDuration, lyrics)[i]
         == SegmentRequest(WindowAt(duration, segmentDuration, i),
                           Chunk(LyricLines(lyrics), PlanLinesPerSegment(duration, segmentDuration, lyrics), i),
                           IsOutroAt(duration, segmentDuration, NumSegments(duration, segmentDuration), i))
  {
  }

  /** The windows start at 0, follow each other without gap or overlap, each
      is non-empty and inside the song, and the last one ends exactly at the
      end of the song. */
  lemma PlanWindows(duration: real, segmentDuration: nat, lyrics: string)
    requires duration > 0.0 && segmentDuration > 0
    ensures var plan := Plan(duration, segmentDuration, lyrics);
      && |plan| >= 1
      && plan[0].window.startTime == 0.0
      && plan[|plan| - 1].window.endTime == duration
      && (forall i :: 0 <= i < |plan| ==> plan[i].window.startTime == (i * segmentDuration) as real)
      && (forall i :: 0 <= i < |plan| ==>
            0.0 <= plan[i].window.startTime < plan[i].window.endTime <= duration)
      && (forall i :: 0 <= i < |plan| - 1 ==> plan[i].window.endTime == plan[i + 1].window.startTime)
  {
    var plan := Plan(duration, segmentDuration, lyrics);
    var n := |plan|;
    forall i | 0 <= i < n
      ensures plan[i].window == WindowAt(duration, segmentDuration, i)
      ensures 0.0 <= plan[i].window.startTime < plan[i].window.endTime <= duration
    {
      PlanAt(duration, segmentDuration, lyrics, i);
      WindowInSong(duration, segmentDuration, i);
    }
    forall i | 0 <= i < n - 1
      ensures plan[i].window.endTime == plan[i + 1].window.startTime
    {
      WindowsMeet(duration, segmentDuration, i);
    }
  }

  /** The `remainingTime > 0` half of the outro test never fails on the last
      window of a song of positive length. */
  lemma LastWindowHasTimeLeft(duration: real, segmentDuration: nat)
    requires duration > 0.0 && segmentDuration > 0
    ensures duration - ((NumSegments(duration, segmentDuration) - 1) * segmentDuration) as real > 0.0
  {
  }

  /** Only the last window can be the outro, and it is exactly when it is
      shorter than half a segment. */
  lemma PlanOutro(duration: real, segmentDuration: nat, lyrics: string)
    requires duration >= 0.0 && segmentDuration > 0
    ensures var plan := Plan(duration, segmentDuration, lyrics);
      && (forall i :: 0 <= i < |plan| && plan[i].isOutro ==> i == |plan| - 1)
      && (|plan| > 0 ==>
            (plan[|plan| - 1].isOutro <==>
             plan[|plan| - 1].window.endTime - plan[|plan| - 1].window.startTime
               < segmentDuration as real / 2.0))
  {
    var plan := Plan(duration, segmentDuration, lyrics);
    if |plan| > 0 {
      PlanWindows(duration, segmentDuration, lyrics);
    }
  }

  /** Each segment of the plan carries its chunk of the lyric lines. */
  lemma PlanLines(duration: real, segmentDuration: nat, lyrics: string)
    requires duration > 0.0 && segmentDuration > 0
    ensures var plan := Plan(duration, segmentDuration, lyrics);
      var lines := LyricLines(lyrics);
      var lps := PlanLinesPerSegment(duration, segmentDuration, lyrics);
      forall i :: 0 <= i < |plan| ==> plan[i].lines == Chunk(lines, lps, i)
  {
    var plan := Plan(duration, segmentDuration, lyrics);
    forall i | 0 <= i < |plan|
      ensures plan[i].lines
           == Chunk(LyricLines(lyrics), PlanLinesPerSegment(duration, segmentDuration, lyrics), i)
    {
      PlanAt(duration, segmentDuration, lyrics, i);
    }
  }

  /** An earlier chunk ends no later than a later one starts. */
  lemma ChunksInOrder(totalLines: nat, lps: nat, i: nat, j: nat)
    requires i < j
    ensures ChunkEnd(totalLines, lps, i) <= ChunkStart(totalLines, lps, j)
  {
    MulMonotone(i + 1, j, lps);
  }

  /** Chunk `i` is the clamped range `[i * lps, (i + 1) * lps)` of the line
      list; the ranges are in order and never overlap; a segment whose range
      starts past the last line gets no lyrics. */
  lemma PlanChunks(duration: real, segmentDuration: nat, lyrics: string)
    requires duration > 0.0 && segmentDuration > 0
    ensures var plan := Plan(duration, segmentDuration, lyrics);
      var lines := LyricLines(lyrics);
      var lps := PlanLinesPerSegment(duration, segmentDuration, lyrics);
      && lps >= 1
      && (forall i :: 0 <= i < |plan| ==>
            plan[i].lines == lines[ChunkStart(|lines|, lps, i)..ChunkEnd(|lines|, lps, i)])
      && (forall i, j :: 0 <= i < j < |plan| ==>
            ChunkEnd(|lines|, lps, i) <= ChunkStart(|lines|, lps, j))
      && (forall i :: 0 <= i < |plan| && i * lps >= |lines| ==> plan[i].lines == [])
  {
    var plan := Plan(duration, segmentDuration, lyrics);
    var lines := LyricLines(lyrics);
    var lps := PlanLinesPerSegment(duration, segmentDuration, lyrics);
    PlanLines(duration, segmentDuration, lyrics);
    forall i: nat, j: nat | i < j
      ensures ChunkEnd(|lines|, lps, i) <= ChunkStart(|lines|, lps, j)
    {
      ChunksInOrder(|lines|, lps, i, j);
    }
  }

  /** Appending chunk `k` to the first `k * lps` lines gives the first `(k + 1) * lps`. */
  lemma ChunkExtendsPrefix(lines: seq<string>, lps: nat, k: nat)
    ensures lines[..Min(|lines|, k * lps)] + Chunk(lines, lps, k) == lines[..Min(|lines|, (k + 1) * lps)]
  {
    MulMonotone(k, k + 1, lps);
  }

  /** When segment `i` carries chunk `i` for every `i`, the first `k` segments
      together send exactly the first `k * lps` lines (or all of them, if
      there are fewer). */
  lemma {:induction false} SentChunks(plan: seq<SegmentRequest>, lines: seq<string>, lps: nat, k: nat)
    requires k <= |plan|
    requires forall i :: 0 <= i < |plan| ==> plan[i].lines == Chunk(lines, lps, i)
    ensures SentLines(plan[..k]) == lines[..Min(|lines|, k * lps)]
    decreases k
  {
    if k > 0 {
      SentChunks(plan, lines, lps, k - 1);
      assert plan[..k][..k - 1] == plan[..k - 1];
      assert plan[..k][k - 1] == plan[k - 1];
      ChunkExtendsPrefix(lines, lps, k - 1);
    }
  }

  /** The lyrics that reach the generator are the first `n * lps` lines; when
      `lps` does not divide the line count evenly the rest are never sent. */
  lemma PlanSendsPrefix(duration: real, segmentDuration: nat, lyrics: string)
    requires duration > 0.0 && segmentDuration > 0
    ensures var plan := Plan(duration, segmentDuration, lyrics);
      var lines := LyricLines(lyrics);
      var lps := PlanLinesPerSegment(duration, segmentDuration, lyrics);
      && SentLines(plan) == lines[..Min(|lines|, |plan| * lps)]
      && (|SentLines(plan)| < |lines| <==> |plan| * lps < |lines|)
  {
    var plan := Plan(duration, segmentDuration, lyrics);
    var lines := LyricLines(lyrics);
    var lps := PlanLinesPerSegment(duration, segmentDuration, lyrics);
    PlanLines(duration, segmentDuration, lyrics);
    SentChunks(plan, lines, lps, |plan|);
    assert plan[..|plan|] == plan;
  }

  /** The arithmetic of the remainder: with at least as many lines as
      segments fewer than `n` are left over; with fewer, none are. */
  lemma RemainderBound(totalLines: nat, n: nat)
    requires n >= 1
    ensures var lps := LinesPerSegment(totalLines, n);
      && (totalLines >= n ==> totalLines - Min(totalLines, n * lps) < n)
      && (totalLines < n ==> lps == 1 && Min(totalLines, n * lps) == totalLines)
  {
    var lps := LinesPerSegment(totalLines, n);
    assert n * lps == lps * n;
  }

  /** Fewer than one line per segment is ever left unsent; with fewer lines
      than segments every line is sent and the trailing segments get none. */
  lemma PlanRemainder(duration: real, segmentDuration: nat, lyrics: string)
    requires duration > 0.0 && segmentDuration > 0
    ensures var plan := Plan(duration, segmentDuration, lyrics);
      var lines := LyricLines(lyrics);
      && (|lines| >= |plan| ==> |lines| - |SentLines(plan)| < |plan|)
      && (|lines| < |plan| ==>
            && SentLines(plan) == lines
            && forall i :: |lines| <= i < |plan| ==> plan[i].lines == [])
  {
    var plan := Plan(duration, segmentDuration, lyrics);
    var lines := LyricLines(lyrics);
    PlanSendsPrefix(duration, segmentDuration, lyrics);
    PlanChunks(duration, segmentDuration, lyrics);
    RemainderBound(|lines|, |plan|);
    if |lines| < |plan| {
      assert lines[..|lines|] == lines;
    }
  }

  /** The text sent for a segment carries exactly its lines: splitting it at
      line breaks gives them back, and a segment without lines sends "". */
  lemma PlanLyricsChunkRoundTrip(duration: real, segmentDuration: nat, lyrics: string, i: nat)
    requires duration > 0.0 && segmentDuration > 0
    requires i < NumSegments(duration, segmentDuration)
    ensures var req := Plan(duration, segmentDuration, lyrics)[i];
      && (req.lines == [] <==> req.LyricsChunk() == [])
      && (req.lines != [] ==> Split(req.LyricsChunk(), '\n') == req.lines)
  {
    var req := Plan(duration, segmentDuration, lyrics)[i];
    PlanChunks(duration, segmentDuration, lyrics);
    var lines := req.lines;
    assert forall k :: 0 <= k < |lines| ==> '\n' !in lines[k] && !IsBlank(lines[k]);
    if lines != [] {
      SplitJoin(lines, '\n');
      assert lines[0] != [];
      JoinStartsWithFirst(lines, '\n');
    }
  }

  /** Lyrics that are only whitespace send every segment without lyrics. */
  lemma PlanOfBlankLyrics(duration: real, segmentDuration: nat, lyrics: string)
    requires duration >= 0.0 && segmentDuration > 0
    requires IsBlank(lyrics)
    ensures var plan := Plan(duration, segmentDuration, lyrics);
      forall i :: 0 <= i < |plan| ==> plan[i].lines == []
  {
    BlankLyricsHaveNoLines(lyrics);
  }

  /** Twenty-two seconds cut into ten-second segments: [0,10], [10,20] and a
      two-second outro [20,22]. */
  lemma PlanExample(lyrics: string)
    ensures var plan := Plan(22.0, 10, lyrics);
      && |plan| == 3
      && plan[0].window == Window(0.0, 10.0) && !plan[0].isOutro
      && plan[1].window == Window(10.0, 20.0) && !plan[1].isOutro
      && plan[2].window == Window(20.0, 22.0) && plan[2].isOutro
  {
    assert NumSegments(22.0, 10) == 3;
  }
}
