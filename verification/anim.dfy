/**
 * `parseInputFile` and `worldToCanvas` of anim/main.js: the animation's
 * reader of the snapshot file, which warns about every line it skips, and
 * the map from world coordinates to canvas pixels.
 */
module Anim {
  import opened JsText
  import opened Snapshot

  /** The `console.warn` calls of the reader, with the 1-based position of
      the line in the list of non-empty lines. */
  datatype Warning =
    | NotHeader(line: nat, text: string)    // a line outside any frame
    | NotNumeric(line: nat, text: string)   // five fields, one of them NaN
    | BadFormat(line: nat, text: string)    // fewer than five fields

  /** The warnings for the line at index `k`; `seen` tells whether a header
      came before it. */
  function LineWarnings(c: Line, k: nat, seen: bool): seq<Warning> {
    if c.HeaderLine? then []
    else if !seen then [NotHeader(k + 1, c.text)]
    else if c.row.Some? then []
    else if |Fields(c.text)| < 5 then [BadFormat(k + 1, c.text)]
    else [NotNumeric(k + 1, c.text)]
  }

  /** The reference list of warnings for the lines `cs`, the first of which
      is at index `k`. */
  function WarningsOf(cs: seq<Line>, k: nat, seen: bool): seq<Warning>
    decreases |cs|
  {
    if cs == [] then []
    else LineWarnings(cs[0], k, seen) + WarningsOf(cs[1..], k + 1, seen || cs[0].HeaderLine?)
  }

  /** `parseInputFile`, the contents of the file given as `text`: the
      frames it reads are the reference reading, and it warns about every
      line it skips. */
  method ParseInputFile(text: string) returns (frames: seq<Frame>, warnings: seq<Warning>)
    ensures frames == FramesOf(Classified(Lines(text)))
    ensures warnings == WarningsOf(Classified(Lines(text)), 0, false)
  {
    var lines := Lines(text);
    ghost var cs := Classified(lines);
    frames, warnings := [], [];
    var i := 0;
    ghost var seen := false;
    while i < |lines|
      invariant FileSoFar(cs, i, seen, frames, warnings)
      decreases |lines| - i
    {
      var headerMatch := MatchHeader(lines[i]);
      if headerMatch.None? {
        SkipStep(lines, cs, i, seen, frames, warnings);
        warnings := warnings + [NotHeader(i + 1, lines[i])];
        i := i + 1;
        continue;
      }
      frames, warnings, i := ReadFrame(lines, i, cs, seen, frames, warnings);
      seen := true;
    }
    assert cs[i..] == [];
  }

  /** The invariant of the outer loop: `frames` with the reading of the
      lines from `i` on is the reading of all lines, and so for the
      warnings; once a frame is open, `i` is at a header or the end. */
  ghost predicate FileSoFar(cs: seq<Line>, i: nat, seen: bool, frames: seq<Frame>, warnings: seq<Warning>) {
    i <= |cs| && FramesOf(cs) == frames + FramesOf(cs[i..]) &&
    WarningsOf(cs, 0, false) == warnings + WarningsOf(cs[i..], i, seen) &&
    (seen ==> i == |cs| || cs[i].HeaderLine?)
  }

  /** The outer loop at a line that is not a header: it can only come
      before the first header, and it is warned about. */
  lemma SkipStep(lines: seq<string>, cs: seq<Line>, i: nat, seen: bool, frames: seq<Frame>, warnings: seq<Warning>)
    requires cs == Classified(lines) && i < |lines| && !IsHeader(lines[i])
    requires FileSoFar(cs, i, seen, frames, warnings)
    ensures FileSoFar(cs, i + 1, seen, frames, warnings + [NotHeader(i + 1, lines[i])])
  {
    LineAt(lines, i);
    SkipFrames(cs, i);
    SkipWarning(cs, i, seen);
    Associates(warnings, [NotHeader(i + 1, lines[i])], WarningsOf(cs[i + 1..], i + 1, seen));
  }

  /** The outer loop at a header: the frame it opens, read by the inner
      loop up to the next header or the end. */
  method ReadFrame(lines: seq<string>, h: nat, ghost cs: seq<Line>, ghost seen: bool,
                   frames: seq<Frame>, warnings: seq<Warning>)
    returns (frames': seq<Frame>, warnings': seq<Warning>, i: nat)
    requires cs == Classified(lines) && h < |lines| && IsHeader(lines[h])
    requires FileSoFar(cs, h, seen, frames, warnings)
    ensures h < i && FileSoFar(cs, i, true, frames', warnings')
  {
    var headerMatch := MatchHeader(lines[h]).value;
    var t := ParseFloat(headerMatch.0);
    var flowTotal := ParseInt(headerMatch.1);
    HeaderAt(lines, h);
    HeaderStep(cs, h, seen);
    var particles, bodyWarnings;
    particles, i, bodyWarnings := ReadFrameBody(lines, h + 1, cs);
    Associates(warnings, bodyWarnings, WarningsOf(cs[i..], i, true));
    warnings' := warnings + bodyWarnings;
    CloseFrame(cs, h, i);
    Associates(frames, [Frame(t, flowTotal, particles)], FramesOf(cs[i..]));
    frames' := frames + [Frame(t, flowTotal, particles)];
  }

  /** The inner loop: the lines from `start` up to the next header or the
      end, the particles they record and the warnings they draw. */
  method ReadFrameBody(lines: seq<string>, start: nat, ghost cs: seq<Line>)
    returns (particles: seq<ParticleRow>, i: nat, warnings: seq<Warning>)
    requires cs == Classified(lines) && start <= |lines|
    ensures BodySoFar(cs, start, i, particles, warnings)
    ensures i == |lines| || cs[i].HeaderLine?
  {
    particles, i, warnings := [], start, [];
    BodyStart(cs, start);
    while i < |lines| && !IsHeader(lines[i])
      invariant BodySoFar(cs, start, i, particles, warnings)
      decreases |lines| - i
    {
      particles, warnings := ReadBodyLine(lines, start, i, cs, particles, warnings);
      i := i + 1;
    }
    if i < |lines| {
      LineAt(lines, i);
    }
  }

  /** The invariant of the inner loop: the lines from `start` to `i` are
      not headers, `particles` are what they record, and `warnings` with
      the warnings from `i` on are the warnings from `start` on. */
  ghost predicate BodySoFar(cs: seq<Line>, start: nat, i: nat, particles: seq<ParticleRow>, warnings: seq<Warning>) {
    start <= i <= |cs| && NoHeader(cs[start..i]) && particles == ParticlesOf(cs[start..i]) &&
    WarningsOf(cs[start..], start, true) == warnings + WarningsOf(cs[i..], i, true)
  }

  /** The inner loop starts with nothing read. */
  lemma BodyStart(cs: seq<Line>, start: nat)
    requires start <= |cs|
    ensures BodySoFar(cs, start, start, [], [])
  {
    assert cs[start..start] == [];
  }

  /** One turn of the inner loop keeps its invariant: the line at `i`
      adds what it records to the particles and what it draws to the
      warnings. */
  lemma BodyLineStep(cs: seq<Line>, start: nat, i: nat, p0: seq<ParticleRow>, w0: seq<Warning>,
                     p1: seq<ParticleRow>, w1: seq<Warning>)
    requires start <= i < |cs| && cs[i].OtherLine?
    requires p0 == ParticlesOf(cs[start..i]) && NoHeader(cs[start..i])
    requires WarningsOf(cs[start..], start, true) == w0 + WarningsOf(cs[i..], i, true)
    requires p1 == p0 + Recorded(cs[i]) && w1 == w0 + LineWarnings(cs[i], i, true)
    ensures p1 == ParticlesOf(cs[start..i + 1]) && NoHeader(cs[start..i + 1])
    ensures WarningsOf(cs[start..], start, true) == w1 + WarningsOf(cs[i + 1..], i + 1, true)
  {
    WarningStep(cs, i, true);
    BodyStep(cs, start, i);
    Associates(w0, LineWarnings(cs[i], i, true), WarningsOf(cs[i + 1..], i + 1, true));
  }

  /** The body of the inner loop: the fields of line `i`, its particle
      pushed when there are five of them and none is NaN, a warning
      otherwise. */
  method ReadBodyLine(lines: seq<string>, ghost start: nat, i: nat, ghost cs: seq<Line>,
                      particles: seq<ParticleRow>, warnings: seq<Warning>)
    returns (particles': seq<ParticleRow>, warnings': seq<Warning>)
    requires cs == Classified(lines) && i < |lines| && !IsHeader(lines[i])
    requires BodySoFar(cs, start, i, particles, warnings)
    ensures BodySoFar(cs, start, i + 1, particles', warnings')
  {
    particles', warnings' := ReadLine(lines, i, cs, particles, warnings);
    BodyLineStep(cs, start, i, particles, warnings, particles', warnings');
  }

  /** What one line inside a frame adds to the particles and the
      warnings. */
  method ReadLine(lines: seq<string>, i: nat, ghost cs: seq<Line>,
                  particles: seq<ParticleRow>, warnings: seq<Warning>)
    returns (particles': seq<ParticleRow>, warnings': seq<Warning>)
    requires cs == Classified(lines) && i < |lines| && !IsHeader(lines[i])
    ensures cs[i].OtherLine?
    ensures particles' == particles + Recorded(cs[i])
    ensures warnings' == warnings + LineWarnings(cs[i], i, true)
  {
    LineAt(lines, i);
    ClassifiedAt(lines, i);
    particles', warnings' := particles, warnings;
    var parts := Fields(lines[i]);
    if |parts| >= 5 {
      var x := ParseFloat(parts[0]);
      var y := ParseFloat(parts[1]);
      var vx := ParseFloat(parts[2]);
      var vy := ParseFloat(parts[3]);
      var r := ParseFloat(parts[4]);
      if !(x.NaN? || y.NaN? || vx.NaN? || vy.NaN? || r.NaN?) {
        particles' := particles + [ParticleRow(x, y, vx, vy, r)];
      } else {
        warnings' := warnings + [NotNumeric(i + 1, lines[i])];
      }
    } else {
      warnings' := warnings + [BadFormat(i + 1, lines[i])];
    }
  }

  /** The step past a header at the top of the loop: it draws no warning,
      and the lines after it are inside a frame. */
  lemma HeaderStep(cs: seq<Line>, i: nat, seen: bool)
    requires i < |cs| && cs[i].HeaderLine?
    ensures WarningsOf(cs[i..], i, seen) == WarningsOf(cs[i + 1..], i + 1, true)
  {
    WarningStep(cs, i, seen);
  }

  /** The step past a line that is not a header at the top of the loop:
      it draws the warning of a line outside any frame. */
  lemma SkipWarning(cs: seq<Line>, i: nat, seen: bool)
    requires i < |cs| && cs[i].OtherLine? && !seen
    ensures WarningsOf(cs[i..], i, seen) == [NotHeader(i + 1, cs[i].text)] + WarningsOf(cs[i + 1..], i + 1, seen)
  {
    assert cs[i..][1..] == cs[i + 1..];
  }

  /** The warnings from index `i` on: those of line `i`, then the rest. */
  lemma WarningStep(cs: seq<Line>, i: nat, seen: bool)
    requires i < |cs|
    ensures WarningsOf(cs[i..], i, seen) == LineWarnings(cs[i], i, seen) + WarningsOf(cs[i + 1..], i + 1, seen || cs[i].HeaderLine?)
  {
    assert cs[i..][1..] == cs[i + 1..];
  }

  // ---------------------------------------------------------------
  // Every line is accounted for
  // ---------------------------------------------------------------

  /** The particles of all frames, in order. */
  function AllParticles(fs: seq<Frame>): seq<ParticleRow> {
    if fs == [] then [] else fs[0].particles + AllParticles(fs[1..])
  }

  /** How many headers, particles and warnings the lines `cs`, the first
      at index `k`, give. */
  function Tally(cs: seq<Line>, k: nat): nat {
    |Headers(cs)| + |AllParticles(FramesOf(cs))| + |WarningsOf(cs, k, false)|
  }

  /** Every line of the file is a header, a particle of a frame, or the
      subject of exactly one warning, and of only one of these. */
  lemma {:induction false} EveryLineAccounted(cs: seq<Line>, k: nat)
    ensures Tally(cs, k) == |cs|
    decreases |cs|
  {
    if cs == [] {
    } else if cs[0].OtherLine? {
      EveryLineAccounted(cs[1..], k + 1);
      OutsideLine(cs, k);
    } else {
      var n := BodyLen(cs[1..]);
      EveryLineAccounted(cs[1 + n..], k + 1 + n);
      FrameAccounted(cs, k, n);
    }
  }

  /** The step of `EveryLineAccounted` at a header: the header, its body
      and the rest, given that the rest is accounted for. */
  lemma FrameAccounted(cs: seq<Line>, k: nat, n: nat)
    requires cs != [] && cs[0].HeaderLine? && n == BodyLen(cs[1..])
    requires Tally(cs[1 + n..], k + 1 + n) == |cs| - 1 - n
    ensures Tally(cs, k) == |cs|
  {
    FrameParts(cs, k, n);
    ParticlesOfFrame(cs, n);
    BodyAccounted(cs[1..1 + n], k + 1);
  }

  /** The headers and warnings of a file that starts with a header: those
      of its first body, then those of the rest. */
  lemma FrameParts(cs: seq<Line>, k: nat, n: nat)
    requires cs != [] && cs[0].HeaderLine? && n == BodyLen(cs[1..])
    ensures NoHeader(cs[1..1 + n])
    ensures |Headers(cs)| == 1 + |Headers(cs[1 + n..])|
    ensures |WarningsOf(cs, k, false)| == |WarningsOf(cs[1..1 + n], k + 1, true)| + |WarningsOf(cs[1 + n..], k + 1 + n, false)|
  {
    var body, rest := cs[1..1 + n], cs[1 + n..];
    LeadingBody(cs, n);
    TailSplit(cs, n);
    HeadersOfFrame(cs, body, rest);
    WarningsOfFrame(cs, k, body, rest);
  }

  /** The step of `EveryLineAccounted` at a line before the first header:
      it opens no frame and draws one warning. */
  lemma OutsideLine(cs: seq<Line>, k: nat)
    requires cs != [] && cs[0].OtherLine?
    requires Tally(cs[1..], k + 1) == |cs| - 1
    ensures Tally(cs, k) == |cs|
  {
    assert Headers(cs) == Headers(cs[1..]);
    assert FramesOf(cs) == FramesOf(cs[1..]);
    assert |WarningsOf(cs, k, false)| == 1 + |WarningsOf(cs[1..], k + 1, false)|;
  }

  /** A header and the body after it hold one header. */
  lemma HeadersOfFrame(cs: seq<Line>, body: seq<Line>, rest: seq<Line>)
    requires cs != [] && cs[0].HeaderLine? && cs[1..] == body + rest && NoHeader(body)
    ensures |Headers(cs)| == 1 + |Headers(rest)|
  {
    HeadersAppend(body, rest);
    HeadersOfNoHeader(body);
  }

  /** The particles of a file that starts with a header: those of its
      first frame, then those of the rest. */
  lemma ParticlesOfFrame(cs: seq<Line>, n: nat)
    requires cs != [] && cs[0].HeaderLine? && n == BodyLen(cs[1..])
    ensures |AllParticles(FramesOf(cs))| == |ParticlesOf(cs[1..1 + n])| + |AllParticles(FramesOf(cs[1 + n..]))|
  {
    var f := Frame(cs[0].t, cs[0].flowTotal, ParticlesOf(cs[1..1 + n]));
    assert FramesOf(cs) == [f] + FramesOf(cs[1 + n..]);
    assert ([f] + FramesOf(cs[1 + n..]))[1..] == FramesOf(cs[1 + n..]);
  }

  /** The warnings of a file that starts with a header: those of its first
      body, then those of the rest. */
  lemma WarningsOfFrame(cs: seq<Line>, k: nat, body: seq<Line>, rest: seq<Line>)
    requires cs != [] && cs[0].HeaderLine? && cs[1..] == body + rest
    requires rest == [] || rest[0].HeaderLine?
    ensures |WarningsOf(cs, k, false)| == |WarningsOf(body, k + 1, true)| + |WarningsOf(rest, k + 1 + |body|, false)|
  {
    assert WarningsOf(cs, k, false) == WarningsOf(cs[1..], k + 1, true);
    WarningsAppendSeen(body, rest, k + 1);
    SeenIrrelevant(rest, k + 1 + |body|);
  }

  /** Once a header has been seen, warnings of consecutive stretches of
      lines follow one another. */
  lemma {:induction false} WarningsAppendSeen(a: seq<Line>, b: seq<Line>, k: nat)
    ensures WarningsOf(a + b, k, true) == WarningsOf(a, k, true) + WarningsOf(b, k + |a|, true)
    decreases |a|
  {
    if a == [] {
      assert a + b == b;
    } else {
      assert (a + b)[1..] == a[1..] + b;
      WarningsAppendSeen(a[1..], b, k + 1);
    }
  }

  /** At a header or the end, whether a header came before does not
      matter. */
  lemma SeenIrrelevant(b: seq<Line>, k: nat)
    requires b == [] || b[0].HeaderLine?
    ensures WarningsOf(b, k, true) == WarningsOf(b, k, false)
  {
  }

  /** Inside a frame, each line is recorded or warned about. */
  lemma {:induction false} BodyAccounted(body: seq<Line>, k: nat)
    requires NoHeader(body)
    ensures |WarningsOf(body, k, true)| + |ParticlesOf(body)| == |body|
    decreases |body|
  {
    if body != [] {
      var m := |body| - 1;
      var init, last := body[..m], body[m];
      assert body == init + [last];
      assert NoHeader(init);
      WarningsAppendSeen(init, [last], k);
      assert WarningsOf([last], k + m, true) == LineWarnings(last, k + m, true) by {
        assert [last][1..] == [];
      }
      LineAccounted(last, k + m);
      BodyAccounted(init, k);
    }
  }

  /** A line inside a frame is recorded or warned about, not both. */
  lemma LineAccounted(c: Line, k: nat)
    requires c.OtherLine?
    ensures |LineWarnings(c, k, true)| + |Recorded(c)| == 1
  {
  }

  // ---------------------------------------------------------------
  // worldToCanvas
  // ---------------------------------------------------------------

  /** The object `{ cx, cy, canvasW, canvasH }`. */
  datatype CanvasPoint = CanvasPoint(cx: real, cy: real, canvasW: real, canvasH: real)

  /** The margin around the drawing, in pixels. */
  const Margin := 20.0

  /** `Math.round`: the nearest integer, halves rounded up. */
  function Round(v: real): (n: int)
    ensures v - 0.5 < n as real <= v + 0.5
  {
    (v + 0.5).Floor
  }

  /** `worldToCanvas`: world origin at the bottom left of the silo, canvas
      origin at the top left, `scale` pixels per world unit. */
  function WorldToCanvas(x: real, y: real, width: real, height: real, scale: real): CanvasPoint {
    CanvasPoint(Margin + x * scale, Margin + (height - y) * scale,
                Round(width * scale) as real + Margin * 2.0,
                Round(height * scale) as real + Margin * 2.0)
  }

  /** The world point a canvas point shows. */
  function CanvasToWorld(cx: real, cy: real, height: real, scale: real): (real, real)
    requires scale != 0.0
  {
    ((cx - Margin) / scale, height - (cy - Margin) / scale)
  }

  /** The top of the silo, `y = height`, is drawn on the top margin. */
  lemma TopOnMargin(x: real, width: real, height: real, scale: real)
    ensures WorldToCanvas(x, height, width, height, scale).cy == Margin
  {
  }

  /** The floor, `y = 0`, is drawn within half a pixel of the bottom
      margin. */
  lemma FloorOnBottomMargin(x: real, width: real, height: real, scale: real)
    ensures var p := WorldToCanvas(x, 0.0, width, height, scale);
      p.canvasH - Margin - 0.5 <= p.cy < p.canvasH - Margin + 0.5
  {
    var n := Round(height * scale);
  }

  /** With a non-zero scale the map is one-to-one: the canvas point gives
      back the world point. */
  lemma CanvasRoundTrip(x: real, y: real, width: real, height: real, scale: real)
    requires scale != 0.0
    ensures var p := WorldToCanvas(x, y, width, height, scale);
      CanvasToWorld(p.cx, p.cy, height, scale) == (x, y)
  {
    var p := WorldToCanvas(x, y, width, height, scale);
    assert p.cx - Margin == x * scale && p.cy - Margin == (height - y) * scale;
    Cancel(x, scale);
    Cancel(height - y, scale);
    assert (p.cx - Margin) / scale == x;
    assert (p.cy - Margin) / scale == height - y;
  }

  /** Scaling by a non-zero factor and back gives the value again. */
  lemma Cancel(a: real, s: real)
    requires s != 0.0
    ensures a * s / s == a
  {
  }

  /** ... and every canvas point shows the world point it is drawn at. */
  lemma WorldRoundTrip(cx: real, cy: real, width: real, height: real, scale: real)
    requires scale != 0.0
    ensures var (x, y) := CanvasToWorld(cx, cy, height, scale);
      var p := WorldToCanvas(x, y, width, height, scale);
      p.cx == cx && p.cy == cy
  {
    var (x, y) := CanvasToWorld(cx, cy, height, scale);
    assert x * scale == cx - Margin;
    assert (height - y) * scale == cy - Margin;
  }

  /** With a positive scale the y axis is inverted and the x axis kept:
      higher points are drawn nearer the top. */
  lemma AxesOrientation(x1: real, y1: real, x2: real, y2: real, width: real, height: real, scale: real)
    requires scale > 0.0
    ensures var p, q := WorldToCanvas(x1, y1, width, height, scale), WorldToCanvas(x2, y2, width, height, scale);
      (x1 < x2 <==> p.cx < q.cx) && (y1 < y2 <==> p.cy > q.cy)
  {
    var p, q := WorldToCanvas(x1, y1, width, height, scale), WorldToCanvas(x2, y2, width, height, scale);
    assert q.cx - p.cx == (x2 - x1) * scale;
    assert p.cy - q.cy == (y2 - y1) * scale;
  }
}
