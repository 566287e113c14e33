/**
 * `parseInputFile` and `worldToCanvas` of src/main/java/anim/main.js, the
 * later animation script: the reader skips bad lines silently, and the
 * canvas is drawn `supersample` times larger to be scaled down afterwards.
 */
module AnimSupersample {
  import opened JsText
  import opened Snapshot
  import Anim

  /** `parseInputFile`, the contents of the file given as `text`: the
      frames it reads are the reference reading. */
  method ParseInputFile(text: string) returns (frames: seq<Frame>)
    ensures frames == FramesOf(Classified(Lines(text)))
  {
    var lines := Lines(text);
    ghost var cs := Classified(lines);
    frames := [];
    var i := 0;
    while i < |lines|
      invariant FileSoFar(cs, i, frames)
      decreases |lines| - i
    {
      var headerMatch := MatchHeader(lines[i]);
      if headerMatch.None? {
        LineAt(lines, i);
        SkipFrames(cs, i);
        i := i + 1;
        continue;
      }
      frames, i := ReadFrame(lines, i, cs, frames);
    }
    assert cs[i..] == [];
  }

  /** The invariant of the outer loop: `frames` with the reading of the
      lines from `i` on is the reading of all lines. */
  ghost predicate FileSoFar(cs: seq<Line>, i: nat, frames: seq<Frame>) {
    i <= |cs| && FramesOf(cs) == frames + FramesOf(cs[i..])
  }

  /** The outer loop at a header: the frame it opens, read by the inner
      loop up to the next header or the end. */
  method ReadFrame(lines: seq<string>, h: nat, ghost cs: seq<Line>, frames: seq<Frame>)
    returns (frames': seq<Frame>, i: nat)
    requires cs == Classified(lines) && h < |lines| && IsHeader(lines[h])
    requires FileSoFar(cs, h, frames)
    ensures h < i && FileSoFar(cs, i, frames')
  {
    var headerMatch := MatchHeader(lines[h]).value;
    var t := ParseFloat(headerMatch.0);
    var flowTotal := ParseInt(headerMatch.1);
    HeaderAt(lines, h);
    var particles;
    particles, i := ReadFrameBody(lines, h + 1, cs);
    CloseFrame(cs, h, i);
    Associates(frames, [Frame(t, flowTotal, particles)], FramesOf(cs[i..]));
    frames' := frames + [Frame(t, flowTotal, particles)];
  }

  /** The inner loop: the lines from `start` up to the next header or the
      end, and the particles they record. */
  method ReadFrameBody(lines: seq<string>, start: nat, ghost cs: seq<Line>)
    returns (particles: seq<ParticleRow>, i: nat)
    requires cs == Classified(lines) && start <= |lines|
    ensures BodySoFar(cs, start, i, particles)
    ensures i == |lines| || cs[i].HeaderLine?
  {
    particles, i := [], start;
    assert cs[start..start] == [];
    while i < |lines| && !IsHeader(lines[i])
      invariant BodySoFar(cs, start, i, particles)
      decreases |lines| - i
    {
      particles := ReadBodyLine(lines, start, i, cs, particles);
      i := i + 1;
    }
    if i < |lines| {
      LineAt(lines, i);
    }
  }

  /** The invariant of the inner loop: the lines from `start` to `i` are
      not headers and `particles` are what they record. */
  ghost predicate BodySoFar(cs: seq<Line>, start: nat, i: nat, particles: seq<ParticleRow>) {
    start <= i <= |cs| && NoHeader(cs[start..i]) && particles == ParticlesOf(cs[start..i])
  }

  /** The body of the inner loop: the fields of line `i`, its particle
      pushed when there are five of them and none is NaN, nothing
      otherwise. */
  method ReadBodyLine(lines: seq<string>, ghost start: nat, i: nat, ghost cs: seq<Line>,
                      particles: seq<ParticleRow>)
    returns (particles': seq<ParticleRow>)
    requires cs == Classified(lines) && i < |lines| && !IsHeader(lines[i])
    requires BodySoFar(cs, start, i, particles)
    ensures BodySoFar(cs, start, i + 1, particles')
  {
    LineAt(lines, i);
    ClassifiedAt(lines, i);
    particles' := particles;
    var parts := Fields(lines[i]);
    if |parts| >= 5 {
      var x := ParseFloat(parts[0]);
      var y := ParseFloat(parts[1]);
      var vx := ParseFloat(parts[2]);
      var vy := ParseFloat(parts[3]);
      var r := ParseFloat(parts[4]);
      if !(x.NaN? || y.NaN? || vx.NaN? || vy.NaN? || r.NaN?) {
        particles' := particles + [ParticleRow(x, y, vx, vy, r)];
      }
    }
    BodyStep(cs, start, i);
  }

  // ---------------------------------------------------------------
  // worldToCanvas
  // ---------------------------------------------------------------

  /** `worldToCanvas` with the supersampling factor `s`: margin, size and
      position all `s` times those of a canvas at `scale`. */
  function WorldToCanvas(x: real, y: real, width: real, height: real, scale: real, s: real): Anim.CanvasPoint {
    var margin := Anim.Margin * s;
    Anim.CanvasPoint(margin + x * scale * s, margin + (height - y) * scale * s,
                     Anim.Round(width * scale * s) as real + margin * 2.0,
                     Anim.Round(height * scale * s) as real + margin * 2.0)
  }

  /** The world point a supersampled canvas point shows. */
  function CanvasToWorld(cx: real, cy: real, height: real, scale: real, s: real): (real, real)
    requires scale * s != 0.0
  {
    ((cx - Anim.Margin * s) / (scale * s), height - (cy - Anim.Margin * s) / (scale * s))
  }

  /** Without supersampling the map is that of the earlier script. */
  lemma NoSupersampleIsAnim(x: real, y: real, width: real, height: real, scale: real)
    ensures WorldToCanvas(x, y, width, height, scale, 1.0) == Anim.WorldToCanvas(x, y, width, height, scale)
  {
    var p, q := WorldToCanvas(x, y, width, height, scale, 1.0), Anim.WorldToCanvas(x, y, width, height, scale);
    assert x * scale * 1.0 == x * scale;
    assert (height - y) * scale * 1.0 == (height - y) * scale;
    assert width * scale * 1.0 == width * scale;
    assert height * scale * 1.0 == height * scale;
    assert p.cx == q.cx && p.cy == q.cy && p.canvasW == q.canvasW && p.canvasH == q.canvasH;
  }

  /** A point is drawn at `s` times its place on the canvas without
      supersampling. */
  lemma PositionsScale(x: real, y: real, width: real, height: real, scale: real, s: real)
    ensures var p, q := WorldToCanvas(x, y, width, height, scale, s), Anim.WorldToCanvas(x, y, width, height, scale);
      p.cx == s * q.cx && p.cy == s * q.cy
  {
    var p, q := WorldToCanvas(x, y, width, height, scale, s), Anim.WorldToCanvas(x, y, width, height, scale);
    assert p.cx == s * (Anim.Margin + x * scale);
    assert p.cy == s * (Anim.Margin + (height - y) * scale);
  }

  /** The canvas holds the silo, drawn `scale * s` pixels per unit and
      rounded to a whole pixel, inside two margins. */
  lemma CanvasSize(x: real, y: real, width: real, height: real, scale: real, s: real)
    ensures var p := WorldToCanvas(x, y, width, height, scale, s);
      var m := 2.0 * Anim.Margin * s;
      width * scale * s - 0.5 < p.canvasW - m <= width * scale * s + 0.5 &&
      height * scale * s - 0.5 < p.canvasH - m <= height * scale * s + 0.5
  {
  }

  /** The top of the silo is drawn on the top margin. */
  lemma TopOnMargin(x: real, width: real, height: real, scale: real, s: real)
    ensures WorldToCanvas(x, height, width, height, scale, s).cy == Anim.Margin * s
  {
  }

  /** With a non-zero scale and factor the canvas point gives back the
      world point. */
  lemma CanvasRoundTrip(x: real, y: real, width: real, height: real, scale: real, s: real)
    requires scale * s != 0.0
    ensures var p := WorldToCanvas(x, y, width, height, scale, s);
      CanvasToWorld(p.cx, p.cy, height, scale, s) == (x, y)
  {
    var p := WorldToCanvas(x, y, width, height, scale, s);
    Regroup3(x, scale, s);
    Regroup3(height - y, scale, s);
    assert p.cx - Anim.Margin * s == x * (scale * s);
    assert p.cy - Anim.Margin * s == (height - y) * (scale * s);
    Anim.Cancel(x, scale * s);
    Anim.Cancel(height - y, scale * s);
    assert (p.cx - Anim.Margin * s) / (scale * s) == x;
    assert (p.cy - Anim.Margin * s) / (scale * s) == height - y;
  }

  /** Products of three factors regrouped. */
  lemma Regroup3(a: real, b: real, c: real)
    ensures a * b * c == a * (b * c)
  {
  }

  /** ... and every canvas point shows the world point it is drawn at. */
  lemma WorldRoundTrip(cx: real, cy: real, width: real, height: real, scale: real, s: real)
    requires scale * s != 0.0
    ensures var w := CanvasToWorld(cx, cy, height, scale, s);
      var p := WorldToCanvas(w.0, w.1, width, height, scale, s);
      p.cx == cx && p.cy == cy
  {
    var w := CanvasToWorld(cx, cy, height, scale, s);
    assert w.0 * (scale * s) == cx - Anim.Margin * s;
    assert (height - w.1) * (scale * s) == cy - Anim.Margin * s;
  }
}
