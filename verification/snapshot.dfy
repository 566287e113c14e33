/**
 * The snapshot format both revisions of `main.js` read. The file is cut
 * into lines; each line is trimmed and empty lines are dropped. A header
 * line `time - flow` opens a frame, and the lines up to the next header
 * are its particle lines `x,y,vx,vy,r`. This module holds the grammar and
 * the reference reading of a whole file, `FramesOf`. The two
 * `parseInputFile` loops are proved against it in Anim and
 * AnimSupersample.
 */
module Snapshot {
  import opened JsText

  /** `text.split(/\r?\n/).map(l => l.trim()).filter(l => l.length > 0)`. */
  function Lines(text: string): seq<string> {
    TrimmedNonEmpty(SplitLines(text))
  }

  /** Every line is trimmed and not empty. */
  lemma LinesTrimmed(text: string)
    ensures forall k :: 0 <= k < |Lines(text)| ==> |Lines(text)[k]| > 0 && Trim(Lines(text)[k]) == Lines(text)[k]
  {
  }

  /** The trimmed pieces that are not empty, in order. */
  function TrimmedNonEmpty(pieces: seq<string>): (lines: seq<string>)
    ensures |lines| <= |pieces|
    ensures forall k :: 0 <= k < |lines| ==> |lines[k]| > 0 && Trim(lines[k]) == lines[k]
  {
    if pieces == [] then []
    else
      var rest := TrimmedNonEmpty(pieces[1..]);
      var t := Trim(pieces[0]);
      TrimIdempotent(pieces[0]);
      if |t| > 0 then [t] + rest else rest
  }

  /** Pieces that trim alike give the same lines. */
  lemma {:induction false} TrimmedAlike(a: seq<string>, b: seq<string>)
    requires |a| == |b| && forall k :: 0 <= k < |a| ==> Trim(a[k]) == Trim(b[k])
    ensures TrimmedNonEmpty(a) == TrimmedNonEmpty(b)
    decreases |a|
  {
    if a != [] {
      assert Trim(a[0]) == Trim(b[0]);
      TrimmedAlike(a[1..], b[1..]);
    }
  }

  /** The carriage returns `split(/\r?\n/)` removes make no difference once
      the lines are trimmed: splitting at the line feeds alone gives the
      same lines. */
  lemma LinesIgnoreCr(text: string)
    ensures Lines(text) == TrimmedNonEmpty(Split(text, '\n'))
  {
    var pieces := Split(text, '\n');
    var lines := SplitLines(text);
    forall k | 0 <= k < |pieces|
      ensures Trim(lines[k]) == Trim(pieces[k])
    {
      if k < |pieces| - 1 {
        TrimDropCr(pieces[k]);
      }
    }
    TrimmedAlike(lines, pieces);
  }

  // ---------------------------------------------------------------
  // The header `/^([+\-]?\d*\.?\d+(?:[eE][+\-]?\d+)?)\s*-\s*(\d+)$/`
  // ---------------------------------------------------------------

  /** `(?:[eE][+\-]?\d+)?` matching all of `x`. */
  predicate IsExponentPart(x: string) {
    x == [] || ((x[0] == 'e' || x[0] == 'E') && |Sign(x[1..]).1| >= 1 && AllDigits(Sign(x[1..]).1))
  }

  /** The first group, `[+\-]?\d*\.?\d+(?:[eE][+\-]?\d+)?`, matching all of
      `a`: a sign, a mantissa, then an exponent. */
  predicate IsNumeral(a: string) {
    var u := Sign(a).1;
    IsMantissa(u) && IsExponentPart(u[MantissaEnd(u)..])
  }

  /** `\d*\.?\d+` matching a prefix of `u`: digits, or digits, a point and
      at least one digit. */
  predicate IsMantissa(u: string) {
    var w := DigitRun(u);
    if w < |u| && u[w] == '.' then DigitRun(u[w + 1..]) >= 1 else w >= 1
  }

  /** Where the mantissa `u` starts with ends. */
  function MantissaEnd(u: string): (j: nat)
    ensures j <= |u|
  {
    var w := DigitRun(u);
    if w < |u| && u[w] == '.' then w + 1 + DigitRun(u[w + 1..]) else w
  }

  /** The last position of `c` in `s`. */
  function LastIndexOf(s: string, c: char): (i: nat)
    requires c in s
    ensures i < |s| && s[i] == c && c !in s[i + 1..]
  {
    if s[|s| - 1] == c then |s| - 1
    else
      assert c in s[..|s| - 1] by {
        var j :| 0 <= j < |s| && s[j] == c;
        assert s[..|s| - 1][j] == c;
      }
      var i := LastIndexOf(s[..|s| - 1], c);
      assert s[i + 1..] == s[..|s| - 1][i + 1..] + [s[|s| - 1]];
      i
  }

  /** `line.match(headerRegex)`: the two groups, or none. The `-` of the
      header is the last one of the line, since nothing after it may hold
      one; the first group is what precedes it, less the space before it. */
  function MatchHeader(line: string): Option<(string, string)> {
    if '-' !in line then None
    else
      var k := LastIndexOf(line, '-');
      var left := TrimEnd(line[..k]);
      var right := TrimStart(line[k + 1..]);
      if IsNumeral(left) && |right| >= 1 && AllDigits(right) then Some((left, right)) else None
  }

  datatype Option<T> = None | Some(value: T)

  /** `headerRegex.test(line)`. */
  predicate IsHeader(line: string) {
    MatchHeader(line).Some?
  }

  /** The regular expression read as a shape: a numeral, space, `-`, space,
      digits, and nothing else. */
  ghost predicate HeaderShape(line: string, a: string, d: string) {
    exists w1, w2 :: line == a + w1 + "-" + w2 + d && AllSpace(w1) && AllSpace(w2)
      && IsNumeral(a) && |d| >= 1 && AllDigits(d)
  }

  /** A numeral ends with a digit. */
  lemma NumeralEndsInDigit(a: string)
    requires IsNumeral(a)
    ensures |a| >= 1 && IsDigit(a[|a| - 1])
  {
    var u := Sign(a).1;
    SignIsSuffix(a);
    var j := MantissaEnd(u);
    MantissaEndsInDigit(u);
    if j < |u| {
      ExponentEndsInDigit(u[j..]);
      LastOfSuffix(u, u[j..]);
    }
    LastOfSuffix(a, u);
  }

  /** A mantissa ends with a digit. */
  lemma MantissaEndsInDigit(u: string)
    requires IsMantissa(u)
    ensures MantissaEnd(u) >= 1 && IsDigit(u[MantissaEnd(u) - 1])
  {
    var w := DigitRun(u);
    if w < |u| && u[w] == '.' {
      var v := u[w + 1..];
      var f := DigitRun(v);
      assert IsDigit(v[..f][f - 1]);
    } else {
      assert IsDigit(u[..w][w - 1]);
    }
  }

  /** A string ends the way its non-empty suffixes end. */
  lemma LastOfSuffix(s: string, t: string)
    requires 1 <= |t| <= |s| && s[|s| - |t|..] == t
    ensures s[|s| - 1] == t[|t| - 1]
  {
    assert s[|s| - |t|..][|t| - 1] == s[|s| - 1];
  }

  /** What follows the sign of `s` is the end of `s`. */
  lemma SignIsSuffix(s: string)
    ensures |Sign(s).1| <= |s| && s[|s| - |Sign(s).1|..] == Sign(s).1
  {
  }

  /** A non-empty exponent part ends with a digit. */
  lemma ExponentEndsInDigit(x: string)
    requires IsExponentPart(x) && x != []
    ensures IsDigit(x[|x| - 1])
  {
    var e := Sign(x[1..]).1;
    SignIsSuffix(x[1..]);
    assert IsDigit(e[|e| - 1]);
    LastOfSuffix(x[1..], e);
    LastOfSuffix(x, x[1..]);
  }

  /** Space after a string that does not end in space is what `trimEnd` cuts. */
  lemma TrimEndOfSpaceTail(a: string, w: string)
    requires AllSpace(w) && (a == [] || !IsSpace(a[|a| - 1]))
    ensures TrimEnd(a + w) == a
    decreases |w|
  {
    if w == [] {
      assert a + w == a;
    } else {
      assert (a + w)[..|a + w| - 1] == a + w[..|w| - 1];
      TrimEndOfSpaceTail(a, w[..|w| - 1]);
    }
  }

  /** Space before a string that does not start with space is what
      `trimStart` cuts. */
  lemma TrimStartOfSpaceHead(w: string, d: string)
    requires AllSpace(w) && (d == [] || !IsSpace(d[0]))
    ensures TrimStart(w + d) == d
    decreases |w|
  {
    if w == [] {
      assert w + d == d;
    } else {
      assert (w + d)[1..] == w[1..] + d;
      TrimStartOfSpaceHead(w[1..], d);
    }
  }

  /** The last position of `c` is the one with `c` there and nowhere after. */
  lemma LastIndexOfAt(s: string, c: char, j: nat)
    requires j < |s| && s[j] == c && c !in s[j + 1..]
    ensures LastIndexOf(s, c) == j
  {
  }

  /** `MatchHeader` finds exactly the decompositions the regular
      expression describes, and its groups are the parts. */
  lemma MatchHeaderIsShape(line: string, a: string, d: string)
    ensures MatchHeader(line) == Some((a, d)) <==> HeaderShape(line, a, d)
  {
    if MatchHeader(line) == Some((a, d)) {
      MatchGivesShape(line, a, d);
    }
    if HeaderShape(line, a, d) {
      var w1, w2 :| line == a + w1 + "-" + w2 + d && AllSpace(w1) && AllSpace(w2)
        && IsNumeral(a) && |d| >= 1 && AllDigits(d);
      ShapeGivesMatch(line, a, w1, w2, d);
    }
  }

  /** The groups `MatchHeader` returns are a decomposition of the line. */
  lemma MatchGivesShape(line: string, a: string, d: string)
    requires MatchHeader(line) == Some((a, d))
    ensures HeaderShape(line, a, d)
  {
    var k := MatchParts(line, a, d);
    CutAround(line, k, a, d);
    var w1, w2 := line[|a|..k], line[k + 1..|line| - |d|];
    assert line == a + w1 + "-" + w2 + d && AllSpace(w1) && AllSpace(w2);
  }

  /** What a successful `MatchHeader` found: the last `-` at `k`, the
      trimmed text before it a numeral and the trimmed text after it
      digits. */
  lemma MatchParts(line: string, a: string, d: string) returns (k: nat)
    requires MatchHeader(line) == Some((a, d))
    ensures k < |line| && line[k] == '-'
    ensures a == TrimEnd(line[..k]) && d == TrimStart(line[k + 1..])
    ensures IsNumeral(a) && |d| >= 1 && AllDigits(d)
  {
    k := LastIndexOf(line, '-');
  }

  /** Trimming the two sides of position `k` leaves only space between
      what is kept and `line[k]`. */
  lemma CutAround(line: string, k: nat, a: string, d: string)
    requires k < |line| && a == TrimEnd(line[..k]) && d == TrimStart(line[k + 1..])
    ensures |a| <= k && k + 1 <= |line| - |d|
    ensures line == a + line[|a|..k] + [line[k]] + line[k + 1..|line| - |d|] + d
    ensures AllSpace(line[|a|..k]) && AllSpace(line[k + 1..|line| - |d|])
  {
    var left, right := line[..k], line[k + 1..];
    TrimEndCut(left);
    TrimStartCut(right);
    var w1, w2 := left[|a|..], right[..|right| - |d|];
    assert w1 == line[|a|..k] && w2 == line[k + 1..|line| - |d|];
    assert left == a + w1;
    assert right == w2 + d;
    Reassemble(line, k, a, w1, w2, d);
  }

  /** A sequence is what precedes position `k`, the element there, and
      what follows it. */
  lemma Reassemble<T>(s: seq<T>, k: nat, a: seq<T>, w1: seq<T>, w2: seq<T>, d: seq<T>)
    requires k < |s| && s[..k] == a + w1 && s[k + 1..] == w2 + d
    ensures s == a + w1 + [s[k]] + w2 + d
  {
    assert s == s[..k] + [s[k]] + s[k + 1..];
  }

  /** A decomposition of the line in the shape of the regular expression
      is what `MatchHeader` returns. */
  lemma ShapeGivesMatch(line: string, a: string, w1: string, w2: string, d: string)
    requires line == a + w1 + "-" + w2 + d && AllSpace(w1) && AllSpace(w2)
    requires IsNumeral(a) && |d| >= 1 && AllDigits(d)
    ensures MatchHeader(line) == Some((a, d))
  {
    var k := |a| + |w1|;
    assert line[k] == '-';
    assert line[..k] == a + w1;
    assert line[k + 1..] == w2 + d;
    NoDashInSpaceDigits(w2, d);
    NumeralEndsInDigit(a);
    DigitNotSpace(a[|a| - 1]);
    TrimEndOfSpaceTail(a, w1);
    DigitNotSpace(d[0]);
    TrimStartOfSpaceHead(w2, d);
    MatchAt(line, k, a, d);
  }

  /** The last `-` at `k`, a numeral before it and digits after it, up to
      space, is a match with those groups. */
  lemma MatchAt(line: string, k: nat, a: string, d: string)
    requires k < |line| && line[k] == '-' && '-' !in line[k + 1..]
    requires TrimEnd(line[..k]) == a && TrimStart(line[k + 1..]) == d
    requires IsNumeral(a) && |d| >= 1 && AllDigits(d)
    ensures MatchHeader(line) == Some((a, d))
  {
    LastIndexOfAt(line, '-', k);
  }

  /** Neither space nor digits hold a `-`. */
  lemma NoDashInSpaceDigits(w: string, d: string)
    requires AllSpace(w) && AllDigits(d)
    ensures '-' !in w + d
  {
    forall j | 0 <= j < |w + d|
      ensures (w + d)[j] != '-'
    {
      if j < |w| {
        assert IsSpace(w[j]);
      } else {
        assert IsDigit(d[j - |w|]);
      }
    }
  }

  // ---------------------------------------------------------------
  // Frames and particle lines
  // ---------------------------------------------------------------

  /** The object `{ x, y, vx, vy, r }` a particle line is read into. */
  datatype ParticleRow = ParticleRow(x: Num, y: Num, vx: Num, vy: Num, r: Num)

  /** The object `{ t, flowtotal, particles }` of one frame. */
  datatype Frame = Frame(t: Num, flowTotal: Num, particles: seq<ParticleRow>)

  /** A line as the loop sees it: a header with its time `parseFloat` of
      the first group and its flow `parseInt` of the second, or any other
      line with the particle it would be read as. */
  datatype Line = HeaderLine(t: Num, flowTotal: Num) | OtherLine(text: string, row: Option<ParticleRow>)

  function Classify(line: string): (c: Line)
    ensures c.HeaderLine? <==> IsHeader(line)
    ensures c.OtherLine? ==> c.text == line && c.row == ReadParticle(line)
  {
    match MatchHeader(line)
    case Some(m) => HeaderLine(ParseFloat(m.0), ParseInt(m.1))
    case None => OtherLine(line, ReadParticle(line))
  }

  /** Each line classified, in order. */
  function Classified(ls: seq<string>): (cs: seq<Line>)
    ensures |cs| == |ls|
    decreases |ls|, 1
  {
    if ls == [] then [] else ClassifiedCons(ls)
  }

  /** The classes of a non-empty list of lines: its first line's, then the
      others'. */
  function ClassifiedCons(ls: seq<string>): (cs: seq<Line>)
    requires ls != []
    ensures |cs| == |ls|
    decreases |ls|, 0
  {
    [Classify(ls[0])] + Classified(ls[1..])
  }

  lemma {:induction false} ClassifiedAt(ls: seq<string>, k: nat)
    requires k < |ls|
    ensures Classified(ls)[k] == Classify(ls[k])
    decreases k
  {
    assert Classified(ls) == ClassifiedCons(ls) == [Classify(ls[0])] + Classified(ls[1..]);
    if k > 0 {
      ClassifiedAt(ls[1..], k - 1);
    }
  }

  /** `line.split(',').map(s => s.trim())`. */
  function Fields(line: string): (parts: seq<string>)
    ensures |parts| == |Split(line, ',')|
  {
    var pieces := Split(line, ',');
    seq(|pieces|, k requires 0 <= k < |pieces| => Trim(pieces[k]))
  }

  /** A particle line read: at least five fields, and the first five not
      `NaN` under `parseFloat`; further fields are not looked at. */
  function ReadParticle(line: string): Option<ParticleRow> {
    var parts := Fields(line);
    if |parts| < 5 then None
    else
      var row := ParticleRow(ParseFloat(parts[0]), ParseFloat(parts[1]), ParseFloat(parts[2]),
                             ParseFloat(parts[3]), ParseFloat(parts[4]));
      if Numeric(row) then Some(row) else None
  }

  /** `![x, y, vx, vy, r].some(Number.isNaN)`. */
  predicate Numeric(row: ParticleRow) {
    !(row.x.NaN? || row.y.NaN? || row.vx.NaN? || row.vy.NaN? || row.r.NaN?)
  }

  /** What a line of a frame adds to its particles. */
  function Recorded(c: Line): seq<ParticleRow> {
    if c.OtherLine? && c.row.Some? then [c.row.value] else []
  }

  /** The particles recorded from the lines of a frame, in file order. */
  function ParticlesOf(body: seq<Line>): seq<ParticleRow> {
    if body == [] then [] else ParticlesOf(body[..|body| - 1]) + Recorded(body[|body| - 1])
  }

  /** The number of lines before the first header. */
  function BodyLen(cs: seq<Line>): (n: nat)
    ensures n <= |cs| && (n < |cs| ==> cs[n].HeaderLine?)
  {
    if cs == [] || cs[0].HeaderLine? then 0 else 1 + BodyLen(cs[1..])
  }

  /** The lines before the first header hold no header. */
  lemma {:induction false} BodyHasNoHeader(cs: seq<Line>)
    ensures NoHeader(cs[..BodyLen(cs)])
    decreases |cs|
  {
    if cs != [] && cs[0].OtherLine? {
      BodyHasNoHeader(cs[1..]);
      assert cs[..BodyLen(cs)] == [cs[0]] + cs[1..][..BodyLen(cs[1..])];
    }
  }

  /** The reference reading of a list of lines: lines before a header are
      skipped, and each header opens a frame holding the particles of the
      lines up to the next header. */
  function FramesOf(cs: seq<Line>): seq<Frame>
    decreases |cs|
  {
    if cs == [] then []
    else if cs[0].OtherLine? then FramesOf(cs[1..])
    else
      var n := BodyLen(cs[1..]);
      [Frame(cs[0].t, cs[0].flowTotal, ParticlesOf(cs[1..1 + n]))] + FramesOf(cs[1 + n..])
  }

  /** The header lines of `cs`, in order. */
  function Headers(cs: seq<Line>): (hs: seq<Line>)
    ensures forall k :: 0 <= k < |hs| ==> hs[k].HeaderLine?
  {
    if cs == [] then [] else (if cs[0].HeaderLine? then [cs[0]] else []) + Headers(cs[1..])
  }

  predicate NoHeader(cs: seq<Line>) {
    forall k :: 0 <= k < |cs| ==> cs[k].OtherLine?
  }

  /** A header or the end after `x` does not move where its first header is. */
  lemma {:induction false} BodyLenAppend(x: seq<Line>, y: seq<Line>)
    requires y == [] || y[0].HeaderLine?
    ensures BodyLen(x + y) == BodyLen(x)
    decreases |x|
  {
    if x == [] {
      assert x + y == y;
    } else if x[0].OtherLine? {
      assert (x + y)[1..] == x[1..] + y;
      BodyLenAppend(x[1..], y);
    }
  }

  lemma {:induction false} BodyLenOfNoHeader(x: seq<Line>)
    requires NoHeader(x)
    ensures BodyLen(x) == |x|
    decreases |x|
  {
    if x != [] {
      BodyLenOfNoHeader(x[1..]);
    }
  }

  /** Lines whose first line is a header, or none, start their frames
      afresh: the reading of `a + b` is that of `a` then that of `b`. */
  lemma {:induction false} FramesAppend(a: seq<Line>, b: seq<Line>)
    requires b == [] || b[0].HeaderLine?
    ensures FramesOf(a + b) == FramesOf(a) + FramesOf(b)
    decreases |a|
  {
    if a == [] {
      assert a + b == b;
    } else if a[0].OtherLine? {
      assert (a + b)[1..] == a[1..] + b;
      FramesAppend(a[1..], b);
    } else {
      var n := BodyLen(a[1..]);
      FramesAppend(a[1 + n..], b);
      FramesAppendAtHeader(a, b, n);
    }
  }

  /** The step of `FramesAppend` at a leading header: the frame it opens
      ends where it ends without `b`. */
  lemma FramesAppendAtHeader(a: seq<Line>, b: seq<Line>, n: nat)
    requires a != [] && a[0].HeaderLine? && (b == [] || b[0].HeaderLine?) && n == BodyLen(a[1..])
    requires FramesOf(a[1 + n..] + b) == FramesOf(a[1 + n..]) + FramesOf(b)
    ensures FramesOf(a + b) == FramesOf(a) + FramesOf(b)
  {
    var body, rest := a[1..1 + n], a[1 + n..];
    LeadingBody(a, n);
    SplitAround(a, body, rest, b);
    FrameOfLeadingHeader(a[0], body, rest);
    FrameOfLeadingHeader(a[0], body, rest + b);
    var f := Frame(a[0].t, a[0].flowTotal, ParticlesOf(body));
    ConsAssociates(f, FramesOf(rest), FramesOf(b));
  }

  /** The lines after a leading line, up to the next header or the end,
      hold no header. */
  lemma LeadingBody(a: seq<Line>, n: nat)
    requires a != [] && n == BodyLen(a[1..])
    ensures 1 + n <= |a| && NoHeader(a[1..1 + n])
    ensures 1 + n == |a| || a[1 + n].HeaderLine?
  {
    BodyHasNoHeader(a[1..]);
    assert a[1..][..n] == a[1..1 + n];
  }

  /** A sequence is its head, then a block, then what follows the block. */
  lemma SplitAround<T>(a: seq<T>, body: seq<T>, rest: seq<T>, b: seq<T>)
    requires a != [] && |body| < |a| && body == a[1..1 + |body|] && rest == a[1 + |body|..]
    ensures a == [a[0]] + (body + rest)
    ensures a + b == [a[0]] + (body + (rest + b))
  {
    assert a == [a[0]] + (body + rest);
  }

  /** Every line between a header and the next header (or the end) belongs
      to the frame of the earlier one, and the frames keep file order. */
  lemma FrameOfHeader(pre: seq<Line>, h: Line, body: seq<Line>, post: seq<Line>)
    requires h.HeaderLine? && NoHeader(body) && (post == [] || post[0].HeaderLine?)
    ensures FramesOf(pre + [h] + body + post) == FramesOf(pre) + [Frame(h.t, h.flowTotal, ParticlesOf(body))] + FramesOf(post)
  {
    var cs := [h] + (body + post);
    Regroup(pre, h, body, post);
    FramesAppend(pre, cs);
    FrameOfLeadingHeader(h, body, post);
  }

  lemma Regroup<T>(pre: seq<T>, h: T, body: seq<T>, post: seq<T>)
    ensures pre + [h] + body + post == pre + ([h] + (body + post))
  {
  }

  /** The frame a leading header opens holds the lines up to the next
      header. */
  lemma FrameOfLeadingHeader(h: Line, body: seq<Line>, post: seq<Line>)
    requires h.HeaderLine? && NoHeader(body) && (post == [] || post[0].HeaderLine?)
    ensures FramesOf([h] + (body + post)) == [Frame(h.t, h.flowTotal, ParticlesOf(body))] + FramesOf(post)
  {
    var cs := [h] + (body + post);
    var rest := body + post;
    assert cs[1..] == rest;
    BodyLenAppend(body, post);
    BodyLenOfNoHeader(body);
    assert rest[..|body|] == body;
    assert rest[|body|..] == post;
    assert cs[1..1 + |body|] == body;
    assert cs[1 + |body|..] == post;
  }

  /** What the loops learn of line `i` from the header test and the match. */
  lemma LineAt(lines: seq<string>, i: nat)
    requires i < |lines|
    ensures Classified(lines)[i].HeaderLine? <==> IsHeader(lines[i])
    ensures Classified(lines)[i].OtherLine? ==> Classified(lines)[i].text == lines[i]
  {
    ClassifiedAt(lines, i);
  }

  /** The time and the flow of the header at `i` are those of its match. */
  lemma HeaderAt(lines: seq<string>, i: nat)
    requires i < |lines| && IsHeader(lines[i])
    ensures Classified(lines)[i] == HeaderLine(ParseFloat(MatchHeader(lines[i]).value.0), ParseInt(MatchHeader(lines[i]).value.1))
  {
    ClassifiedAt(lines, i);
  }

  /** A frame's particle list grows by what its next line records. */
  lemma BodyStep(cs: seq<Line>, start: nat, i: nat)
    requires start <= i < |cs| && NoHeader(cs[start..i]) && cs[i].OtherLine?
    ensures ParticlesOf(cs[start..i + 1]) == ParticlesOf(cs[start..i]) + Recorded(cs[i])
    ensures NoHeader(cs[start..i + 1])
  {
    assert cs[start..i + 1][..i - start] == cs[start..i];
    assert cs[start..i + 1] == cs[start..i] + [cs[i]];
  }

  /** The header at `h` opens the frame of the lines up to `i`, the next
      header or the end. */
  lemma CloseFrame(cs: seq<Line>, h: nat, i: nat)
    requires h < i <= |cs| && cs[h].HeaderLine? && NoHeader(cs[h + 1..i])
    requires i == |cs| || cs[i].HeaderLine?
    ensures FramesOf(cs[h..]) == [Frame(cs[h].t, cs[h].flowTotal, ParticlesOf(cs[h + 1..i]))] + FramesOf(cs[i..])
  {
    var body, rest := cs[h + 1..i], cs[i..];
    SplitAround(cs[h..], body, rest, []);
    FrameOfLeadingHeader(cs[h], body, rest);
  }

  /** A line other than a header opens no frame. */
  lemma SkipFrames(cs: seq<Line>, i: nat)
    requires i < |cs| && cs[i].OtherLine?
    ensures FramesOf(cs[i..]) == FramesOf(cs[i + 1..])
  {
    assert cs[i..][1..] == cs[i + 1..];
  }

  /** Lines with no header give no frame: lines before the first header
      are skipped. */
  lemma {:induction false} NoHeaderNoFrames(junk: seq<Line>)
    requires NoHeader(junk)
    ensures FramesOf(junk) == []
    decreases |junk|
  {
    if junk != [] {
      NoHeaderNoFrames(junk[1..]);
    }
  }

  lemma {:induction false} HeadersAppend(a: seq<Line>, b: seq<Line>)
    ensures Headers(a + b) == Headers(a) + Headers(b)
    decreases |a|
  {
    if a == [] {
      assert a + b == b;
    } else {
      assert (a + b)[1..] == a[1..] + b;
      HeadersAppend(a[1..], b);
    }
  }

  lemma {:induction false} HeadersOfNoHeader(x: seq<Line>)
    requires NoHeader(x)
    ensures Headers(x) == []
    decreases |x|
  {
    if x != [] {
      HeadersOfNoHeader(x[1..]);
    }
  }

  /** One frame per header line, in file order: the `k`-th frame carries
      the time and the flow of the `k`-th header. */
  lemma {:induction false} FramesFollowHeaders(cs: seq<Line>)
    ensures Follows(FramesOf(cs), Headers(cs))
    decreases |cs|
  {
    if cs == [] {
    } else if cs[0].OtherLine? {
      FramesFollowHeaders(cs[1..]);
    } else {
      var n := BodyLen(cs[1..]);
      var f := Frame(cs[0].t, cs[0].flowTotal, ParticlesOf(cs[1..1 + n]));
      FramesFollowHeaders(cs[1 + n..]);
      FollowAtHeader(cs, n);
      assert FramesOf(cs) == [f] + FramesOf(cs[1 + n..]);
      FollowsCons(f, cs[0], FramesOf(cs[1 + n..]), Headers(cs[1 + n..]));
    }
  }

  /** As many frames as header lines, the `k`-th frame with the time and
      the flow of the `k`-th header. */
  predicate Follows(fs: seq<Frame>, hs: seq<Line>) {
    |fs| == |hs| &&
    forall k :: 0 <= k < |fs| ==> hs[k].HeaderLine? && fs[k].t == hs[k].t && fs[k].flowTotal == hs[k].flowTotal
  }

  /** A frame opened by a header, in front of frames that follow their
      headers, follows that header in front of them. */
  lemma FollowsCons(f: Frame, h: Line, fs: seq<Frame>, hs: seq<Line>)
    requires h.HeaderLine? && f.t == h.t && f.flowTotal == h.flowTotal && Follows(fs, hs)
    ensures Follows([f] + fs, [h] + hs)
  {
    forall k | 0 <= k < |[f] + fs|
      ensures ([h] + hs)[k].HeaderLine? && ([f] + fs)[k].t == ([h] + hs)[k].t
      ensures ([f] + fs)[k].flowTotal == ([h] + hs)[k].flowTotal
    {
      if k > 0 {
        assert ([f] + fs)[k] == fs[k - 1] && ([h] + hs)[k] == hs[k - 1];
      }
    }
  }

  /** The step of `FramesFollowHeaders` at a leading header: it is the
      first header. */
  lemma FollowAtHeader(cs: seq<Line>, n: nat)
    requires cs != [] && cs[0].HeaderLine? && n == BodyLen(cs[1..])
    ensures Headers(cs) == [cs[0]] + Headers(cs[1 + n..])
  {
    LeadingBody(cs, n);
    HeadersSkipBody(cs[1..], cs[1..1 + n], cs[1 + n..]);
  }

  /** The headers after a stretch without headers are those after it. */
  lemma HeadersSkipBody(s: seq<Line>, body: seq<Line>, rest: seq<Line>)
    requires s == body + rest && NoHeader(body)
    ensures Headers(s) == Headers(rest)
  {
    HeadersAppend(body, rest);
    HeadersOfNoHeader(body);
  }

  /** The particles of a frame keep file order: those of `a + b` are
      those of `a` then those of `b`. */
  lemma {:induction false} ParticlesAppend(a: seq<Line>, b: seq<Line>)
    ensures ParticlesOf(a + b) == ParticlesOf(a) + ParticlesOf(b)
    decreases |b|
  {
    if b == [] {
      assert a + b == a;
    } else {
      var b' := b[..|b| - 1];
      assert (a + b)[..|a + b| - 1] == a + b';
      assert (a + b)[|a + b| - 1] == b[|b| - 1];
      ParticlesAppend(a, b');
    }
  }

  /** A line other than a header is recorded exactly when it reads as a
      particle, and as that particle. */
  lemma RecordedLine(line: string)
    requires !IsHeader(line)
    ensures ParticlesOf([Classify(line)]) == if ReadParticle(line).Some? then [ReadParticle(line).value] else []
  {
    assert [Classify(line)][..0] == [];
  }

  /** Fields after the fifth are ignored: appending more to a line with at
      least five fields reads the same particle. */
  lemma ExtraFieldsIgnored(line: string, extra: string)
    requires |Split(line, ',')| >= 5
    ensures ReadParticle(line + [','] + extra) == ReadParticle(line)
  {
    SplitAppend(line, extra, ',');
    var p := Split(line, ',');
    var q := Split(line + [','] + extra, ',');
    assert forall k :: 0 <= k < 5 ==> q[k] == p[k];
    SameFirstFields(line, line + [','] + extra);
  }

  /** Lines whose first five fields agree read the same particle. */
  lemma SameFirstFields(line: string, other: string)
    requires |Fields(line)| >= 5 && |Fields(other)| >= 5
    requires forall k :: 0 <= k < 5 ==> Split(line, ',')[k] == Split(other, ',')[k]
    ensures ReadParticle(other) == ReadParticle(line)
  {
    var f, g := Fields(line), Fields(other);
    assert f[0] == g[0] && f[1] == g[1] && f[2] == g[2] && f[3] == g[3] && f[4] == g[4];
  }

  /** The time of a header is a finite number, and its flow the value of
      its digits. */
  lemma HeaderValues(line: string)
    requires IsHeader(line)
    ensures ParseFloat(MatchHeader(line).value.0).Finite?
    ensures ParseInt(MatchHeader(line).value.1) == Finite(DigitsValue(MatchHeader(line).value.1) as real)
  {
    var m := MatchHeader(line).value;
    NumeralIsFinite(m.0);
    var d := m.1;
    DigitNotSpace(d[0]);
    assert TrimStart(d) == d;
    assert Sign(d) == (false, d);
    DigitRunOfDigits(d, "");
    assert d + "" == d && d[..|d|] == d;
  }

  /** `parseFloat` of a numeral of the header grammar is finite. */
  lemma NumeralIsFinite(a: string)
    requires IsNumeral(a)
    ensures ParseFloat(a).Finite?
  {
    var u := Sign(a).1;
    var w := DigitRun(u);
    NumeralStart(a);
    assert TrimStart(a) == a;
    if |u| >= 8 {
      assert u[..8][0] == u[0];
    }
  }

  /** A numeral starts with a sign, a digit or a point, and what follows
      its sign starts with a digit or a point. */
  lemma NumeralStart(a: string)
    requires IsNumeral(a)
    ensures |a| >= 1 && !IsSpace(a[0])
    ensures |Sign(a).1| >= 1 && (IsDigit(Sign(a).1[0]) || Sign(a).1[0] == '.')
  {
    var u := Sign(a).1;
    var w := DigitRun(u);
    if w == 0 {
      assert u[0] == '.';
    } else {
      assert IsDigit(u[..w][0]);
    }
    if a[0] != '-' && a[0] != '+' {
      assert u == a;
      if IsDigit(a[0]) {
        DigitNotSpace(a[0]);
      }
    }
  }
}
