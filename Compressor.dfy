/**
 * Variant planning (scripts/compressor.py, run_compressions): the quality
 * ladder, the base name of the outputs and the ordered list of variant
 * descriptors, one per encode that succeeds. The encoders themselves are the
 * oracle `encode(format tag, encoding)`, which says how the external tool's
 * run for that output ended.
 */
module Compressor {
  import opened Wrappers
  import opened Text
  import Paths
  import opened Sorting

  /**
   * Why run_compressions raises: `100 // 0`, `range()` with a zero step, or a
   * lossy encoder that could not be started at all (its exception is not the
   * one the lossy loops catch).
   */
  datatype RunError = ZeroSteps | ZeroStepSize | EncoderUnavailable(tag: string, quality: int)

  /**
   * How one encoder run ends: the tool exits with status 0, it exits with
   * another status (CalledProcessError), or it cannot be launched (any other
   * exception, such as the executable not being installed).
   */
  datatype Outcome = Encoded | ExitFailure | LaunchFailure

  /** The encoder invocation: lossy at a quality, or WebP's lossless mode. */
  datatype Encoding = Lossy(quality: int) | Lossless

  /** One produced file: where it is, its format tag, its quality and the encoder arguments shown in the report. */
  datatype Variant = Variant(path: string, format: string, quality: int, params: string)

  /** One encode the planner tries, and the descriptor it contributes when the encode succeeds. */
  datatype Attempt = Attempt(tag: string, encoding: Encoding, variant: Variant)

  /** The low end of the ladder, prepended because quality 0 is too destructive to be informative. */
  const Floor := 5

  /** Python's a // b: the quotient rounded towards negative infinity. */
  function FloorDiv(a: int, b: int): (q: int)
    requires b != 0
    ensures b > 0 ==> b * q <= a < b * q + b
    ensures b < 0 ==> b * q + b < a <= b * q
  {
    if b > 0 then a / b
    else if a % b == 0 then a / b
    else a / b - 1
  }

  /** Python's list(range(start, stop, step)). */
  function Range(start: int, stop: int, step: int): (r: seq<int>)
    requires step != 0
    ensures step > 0 ==> forall i :: 0 <= i < |r| ==> r[i] == start + i * step && r[i] < stop
    ensures step > 0 && |r| > 0 ==> r[|r| - 1] + step >= stop
    ensures step > 0 && r == [] ==> start >= stop
    ensures step < 0 && start <= stop ==> r == []
    decreases if step > 0 then stop - start else start - stop
  {
    if (step > 0 && start < stop) || (step < 0 && start > stop) then
      var rest := Range(start + step, stop, step);
      if step > 0 then RangeCons(start, stop, step, rest); [start] + rest else [start] + rest
    else []
  }

  lemma RangeCons(start: int, stop: int, step: int, rest: seq<int>)
    requires step > 0 && start < stop
    requires forall i :: 0 <= i < |rest| ==> rest[i] == start + step + i * step && rest[i] < stop
    ensures forall i :: 0 <= i < |rest| + 1 ==> ([start] + rest)[i] == start + i * step && ([start] + rest)[i] < stop
  {
    forall i | 0 <= i < |rest| + 1 ensures ([start] + rest)[i] == start + i * step {
      if i > 0 {
        assert ([start] + rest)[i] == rest[i - 1];
        assert (i - 1) * step + step == i * step;
      }
    }
  }

  /**
   * The quality ladder of run_compressions: multiples of `100 // steps` up to
   * 100, with 5 put in front whenever 0 is not among them.
   */
  function QualityLadder(steps: int): Result<seq<int>, RunError> {
    if steps == 0 then Failure(ZeroSteps)
    else
      var stepSize := FloorDiv(100, steps);
      if stepSize == 0 then Failure(ZeroStepSize)
      else
        var qualities := Range(stepSize, 101, stepSize);
        Success(if 0 !in qualities then [Floor] + qualities else qualities)
  }

  /** A ladder for step size s: 5, then s, 2s, ... up to the largest multiple of s not above 100. */
  predicate LadderOf(l: seq<int>, s: int) {
    && |l| >= 2 && l[0] == Floor
    && (forall i :: 1 <= i < |l| ==> l[i] == i * s && 1 <= l[i] <= 100)
    && l[|l| - 1] + s > 100
  }

  /**
   * The ladder raises exactly for steps 0 (division by zero) and steps above
   * 100 (zero step size); negative steps give a negative step size, an empty
   * range and so the ladder [5]; steps 1..100 give the multiples of 100 // steps.
   */
  lemma LadderCases(steps: int)
    ensures QualityLadder(steps) == Failure(ZeroSteps) <==> steps == 0
    ensures QualityLadder(steps) == Failure(ZeroStepSize) <==> steps > 100
    ensures steps < 0 ==> QualityLadder(steps) == Success([Floor])
    ensures 1 <= steps <= 100 ==> QualityLadder(steps).Success? && LadderOf(QualityLadder(steps).value, 100 / steps)
  {
    if 1 <= steps <= 100 {
      LadderUnfold(steps);
      DivAtLeastOne(steps);
      LadderOfRange(100 / steps);
    } else if steps > 100 {
      assert FloorDiv(100, steps) == 0;
    } else if steps < 0 {
      var s := FloorDiv(100, steps);
      NegativeQuotient(100, steps, s);
      assert Range(s, 101, s) == [];
      assert [Floor] + [] == [Floor];
    }
  }

  lemma LadderUnfold(steps: int)
    requires 1 <= steps <= 100
    ensures QualityLadder(steps) == Success([Floor] + Range(100 / steps, 101, 100 / steps))
  {
    assert FloorDiv(100, steps) == 100 / steps;
    DivAtLeastOne(steps);
    var s := 100 / steps;
    var q := Range(s, 101, s);
    forall i | 0 <= i < |q| ensures q[i] != 0 {
      assert q[i] == s + i * s;
      MulMonotone(s, 0, i);
    }
  }

  lemma LadderOfRange(s: int)
    requires 1 <= s <= 100
    ensures LadderOf([Floor] + Range(s, 101, s), s)
  {
    var q := Range(s, 101, s);
    assert q != [];
    var l := [Floor] + q;
    forall i | 1 <= i < |l| ensures l[i] == i * s && 1 <= l[i] <= 100 {
      assert l[i] == q[i - 1] == s + (i - 1) * s;
      MulMonotone(s, 0, i - 1);
    }
  }

  lemma NegativeQuotient(a: int, b: int, q: int)
    requires a > 0 && b < 0 && a <= b * q
    ensures q < 0
  {
  }

  lemma DivAtLeastOne(steps: int)
    requires 1 <= steps <= 100
    ensures 1 <= 100 / steps <= 100
  {
  }

  lemma {:induction false} MultipleBound(k: int, s: int, n: int)
    requires s > 0 && k >= 0 && k * s <= n < (k + 1) * s
    ensures k == n / s
  {
    var q := n / s;
    assert n == s * q + n % s;
    if k < q {
      MulMonotone(s, k + 1, q);
    } else if k > q {
      MulMonotone(s, q + 1, k);
    }
  }

  lemma MulMonotone(s: int, a: int, b: int)
    requires s > 0 && a <= b
    ensures s * a <= s * b
  {
  }

  /** The ladder of steps 1..100 has the shape LadderOf describes, for a step size between 1 and 100. */
  lemma LadderShape(steps: int)
    requires 1 <= steps <= 100
    ensures QualityLadder(steps).Success? && LadderOf(QualityLadder(steps).value, 100 / steps)
    ensures 1 <= 100 / steps <= 100
  {
    LadderCases(steps);
    DivAtLeastOne(steps);
  }

  /** The ladder has `100 // step_size + 1` entries: the floor sample is prepended even when already present. */
  lemma LadderLength(steps: int)
    requires 1 <= steps <= 100
    ensures |QualityLadder(steps).value| == 100 / (100 / steps) + 1
  {
    LadderShape(steps);
    RungCount(QualityLadder(steps).value, 100 / steps);
  }

  lemma RungCount(l: seq<int>, s: int)
    requires LadderOf(l, s) && 1 <= s <= 100
    ensures |l| == 100 / s + 1
  {
    var k := |l| - 1;
    assert l[k] == k * s;
    assert (k + 1) * s == k * s + s;
    MultipleBound(k, s, 100);
  }

  /** After the floor sample the ladder strictly increases. */
  lemma LadderIncreasing(steps: int, i: int, j: int)
    requires 1 <= steps <= 100
    requires 1 <= i < j < |QualityLadder(steps).value|
    ensures QualityLadder(steps).value[i] < QualityLadder(steps).value[j]
  {
    LadderShape(steps);
    RungsIncrease(QualityLadder(steps).value, 100 / steps, i, j);
  }

  lemma RungsIncrease(l: seq<int>, s: int, i: int, j: int)
    requires LadderOf(l, s) && 1 <= s
    requires 1 <= i < j < |l|
    ensures l[i] < l[j]
  {
    assert l[i] == i * s && l[j] == j * s;
    MulMonotone(s, i + 1, j);
    assert (i + 1) * s == i * s + s;
  }

  /** 5 appears twice in the ladder exactly when the step size is 1 or 5 (steps 17..20 or 51..100). */
  lemma FloorDuplicated(steps: int)
    requires 1 <= steps <= 100
    ensures Floor in QualityLadder(steps).value[1..] <==> (100 / steps == 1 || 100 / steps == 5)
  {
    LadderShape(steps);
    var l, s := QualityLadder(steps).value, 100 / steps;
    RungCount(l, s);
    FloorAmongRungs(l, s);
  }

  lemma FloorAmongRungs(l: seq<int>, s: int)
    requires LadderOf(l, s) && 1 <= s <= 100 && |l| == 100 / s + 1
    ensures Floor in l[1..] <==> (s == 1 || s == 5)
  {
    if s == 1 || s == 5 {
      var i := 5 / s;
      assert l[i] == i * s == 5;
      assert l[1..][i - 1] == 5;
    } else if Floor in l[1..] {
      var i :| 0 <= i < |l| - 1 && l[1..][i] == Floor;
      assert l[i + 1] == (i + 1) * s;
      NoOtherDivisor(i + 1, s);
    }
  }

  lemma NoOtherDivisor(i: int, s: int)
    requires i >= 1 && 1 <= s && s != 1 && s != 5
    ensures i * s != 5
  {
    if s <= 5 {
      assert s == 2 || s == 3 || s == 4;
    } else {
      MulMonotone(s, 1, i);
    }
  }

  /** steps 3 stops at 99 rather than 100. */
  lemma LadderOfThree()
    ensures QualityLadder(3) == Success([5, 33, 66, 99])
  {
    assert FloorDiv(100, 3) == 33;
    assert Range(132, 101, 33) == [];
    assert Range(33, 101, 33) == [33, 66, 99];
    assert 0 !in [33, 66, 99];
    assert [Floor] + [33, 66, 99] == [5, 33, 66, 99];
  }

  /** Steps 17 to 20 have step size 5, so the floor sample 5 appears twice among their 21 rungs. */
  lemma LadderOfStepFive(steps: int)
    requires 17 <= steps <= 20
    ensures |QualityLadder(steps).value| == 21
    ensures QualityLadder(steps).value[..2] == [5, 5]
    ensures QualityLadder(steps).value[20] == 100
  {
    StepSizeFive(steps);
    LadderShape(steps);
    var l := QualityLadder(steps).value;
    RungCount(l, 5);
    assert l[1] == 1 * 5;
    assert l[20] == 20 * 5;
  }

  lemma StepSizeFive(steps: int)
    requires 17 <= steps <= 20
    ensures 100 / steps == 5
  {
    assert steps == 17 || steps == 18 || steps == 19 || steps == 20;
  }

  /** steps 2 gives the three rungs 5, 50 and 100. */
  lemma LadderOfTwo()
    ensures QualityLadder(2) == Success([5, 50, 100])
  {
    assert FloorDiv(100, 2) == 50;
    assert Range(150, 101, 50) == [];
    assert Range(50, 101, 50) == [50, 100];
    assert 0 !in [50, 100];
    assert [Floor] + [50, 100] == [5, 50, 100];
  }

  /** base_name: the input's file name without its last extension. */
  function BaseName(inputPath: string): (r: string)
    ensures '/' !in r
  {
    var name := Paths.Basename(inputPath);
    var r := Paths.StemOf(name);
    assert forall i :: 0 <= i < |r| ==> r[i] == name[i];
    r
  }

  /** The tag a requested format runs under after lower-casing: "webp", "jpeg" for jpg/jpeg, none otherwise. */
  function FormatTag(fmt: string): Option<string> {
    var f := Lower(fmt);
    if f == "webp" then Some("webp")
    else if f == "jpg" || f == "jpeg" then Some("jpeg")
    else None
  }

  /** The lossy encode at quality q, with the naming and arguments of the format's loop. */
  function LossyAttempt(tag: string, base: string, outputDir: string, q: int): Attempt {
    var ext := if tag == "webp" then ".webp" else ".jpg";
    var flag := if tag == "webp" then "-q " else "-quality ";
    Attempt(tag, Lossy(q), Variant(Paths.JoinPath(outputDir, base + "_q" + IntToString(q) + ext), tag, q, flag + IntToString(q)))
  }

  /** WebP's lossless encode, recorded with the quality-100 sentinel. */
  function LosslessAttempt(base: string, outputDir: string): Attempt {
    Attempt("webp", Lossless, Variant(Paths.JoinPath(outputDir, base + "_lossless.webp"), "webp", 100, "-lossless"))
  }

  function LossyAttempts(tag: string, base: string, outputDir: string, ladder: seq<int>): (r: seq<Attempt>)
    ensures |r| == |ladder|
  {
    seq(|ladder|, i requires 0 <= i < |ladder| => LossyAttempt(tag, base, outputDir, ladder[i]))
  }

  /** The encodes one requested format stands for, in the order the loop tries them. */
  function FormatAttempts(fmt: string, base: string, outputDir: string, ladder: seq<int>): seq<Attempt> {
    match FormatTag(fmt)
    case None => []
    case Some(tag) =>
      LossyAttempts(tag, base, outputDir, ladder) + (if tag == "webp" then [LosslessAttempt(base, outputDir)] else [])
  }

  /** All encodes, format by format. */
  function PlanAttempts(formats: seq<string>, base: string, outputDir: string, ladder: seq<int>): seq<Attempt> {
    if formats == [] then []
    else PlanAttempts(formats[..|formats| - 1], base, outputDir, ladder) + FormatAttempts(formats[|formats| - 1], base, outputDir, ladder)
  }

  /**
   * Running the attempts in order: a successful encode contributes its
   * descriptor, a failed exit is logged and skipped, and a launch failure
   * is skipped by the lossless block but aborts the run from a lossy loop.
   */
  function Run(attempts: seq<Attempt>, encode: (string, Encoding) -> Outcome): Result<seq<Variant>, RunError> {
    if attempts == [] then Success([])
    else
      var last := attempts[|attempts| - 1];
      match Run(attempts[..|attempts| - 1], encode)
      case Failure(e) => Failure(e)
      case Success(prev) =>
        var o := encode(last.tag, last.encoding);
        if o == Encoded then Success(prev + [last.variant])
        else if o == LaunchFailure && last.encoding.Lossy? then Failure(EncoderUnavailable(last.tag, last.encoding.quality))
        else Success(prev)
  }

  /** The first error wins; otherwise the descriptors are concatenated. */
  function Then(a: Result<seq<Variant>, RunError>, b: Result<seq<Variant>, RunError>): Result<seq<Variant>, RunError> {
    match a
    case Failure(e) => Failure(e)
    case Success(x) =>
      match b
      case Failure(e) => Failure(e)
      case Success(y) => Success(x + y)
  }

  lemma {:induction false} RunAppend(a: seq<Attempt>, b: seq<Attempt>, encode: (string, Encoding) -> Outcome)
    ensures Run(a + b, encode) == Then(Run(a, encode), Run(b, encode))
    decreases |b|
  {
    if b == [] {
      assert a + b == a;
      if Run(a, encode).Success? {
        assert Run(a, encode).value + [] == Run(a, encode).value;
      }
    } else {
      var b' := b[..|b| - 1];
      assert (a + b)[..|a + b| - 1] == a + b';
      assert (a + b)[|a + b| - 1] == b[|b| - 1];
      RunAppend(a, b', encode);
      if Run(a, encode).Success? && Run(b', encode).Success? {
        var x, y := Run(a, encode).value, Run(b', encode).value;
        assert Run(a + b', encode) == Success(x + y);
        assert (x + y) + [b[|b| - 1].variant] == x + (y + [b[|b| - 1].variant]);
      }
    }
  }

  lemma PlanAttemptsNext(formats: seq<string>, i: int, base: string, outputDir: string, ladder: seq<int>)
    requires 0 <= i < |formats|
    ensures PlanAttempts(formats[..i + 1], base, outputDir, ladder)
         == PlanAttempts(formats[..i], base, outputDir, ladder) + FormatAttempts(formats[i], base, outputDir, ladder)
  {
    assert formats[..i + 1][..i] == formats[..i];
  }

  /** What run_compressions returns, or the error it raises. */
  function Plan(inputPath: string, outputDir: string, formats: seq<string>, steps: int, encode: (string, Encoding) -> Outcome): Result<seq<Variant>, RunError> {
    match QualityLadder(steps)
    case Failure(e) => Failure(e)
    case Success(ladder) => Run(PlanAttempts(formats, BaseName(inputPath), outputDir, ladder), encode)
  }

  /** The body of the format loop: every encode of one requested format, in order. */
  method CompressFormat(fmt: string, base: string, outputDir: string, qualities: seq<int>, encode: (string, Encoding) -> Outcome)
    returns (out: Result<seq<Variant>, RunError>)
    ensures out == Run(FormatAttempts(fmt, base, outputDir, qualities), encode)
  {
    var tag := FormatTag(fmt);
    if tag.None? {
      return Success([]);
    }
    ghost var lossy := LossyAttempts(tag.value, base, outputDir, qualities);
    var done: seq<Variant> := [];
    for j := 0 to |qualities|
      invariant Run(lossy[..j], encode) == Success(done)
    {
      var attempt := LossyAttempt(tag.value, base, outputDir, qualities[j]);
      assert lossy[..j + 1][..j] == lossy[..j] && lossy[j] == attempt;
      var o := encode(attempt.tag, attempt.encoding);
      if o == Encoded {
        done := done + [attempt.variant];
      } else if o == LaunchFailure {
        RunAppend(lossy[..j + 1], lossy[j + 1..], encode);
        assert lossy[..j + 1] + lossy[j + 1..] == lossy;
        if tag.value == "webp" {
          RunAppend(lossy, [LosslessAttempt(base, outputDir)], encode);
        } else {
          assert lossy + [] == lossy;
        }
        return Failure(EncoderUnavailable(tag.value, qualities[j]));
      }
    }
    assert lossy[..|qualities|] == lossy;
    if tag.value == "webp" {
      var attempt := LosslessAttempt(base, outputDir);
      if encode(attempt.tag, attempt.encoding) == Encoded {
        done := done + [attempt.variant];
      }
      RunAppend(lossy, [attempt], encode);
      assert [attempt][..0] == [];
    } else {
      assert lossy + [] == lossy;
    }
    return Success(done);
  }

  /** run_compressions: the ladder, then one encode per format and quality (and WebP lossless), keeping the successes. */
  method RunCompressions(inputPath: string, outputDir: string, formats: seq<string>, steps: int, encode: (string, Encoding) -> Outcome)
    returns (r: Result<seq<Variant>, RunError>)
    ensures r == Plan(inputPath, outputDir, formats, steps, encode)
  {
    if steps == 0 {
      return Failure(ZeroSteps);
    }
    var stepSize := FloorDiv(100, steps);
    if stepSize == 0 {
      return Failure(ZeroStepSize);
    }
    var qualities := Range(stepSize, 101, stepSize);
    if 0 !in qualities {
      qualities := [Floor] + qualities;
    }
    assert QualityLadder(steps) == Success(qualities);
    var base := BaseName(inputPath);
    var generated: seq<Variant> := [];
    for i := 0 to |formats|
      invariant Run(PlanAttempts(formats[..i], base, outputDir, qualities), encode) == Success(generated)
    {
      var out := CompressFormat(formats[i], base, outputDir, qualities, encode);
      PlanAttemptsNext(formats, i, base, outputDir, qualities);
      RunAppend(PlanAttempts(formats[..i], base, outputDir, qualities), FormatAttempts(formats[i], base, outputDir, qualities), encode);
      if out.Failure? {
        PlanAttemptsFailure(formats, i + 1, base, outputDir, qualities, encode);
        return out;
      }
      generated := generated + out.value;
    }
    assert formats[..|formats|] == formats;
    return Success(generated);
  }

  /** Once a prefix of the formats has aborted the run, the rest of the formats do not change the error. */
  lemma {:induction false} PlanAttemptsFailure(formats: seq<string>, i: int, base: string, outputDir: string, ladder: seq<int>, encode: (string, Encoding) -> Outcome)
    requires 0 <= i <= |formats|
    requires Run(PlanAttempts(formats[..i], base, outputDir, ladder), encode).Failure?
    ensures Run(PlanAttempts(formats, base, outputDir, ladder), encode) == Run(PlanAttempts(formats[..i], base, outputDir, ladder), encode)
    decreases |formats| - i
  {
    if i == |formats| {
      assert formats[..i] == formats;
    } else {
      PlanAttemptsNext(formats, i, base, outputDir, ladder);
      RunAppend(PlanAttempts(formats[..i], base, outputDir, ladder), FormatAttempts(formats[i], base, outputDir, ladder), encode);
      PlanAttemptsFailure(formats, i + 1, base, outputDir, ladder, encode);
    }
  }

  /** The descriptors of the attempts, all of them. */
  function Variants(attempts: seq<Attempt>): (r: seq<Variant>)
    ensures |r| == |attempts| && forall i :: 0 <= i < |r| ==> r[i] == attempts[i].variant
  {
    seq(|attempts|, i requires 0 <= i < |attempts| => attempts[i].variant)
  }

  /** The attempt at index i is a lossy encode whose tool cannot be launched. */
  predicate AbortsAt(attempts: seq<Attempt>, encode: (string, Encoding) -> Outcome, i: int) {
    0 <= i < |attempts| && attempts[i].encoding.Lossy? && encode(attempts[i].tag, attempts[i].encoding) == LaunchFailure
  }

  /** The attempt at index i ends with a successful encode. */
  predicate EncodedAt(attempts: seq<Attempt>, encode: (string, Encoding) -> Outcome, i: int) {
    0 <= i < |attempts| && encode(attempts[i].tag, attempts[i].encoding) == Encoded
  }

  /**
   * The run raises exactly when some lossy encoder cannot be launched, and
   * the error names the first such attempt.
   */
  lemma {:induction false} RunFailure(attempts: seq<Attempt>, encode: (string, Encoding) -> Outcome)
    ensures Run(attempts, encode).Failure? <==> exists i :: AbortsAt(attempts, encode, i)
    ensures Run(attempts, encode).Failure? ==>
      exists i :: AbortsAt(attempts, encode, i) && (forall j :: 0 <= j < i ==> !AbortsAt(attempts, encode, j))
        && Run(attempts, encode).error == EncoderUnavailable(attempts[i].tag, attempts[i].encoding.quality)
  {
    if attempts != [] {
      var n := |attempts| - 1;
      var init := attempts[..n];
      RunFailure(init, encode);
      forall i | AbortsAt(init, encode, i) ensures AbortsAt(attempts, encode, i) {
      }
      forall i | AbortsAt(attempts, encode, i) && i < n ensures AbortsAt(init, encode, i) {
      }
      if Run(init, encode).Failure? {
        var i :| AbortsAt(init, encode, i) && (forall j :: 0 <= j < i ==> !AbortsAt(init, encode, j))
          && Run(init, encode).error == EncoderUnavailable(init[i].tag, init[i].encoding.quality);
        assert AbortsAt(attempts, encode, i);
      } else if AbortsAt(attempts, encode, n) {
        assert forall j :: 0 <= j < n ==> !AbortsAt(init, encode, j);
      }
    }
  }

  /** The descriptors of the attempts whose encode succeeds, in attempt order, one per such attempt. */
  function Kept(attempts: seq<Attempt>, encode: (string, Encoding) -> Outcome): seq<Variant> {
    if attempts == [] then []
    else KeptOne(attempts[0], encode) + Kept(attempts[1..], encode)
  }

  /** The descriptor of one attempt when its encode succeeds. */
  function KeptOne(a: Attempt, encode: (string, Encoding) -> Outcome): seq<Variant> {
    if encode(a.tag, a.encoding) == Encoded then [a.variant] else []
  }

  /** Kept read from the back: the kept descriptors of all but the last attempt, then the last one's. */
  lemma {:induction false} KeptLast(attempts: seq<Attempt>, encode: (string, Encoding) -> Outcome)
    requires attempts != []
    ensures Kept(attempts, encode) == Kept(attempts[..|attempts| - 1], encode) + KeptOne(attempts[|attempts| - 1], encode)
  {
    var n := |attempts| - 1;
    if n == 0 {
      assert attempts[..n] == [];
    } else {
      var tail := attempts[1..];
      KeptLast(tail, encode);
      assert tail[..n - 1] == attempts[..n][1..];
      assert tail[n - 1] == attempts[n];
      Associative(KeptOne(attempts[0], encode), Kept(tail[..n - 1], encode), KeptOne(attempts[n], encode));
    }
  }

  lemma Associative(a: seq<Variant>, b: seq<Variant>, c: seq<Variant>)
    ensures a + (b + c) == (a + b) + c
  {
  }

  /**
   * When it does not raise, the run keeps exactly the descriptors of the
   * successful encodes, in attempt order, each once per successful attempt.
   */
  lemma RunSuccess(attempts: seq<Attempt>, encode: (string, Encoding) -> Outcome)
    requires Run(attempts, encode).Success?
    ensures Run(attempts, encode).value == Kept(attempts, encode)
    ensures IsSubsequence(Run(attempts, encode).value, Variants(attempts))
    ensures forall v :: v in Run(attempts, encode).value <==> exists i :: EncodedAt(attempts, encode, i) && attempts[i].variant == v
  {
    RunKept(attempts, encode);
    RunKeepsEncoded(attempts, encode);
  }

  lemma {:induction false} RunKept(attempts: seq<Attempt>, encode: (string, Encoding) -> Outcome)
    requires Run(attempts, encode).Success?
    ensures Run(attempts, encode).value == Kept(attempts, encode)
  {
    if attempts != [] {
      var n := |attempts| - 1;
      RunKept(attempts[..n], encode);
      KeptLast(attempts, encode);
    }
  }

  lemma {:induction false} RunKeepsEncoded(attempts: seq<Attempt>, encode: (string, Encoding) -> Outcome)
    requires Run(attempts, encode).Success?
    ensures IsSubsequence(Run(attempts, encode).value, Variants(attempts))
    ensures forall v :: v in Run(attempts, encode).value <==> exists i :: EncodedAt(attempts, encode, i) && attempts[i].variant == v
  {
    if attempts != [] {
      var n := |attempts| - 1;
      var init := attempts[..n];
      var prev := Run(init, encode).value;
      RunKeepsEncoded(init, encode);
      var all := Variants(attempts);
      assert all[..n] == Variants(init);
      var r := Run(attempts, encode).value;
      if EncodedAt(attempts, encode, n) {
        assert r == prev + [attempts[n].variant];
        assert r[..|r| - 1] == prev;
      } else {
        assert r == prev;
      }
      forall v | v in r ensures exists i :: EncodedAt(attempts, encode, i) && attempts[i].variant == v {
        if v in prev {
          var i :| EncodedAt(init, encode, i) && init[i].variant == v;
          assert EncodedAt(attempts, encode, i);
        } else {
          assert EncodedAt(attempts, encode, n);
        }
      }
      forall v | exists i :: EncodedAt(attempts, encode, i) && attempts[i].variant == v ensures v in r {
        var i :| EncodedAt(attempts, encode, i) && attempts[i].variant == v;
        if i < n {
          assert EncodedAt(init, encode, i);
        }
      }
    }
  }

  /** When every encode succeeds, the run returns every descriptor. */
  lemma {:induction false} RunAllEncoded(attempts: seq<Attempt>, encode: (string, Encoding) -> Outcome)
    requires forall i :: 0 <= i < |attempts| ==> EncodedAt(attempts, encode, i)
    ensures Run(attempts, encode) == Success(Variants(attempts))
  {
    if attempts != [] {
      var n := |attempts| - 1;
      forall i | 0 <= i < n ensures EncodedAt(attempts[..n], encode, i) {
        assert EncodedAt(attempts, encode, i);
      }
      RunAllEncoded(attempts[..n], encode);
      assert EncodedAt(attempts, encode, n);
      assert Variants(attempts) == Variants(attempts[..n]) + [attempts[n].variant];
    }
  }

  /** The format name is compared case-insensitively: "WEBP" plans what "webp" plans. */
  lemma FormatCaseInsensitive(fmt: string, base: string, outputDir: string, ladder: seq<int>)
    ensures FormatAttempts(fmt, base, outputDir, ladder) == FormatAttempts(Lower(fmt), base, outputDir, ladder)
  {
    LowerIdempotent(fmt);
  }

  /** Any format other than webp, jpg and jpeg plans no encode at all. */
  lemma UnknownFormat(fmt: string, base: string, outputDir: string, ladder: seq<int>)
    requires Lower(fmt) != "webp" && Lower(fmt) != "jpg" && Lower(fmt) != "jpeg"
    ensures FormatAttempts(fmt, base, outputDir, ladder) == []
  {
  }

  /** The file a lossy encode writes is `<base>_q<quality><ext>` inside the output directory. */
  lemma LossyFileName(tag: string, base: string, outputDir: string, q: int)
    requires '/' !in base
    ensures Paths.Basename(LossyAttempt(tag, base, outputDir, q).variant.path)
         == base + "_q" + IntToString(q) + (if tag == "webp" then ".webp" else ".jpg")
  {
    var name := base + "_q" + IntToString(q) + (if tag == "webp" then ".webp" else ".jpg");
    assert forall i :: 0 <= i < |name| ==> name[i] != '/' by {
      IntToStringDigits(q);
    }
    Paths.BasenameOfJoin(outputDir, name);
  }

  lemma IntToStringDigits(q: int)
    ensures '/' !in IntToString(q)
  {
  }

  /**
   * A WebP request: one lossy encode per ladder rung at that quality with
   * `-q <q>`, then the lossless encode, which alone carries `-lossless` and
   * is recorded as quality 100; every descriptor has format "webp".
   */
  lemma WebpBlock(fmt: string, base: string, outputDir: string, ladder: seq<int>)
    requires Lower(fmt) == "webp"
    ensures var b := FormatAttempts(fmt, base, outputDir, ladder);
      && |b| == |ladder| + 1
      && (forall i :: 0 <= i < |b| ==> b[i].tag == "webp" && b[i].variant.format == "webp")
      && (forall i :: 0 <= i < |ladder| ==>
            b[i].encoding == Lossy(ladder[i]) && b[i].variant.quality == ladder[i] && b[i].variant.params == "-q " + IntToString(ladder[i]))
      && (forall i :: 0 <= i < |b| ==> (b[i].variant.params == "-lossless" <==> i == |ladder|))
      && b[|ladder|].encoding == Lossless && b[|ladder|].variant.quality == 100
  {
    var b := FormatAttempts(fmt, base, outputDir, ladder);
    forall i | 0 <= i < |ladder| ensures b[i].variant.params != "-lossless" {
      assert b[i].variant.params[1] == 'q';
    }
  }

  /** A jpg or jpeg request: one encode per rung, all recorded as format "jpeg" with `-quality <q>`, and no lossless encode. */
  lemma JpegBlock(fmt: string, base: string, outputDir: string, ladder: seq<int>)
    requires Lower(fmt) == "jpg" || Lower(fmt) == "jpeg"
    ensures var b := FormatAttempts(fmt, base, outputDir, ladder);
      && |b| == |ladder|
      && forall i :: 0 <= i < |b| ==>
           b[i].variant.format == "jpeg" && b[i].encoding == Lossy(ladder[i]) && b[i].variant.quality == ladder[i] && b[i].variant.params == "-quality " + IntToString(ladder[i])
  {
  }

  /** With a single requested format the run is that format's block of encodes. */
  lemma PlanOneFormat(inputPath: string, outputDir: string, fmt: string, steps: int, encode: (string, Encoding) -> Outcome)
    requires QualityLadder(steps).Success?
    ensures Plan(inputPath, outputDir, [fmt], steps, encode)
         == Run(FormatAttempts(fmt, BaseName(inputPath), outputDir, QualityLadder(steps).value), encode)
  {
    PlanAttemptsOne(fmt, BaseName(inputPath), outputDir, QualityLadder(steps).value);
  }

  lemma PlanAttemptsOne(fmt: string, base: string, outputDir: string, ladder: seq<int>)
    ensures PlanAttempts([fmt], base, outputDir, ladder) == FormatAttempts(fmt, base, outputDir, ladder)
  {
    var block := FormatAttempts(fmt, base, outputDir, ladder);
    assert [fmt][..0] == [];
    assert [] + block == block;
  }

  /**
   * A single WebP request whose encodes all succeed returns one descriptor
   * per ladder rung, in ladder order, followed by the lossless one.
   */
  lemma WebpAllEncoded(inputPath: string, outputDir: string, fmt: string, steps: int, encode: (string, Encoding) -> Outcome)
    requires Lower(fmt) == "webp" && QualityLadder(steps).Success?
    requires forall e :: encode("webp", e) == Encoded
    ensures Plan(inputPath, outputDir, [fmt], steps, encode).Success?
    ensures var v, ladder := Plan(inputPath, outputDir, [fmt], steps, encode).value, QualityLadder(steps).value;
      && |v| == |ladder| + 1
      && (forall i :: 0 <= i < |ladder| ==> v[i].quality == ladder[i] && v[i].params != "-lossless")
      && v[|ladder|].quality == 100 && v[|ladder|].params == "-lossless"
  {
    var ladder := QualityLadder(steps).value;
    var block := FormatAttempts(fmt, BaseName(inputPath), outputDir, ladder);
    PlanOneFormat(inputPath, outputDir, fmt, steps, encode);
    WebpBlock(fmt, BaseName(inputPath), outputDir, ladder);
    forall i | 0 <= i < |block| ensures EncodedAt(block, encode, i) {
      assert block[i].tag == "webp";
    }
    RunAllEncoded(block, encode);
  }

  /**
   * With steps 2 and a single WebP request whose encodes all succeed, the
   * run returns four descriptors: qualities 5, 50 and 100, then lossless.
   */
  lemma WebpStepsTwo(inputPath: string, outputDir: string, encode: (string, Encoding) -> Outcome)
    requires forall e :: encode("webp", e) == Encoded
    ensures Plan(inputPath, outputDir, ["webp"], 2, encode).Success?
    ensures var v := Plan(inputPath, outputDir, ["webp"], 2, encode).value;
      |v| == 4 && v[0].quality == 5 && v[1].quality == 50 && v[2].quality == 100
      && v[3].quality == 100 && v[3].params == "-lossless"
  {
    LadderOfTwo();
    assert Lower("webp") == "webp";
    WebpAllEncoded(inputPath, outputDir, "webp", 2, encode);
    var ladder: seq<int> := [5, 50, 100];
    assert |ladder| == 3 && ladder[0] == 5 && ladder[1] == 50 && ladder[2] == 100;
  }
}
