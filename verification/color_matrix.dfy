/**
 * The 4x5 colour matrices of `android.graphics.ColorMatrix`, the way the image
 * pipeline composes them, and the four adjustment steps it builds them from.
 * Entries are `real`; the platform computes them in `float`.
 */
module ColorMatrix {
  /** One row of a colour matrix: the weights of R, G, B, A and a constant offset. */
  datatype Row = Row(r: real, g: real, b: real, a: real, offset: real)

  /** The rows that produce R, G, B and A. */
  datatype Matrix = Matrix(red: Row, green: Row, blue: Row, alpha: Row)

  /** A colour with channels on the 0..255 scale the matrices work in. */
  datatype Color = Color(r: real, g: real, b: real, a: real)

  function Dot(row: Row, c: Color): real {
    row.r * c.r + row.g * c.g + row.b * c.b + row.a * c.a + row.offset
  }

  /** The colour a matrix maps `c` to. */
  function Apply(m: Matrix, c: Color): Color {
    Color(Dot(m.red, c), Dot(m.green, c), Dot(m.blue, c), Dot(m.alpha, c))
  }

  /** A fresh `ColorMatrix()`. */
  const Identity := Matrix(Row(1.0, 0.0, 0.0, 0.0, 0.0), Row(0.0, 1.0, 0.0, 0.0, 0.0),
                           Row(0.0, 0.0, 1.0, 0.0, 0.0), Row(0.0, 0.0, 0.0, 1.0, 0.0))

  /** Row `x` of the product of a matrix with `b`, as `ColorMatrix.setConcat` computes it. */
  function RowTimes(x: Row, b: Matrix): Row {
    Row(x.r * b.red.r + x.g * b.green.r + x.b * b.blue.r + x.a * b.alpha.r,
        x.r * b.red.g + x.g * b.green.g + x.b * b.blue.g + x.a * b.alpha.g,
        x.r * b.red.b + x.g * b.green.b + x.b * b.blue.b + x.a * b.alpha.b,
        x.r * b.red.a + x.g * b.green.a + x.b * b.blue.a + x.a * b.alpha.a,
        x.r * b.red.offset + x.g * b.green.offset + x.b * b.blue.offset + x.a * b.alpha.offset + x.offset)
  }

  /** `setConcat(a, b)`: the matrix product a * b, read as homogeneous 5x5 matrices. */
  function Concat(a: Matrix, b: Matrix): Matrix {
    Matrix(RowTimes(a.red, b), RowTimes(a.green, b), RowTimes(a.blue, b), RowTimes(a.alpha, b))
  }

  /** `m.postConcat(post)`: m becomes post * m. */
  function PostConcat(m: Matrix, post: Matrix): Matrix {
    Concat(post, m)
  }

  /** The ring identity behind DotRowTimes, over plain reals. */
  lemma RowProductIdentity(x0: real, x1: real, x2: real, x3: real, x4: real,
                           b00: real, b01: real, b02: real, b03: real, b04: real,
                           b10: real, b11: real, b12: real, b13: real, b14: real,
                           b20: real, b21: real, b22: real, b23: real, b24: real,
                           b30: real, b31: real, b32: real, b33: real, b34: real,
                           c0: real, c1: real, c2: real, c3: real)
    ensures (x0 * b00 + x1 * b10 + x2 * b20 + x3 * b30) * c0 + (x0 * b01 + x1 * b11 + x2 * b21 + x3 * b31) * c1
          + (x0 * b02 + x1 * b12 + x2 * b22 + x3 * b32) * c2 + (x0 * b03 + x1 * b13 + x2 * b23 + x3 * b33) * c3
          + (x0 * b04 + x1 * b14 + x2 * b24 + x3 * b34 + x4)
         == x0 * (b00 * c0 + b01 * c1 + b02 * c2 + b03 * c3 + b04) + x1 * (b10 * c0 + b11 * c1 + b12 * c2 + b13 * c3 + b14)
          + x2 * (b20 * c0 + b21 * c1 + b22 * c2 + b23 * c3 + b24) + x3 * (b30 * c0 + b31 * c1 + b32 * c2 + b33 * c3 + b34) + x4
  {
  }

  lemma DotRowTimesExpanded(x: Row, b: Matrix, c: Color)
    ensures Dot(RowTimes(x, b), c)
         == (x.r * b.red.r + x.g * b.green.r + x.b * b.blue.r + x.a * b.alpha.r) * c.r
          + (x.r * b.red.g + x.g * b.green.g + x.b * b.blue.g + x.a * b.alpha.g) * c.g
          + (x.r * b.red.b + x.g * b.green.b + x.b * b.blue.b + x.a * b.alpha.b) * c.b
          + (x.r * b.red.a + x.g * b.green.a + x.b * b.blue.a + x.a * b.alpha.a) * c.a
          + (x.r * b.red.offset + x.g * b.green.offset + x.b * b.blue.offset + x.a * b.alpha.offset + x.offset)
  {
    DotRowTimesOfReals(x.r, x.g, x.b, x.a, x.offset,
                       b.red.r, b.red.g, b.red.b, b.red.a, b.red.offset,
                       b.green.r, b.green.g, b.green.b, b.green.a, b.green.offset,
                       b.blue.r, b.blue.g, b.blue.b, b.blue.a, b.blue.offset,
                       b.alpha.r, b.alpha.g, b.alpha.b, b.alpha.a, b.alpha.offset,
                       c.r, c.g, c.b, c.a);
  }

  lemma DotRowTimesOfReals(x0: real, x1: real, x2: real, x3: real, x4: real,
                           b00: real, b01: real, b02: real, b03: real, b04: real,
                           b10: real, b11: real, b12: real, b13: real, b14: real,
                           b20: real, b21: real, b22: real, b23: real, b24: real,
                           b30: real, b31: real, b32: real, b33: real, b34: real,
                           c0: real, c1: real, c2: real, c3: real)
    ensures Dot(RowTimes(Row(x0, x1, x2, x3, x4),
                         Matrix(Row(b00, b01, b02, b03, b04), Row(b10, b11, b12, b13, b14),
                                Row(b20, b21, b22, b23, b24), Row(b30, b31, b32, b33, b34))),
                Color(c0, c1, c2, c3))
         == (x0 * b00 + x1 * b10 + x2 * b20 + x3 * b30) * c0 + (x0 * b01 + x1 * b11 + x2 * b21 + x3 * b31) * c1
          + (x0 * b02 + x1 * b12 + x2 * b22 + x3 * b32) * c2 + (x0 * b03 + x1 * b13 + x2 * b23 + x3 * b33) * c3
          + (x0 * b04 + x1 * b14 + x2 * b24 + x3 * b34 + x4)
  {
    DotOfRow(x0 * b00 + x1 * b10 + x2 * b20 + x3 * b30, x0 * b01 + x1 * b11 + x2 * b21 + x3 * b31,
             x0 * b02 + x1 * b12 + x2 * b22 + x3 * b32, x0 * b03 + x1 * b13 + x2 * b23 + x3 * b33,
             x0 * b04 + x1 * b14 + x2 * b24 + x3 * b34 + x4, Color(c0, c1, c2, c3));
  }

  lemma DotOfRow(p0: real, p1: real, p2: real, p3: real, p4: real, c: Color)
    ensures Dot(Row(p0, p1, p2, p3, p4), c) == p0 * c.r + p1 * c.g + p2 * c.b + p3 * c.a + p4
  {
  }

  lemma DotAfterApplyExpanded(x: Row, b: Matrix, c: Color)
    ensures Dot(x, Apply(b, c))
         == x.r * (b.red.r * c.r + b.red.g * c.g + b.red.b * c.b + b.red.a * c.a + b.red.offset)
          + x.g * (b.green.r * c.r + b.green.g * c.g + b.green.b * c.b + b.green.a * c.a + b.green.offset)
          + x.b * (b.blue.r * c.r + b.blue.g * c.g + b.blue.b * c.b + b.blue.a * c.a + b.blue.offset)
          + x.a * (b.alpha.r * c.r + b.alpha.g * c.g + b.alpha.b * c.b + b.alpha.a * c.a + b.alpha.offset)
          + x.offset
  {
  }

  /** One row of the product, applied to a colour, equals the row applied to the right factor's output. */
  lemma DotRowTimes(x: Row, b: Matrix, c: Color)
    ensures Dot(RowTimes(x, b), c) == Dot(x, Apply(b, c))
  {
    DotRowTimesExpanded(x, b, c);
    DotAfterApplyExpanded(x, b, c);
    RowProductIdentity(x.r, x.g, x.b, x.a, x.offset,
                       b.red.r, b.red.g, b.red.b, b.red.a, b.red.offset,
                       b.green.r, b.green.g, b.green.b, b.green.a, b.green.offset,
                       b.blue.r, b.blue.g, b.blue.b, b.blue.a, b.blue.offset,
                       b.alpha.r, b.alpha.g, b.alpha.b, b.alpha.a, b.alpha.offset,
                       c.r, c.g, c.b, c.a);
  }

  /** The product applies its right factor first: Concat(a, b) is "b, then a". */
  lemma ApplyConcat(a: Matrix, b: Matrix, c: Color)
    ensures Apply(Concat(a, b), c) == Apply(a, Apply(b, c))
  {
    DotRowTimes(a.red, b, c);
    DotRowTimes(a.green, b, c);
    DotRowTimes(a.blue, b, c);
    DotRowTimes(a.alpha, b, c);
  }

  /**
   * A matrix that scales and offsets R, G and B each on its own and passes alpha
   * through: its alpha row is (0, 0, 0, 1, 0).
   */
  predicate IsChannelwise(m: Matrix) {
    && m.red.g == 0.0 && m.red.b == 0.0 && m.red.a == 0.0
    && m.green.r == 0.0 && m.green.b == 0.0 && m.green.a == 0.0
    && m.blue.r == 0.0 && m.blue.g == 0.0 && m.blue.a == 0.0
    && m.alpha == Row(0.0, 0.0, 0.0, 1.0, 0.0)
  }

  function ScaleOffset(redScale: real, greenScale: real, blueScale: real,
                       redOffset: real, greenOffset: real, blueOffset: real): (m: Matrix)
    ensures IsChannelwise(m)
    ensures m.red.r == redScale && m.green.g == greenScale && m.blue.b == blueScale
    ensures m.red.offset == redOffset && m.green.offset == greenOffset && m.blue.offset == blueOffset
  {
    Matrix(Row(redScale, 0.0, 0.0, 0.0, redOffset), Row(0.0, greenScale, 0.0, 0.0, greenOffset),
           Row(0.0, 0.0, blueScale, 0.0, blueOffset), Row(0.0, 0.0, 0.0, 1.0, 0.0))
  }

  /** The same scale and offset on R, G and B: the shape of the brightness, contrast and gamma steps. */
  function Uniform(scale: real, offset: real): (m: Matrix)
    ensures IsChannelwise(m)
  {
    ScaleOffset(scale, scale, scale, offset, offset, offset)
  }

  /** A channelwise matrix never mixes channels: each output depends only on its own input. */
  lemma ChannelwiseApply(m: Matrix, c: Color)
    requires IsChannelwise(m)
    ensures Apply(m, c).r == m.red.r * c.r + m.red.offset
    ensures Apply(m, c).g == m.green.g * c.g + m.green.offset
    ensures Apply(m, c).b == m.blue.b * c.b + m.blue.offset
    ensures Apply(m, c).a == c.a
  {
  }

  /** Channelwise matrices are closed under composition; scales multiply, offsets are carried through. */
  lemma ConcatChannelwise(a: Matrix, b: Matrix)
    requires IsChannelwise(a) && IsChannelwise(b)
    ensures IsChannelwise(Concat(a, b))
    ensures Concat(a, b).red.r == a.red.r * b.red.r
    ensures Concat(a, b).red.offset == a.red.r * b.red.offset + a.red.offset
    ensures Concat(a, b).green.g == a.green.g * b.green.g
    ensures Concat(a, b).green.offset == a.green.g * b.green.offset + a.green.offset
    ensures Concat(a, b).blue.b == a.blue.b * b.blue.b
    ensures Concat(a, b).blue.offset == a.blue.b * b.blue.offset + a.blue.offset
  {
  }

  /** The adjustment steps, each built from the clamped integer settings. */
  datatype Step =
    | Brightness(amount: int)
    | Contrast(amount: int)
    | ChannelGain(red: int, green: int, blue: int)
    | GammaApprox(gamma: int)

  /** Contrast: scale (100 + c) / 100 about mid-grey, offset (1 - scale) * 128. */
  function ContrastScale(contrast: int): real {
    (100 + contrast) as real / 100.0
  }

  /** Gamma approximation: the factor and offset for g = gamma / 100. */
  function GammaFactor(gamma: int): real {
    var g := gamma as real / 100.0;
    if g > 1.0 then 0.7 + (g - 1.0) * 0.3 else 1.0 + (1.0 - g) * 0.5
  }

  function GammaOffset(gamma: int): real {
    var g := gamma as real / 100.0;
    if g > 1.0 then -(g - 1.0) * 30.0 else (1.0 - g) * 40.0
  }

  function StepMatrix(s: Step): (m: Matrix)
    ensures IsChannelwise(m)
  {
    match s
    case Brightness(v) => Uniform(1.0, v as real)
    case Contrast(c) => Uniform(ContrastScale(c), (1.0 - ContrastScale(c)) * 128.0)
    case ChannelGain(r, g, b) =>
      ScaleOffset(1.0 + r as real / 100.0, 1.0 + g as real / 100.0, 1.0 + b as real / 100.0, 0.0, 0.0, 0.0)
    case GammaApprox(gamma) => Uniform(GammaFactor(gamma), GammaOffset(gamma))
  }

  /**
   * The steps the builder enables, in the order it applies them: brightness,
   * contrast, channel gain, gamma approximation; each is skipped when neutral.
   */
  function EnabledSteps(brightness: int, contrast: int, red: int, green: int, blue: int, gamma: int): (steps: seq<Step>)
    ensures |steps| <= 4
    ensures steps == [] <==> brightness == 0 && contrast == 0 && red == 0 && green == 0 && blue == 0 && gamma == 100
  {
    (if brightness != 0 then [Brightness(brightness)] else [])
    + (if contrast != 0 then [Contrast(contrast)] else [])
    + (if red != 0 || green != 0 || blue != 0 then [ChannelGain(red, green, blue)] else [])
    + (if gamma != 100 then [GammaApprox(gamma)] else [])
  }

  /** Starting from `acc`, postConcat each step's matrix in turn. */
  function ComposeFrom(acc: Matrix, steps: seq<Step>): Matrix
    decreases |steps|
  {
    if steps == [] then acc else ComposeFrom(PostConcat(acc, StepMatrix(steps[0])), steps[1..])
  }

  function Compose(steps: seq<Step>): Matrix {
    ComposeFrom(Identity, steps)
  }

  /** The reference meaning of a list of steps: run the colour through each, first to last. */
  function ApplySteps(steps: seq<Step>, c: Color): Color
    decreases |steps|
  {
    if steps == [] then c else ApplySteps(steps[1..], Apply(StepMatrix(steps[0]), c))
  }

  lemma {:induction false} ComposeFromApplies(acc: Matrix, steps: seq<Step>, c: Color)
    ensures Apply(ComposeFrom(acc, steps), c) == ApplySteps(steps, Apply(acc, c))
    decreases |steps|
  {
    if steps != [] {
      var next := PostConcat(acc, StepMatrix(steps[0]));
      ComposeFromApplies(next, steps[1..], c);
      ApplyConcat(StepMatrix(steps[0]), acc, c);
    }
  }

  /** postConcat order: the composed matrix applies every step to the output of the steps before it. */
  lemma ComposeApplies(steps: seq<Step>, c: Color)
    ensures Apply(Compose(steps), c) == ApplySteps(steps, c)
  {
    ComposeFromApplies(Identity, steps, c);
    assert Apply(Identity, c) == c;
  }

  lemma {:induction false} ComposeFromChannelwise(acc: Matrix, steps: seq<Step>)
    requires IsChannelwise(acc)
    ensures IsChannelwise(ComposeFrom(acc, steps))
    decreases |steps|
  {
    if steps != [] {
      ConcatChannelwise(StepMatrix(steps[0]), acc);
      ComposeFromChannelwise(PostConcat(acc, StepMatrix(steps[0])), steps[1..]);
    }
  }

  /** Whatever the settings, the composed matrix never mixes R, G, B and passes alpha through. */
  lemma ComposeChannelwise(steps: seq<Step>)
    ensures IsChannelwise(Compose(steps))
  {
    ComposeFromChannelwise(Identity, steps);
  }

  /** Contrast pivots about mid-grey: 128 maps to 128 for every contrast setting. */
  lemma ContrastFixesMidGray(contrast: int, alpha: real)
    ensures Apply(StepMatrix(Contrast(contrast)), Color(128.0, 128.0, 128.0, alpha)) == Color(128.0, 128.0, 128.0, alpha)
  {
  }

  /** At contrast -100 the scale is 0: every colour becomes flat mid-grey. */
  lemma LowestContrastIsFlatGray(c: Color)
    ensures Apply(StepMatrix(Contrast(-100)), c) == Color(128.0, 128.0, 128.0, c.a)
  {
  }

  /**
   * In the slider's range the gamma approximation moves mid-grey the way gamma
   * does: gamma above 1 darkens it, gamma below 1 lightens it.
   */
  lemma GammaApproxMovesMidGray(gamma: int, alpha: real)
    requires 10 <= gamma <= 300
    ensures var out := Apply(StepMatrix(GammaApprox(gamma)), Color(128.0, 128.0, 128.0, alpha));
            && (gamma > 100 ==> out.r < 128.0)
            && (gamma < 100 ==> out.r > 128.0)
            && out.r == out.g == out.b && out.a == alpha
  {
  }
}
