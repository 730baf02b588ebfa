/**
  The six drop-shadow presets of MaterialFX (the `DepthLevel` enumeration) and
  their cyclic successor.

  Each level carries an immutable shadow description: a color, a blur radius,
  a spread and two offsets. Levels are Dafny datatype values, so no operation
  can change a level's fields after construction.
*/
module DepthLevels {

  /** A color given as in `Color.rgb(red, green, blue, opacity)`. */
  datatype Rgba = Rgba(red: int, green: int, blue: int, opacity: real)

  /** The range `Color.rgb` accepts: 8-bit channels and an opacity in [0, 1]. */
  predicate ValidRgba(c: Rgba) {
    0 <= c.red <= 255 && 0 <= c.green <= 255 && 0 <= c.blue <= 255 &&
    0.0 <= c.opacity <= 1.0
  }

  /** The constructor arguments of one enumeration constant. */
  datatype ShadowPreset = ShadowPreset(color: Rgba, radius: real, spread: real, offsetX: real, offsetY: real)

  datatype DepthLevel = Level0 | Level1 | Level2 | Level3 | Level4 | Level5

  /** The number of constants, `valuesArr.length`. */
  const LevelCount: nat := 6

  /** The declaration index of a constant, Java's `ordinal()`. */
  function Ordinal(d: DepthLevel): (n: nat)
    ensures n < LevelCount
  {
    match d
    case Level0 => 0
    case Level1 => 1
    case Level2 => 2
    case Level3 => 3
    case Level4 => 4
    case Level5 => 5
  }

  /** The constants in declaration order, `valuesArr = values()`. */
  function Values(): (vs: seq<DepthLevel>)
    ensures |vs| == LevelCount
    ensures forall i :: 0 <= i < |vs| ==> Ordinal(vs[i]) == i
  {
    [Level0, Level1, Level2, Level3, Level4, Level5]
  }

  /** Every level occurs in `Values()`, at the index given by its ordinal. */
  lemma ValuesAtOrdinal(d: DepthLevel)
    ensures Values()[Ordinal(d)] == d
  {
  }

  /** Two levels with the same ordinal are the same level. */
  lemma OrdinalInjective(a: DepthLevel, b: DepthLevel)
    ensures Ordinal(a) == Ordinal(b) ==> a == b
  {
  }

  /** The shadow table: the arguments each constant is declared with. */
  function Preset(d: DepthLevel): (p: ShadowPreset)
    ensures ValidRgba(p.color)
  {
    match d
    case Level0 => ShadowPreset(Rgba(0, 0, 0, 0.0), 0.0, 0.0, 0.0, 0.0)
    case Level1 => ShadowPreset(Rgba(0, 0, 0, 0.20), 10.0, 0.12, -1.0, 2.0)
    case Level2 => ShadowPreset(Rgba(0, 0, 0, 0.20), 15.0, 0.16, 0.0, 4.0)
    case Level3 => ShadowPreset(Rgba(0, 0, 0, 0.20), 20.0, 0.19, 0.0, 6.0)
    case Level4 => ShadowPreset(Rgba(0, 0, 0, 0.20), 25.0, 0.25, 0.0, 8.0)
    case Level5 => ShadowPreset(Rgba(0, 0, 0, 0.20), 30.0, 0.30, 0.0, 10.0)
  }

  /** `getColor()`: black everywhere, transparent at level 0 and at 20% opacity above it. */
  function Color(d: DepthLevel): (c: Rgba)
    ensures c.red == 0 && c.green == 0 && c.blue == 0
    ensures c.opacity == if d == Level0 then 0.0 else 0.20
  {
    Preset(d).color
  }

  /** `getRadius()`: 0 at level 0, then five more for each level, starting at 10. */
  function Radius(d: DepthLevel): (r: real)
    ensures Ordinal(d) == 0 ==> r == 0.0
    ensures Ordinal(d) > 0 ==> r == 5.0 * (Ordinal(d) + 1) as real
  {
    Preset(d).radius
  }

  /** `getSpread()`: a fraction, zero only at level 0. */
  function Spread(d: DepthLevel): (s: real)
    ensures 0.0 <= s < 1.0
    ensures s == 0.0 <==> d == Level0
  {
    Preset(d).spread
  }

  /** `getOffsetX()`: zero except at level 1, where it is -1. */
  function OffsetX(d: DepthLevel): (x: real)
    ensures x == if d == Level1 then -1.0 else 0.0
  {
    Preset(d).offsetX
  }

  /** `getOffsetY()`: twice the ordinal. */
  function OffsetY(d: DepthLevel): (y: real)
    ensures y == 2.0 * Ordinal(d) as real
  {
    Preset(d).offsetY
  }

  /** The five getters together give back exactly the arguments the constant was declared with. */
  lemma GettersReturnDeclaredArguments(d: DepthLevel)
    ensures Preset(d) == ShadowPreset(Color(d), Radius(d), Spread(d), OffsetX(d), OffsetY(d))
  {
  }

  /** Level 0 casts no shadow: transparent black and every number zero. */
  lemma Level0IsFlat()
    ensures Color(Level0) == Rgba(0, 0, 0, 0.0)
    ensures Radius(Level0) == 0.0 && Spread(Level0) == 0.0
    ensures OffsetX(Level0) == 0.0 && OffsetY(Level0) == 0.0
  {
  }

  /** Levels 1 to 5 share one color, black at opacity 0.20. */
  lemma RaisedLevelsShareColor(d: DepthLevel)
    requires d != Level0
    ensures Color(d) == Rgba(0, 0, 0, 0.20)
  {
  }

  /** Along the declaration order, radius, spread and vertical offset strictly grow. */
  lemma TableStrictlyIncreasing(d: DepthLevel, e: DepthLevel)
    requires Ordinal(d) < Ordinal(e)
    ensures Radius(d) < Radius(e)
    ensures Spread(d) < Spread(e)
    ensures OffsetY(d) < OffsetY(e)
  {
  }

  /** `next()`: the constant after this one in declaration order, wrapping at the end. */
  function Next(d: DepthLevel): (n: DepthLevel)
    ensures Ordinal(n) == (Ordinal(d) + 1) % LevelCount
  {
    Values()[(Ordinal(d) + 1) % |Values()|]
  }

  /** The last level is followed by the first. */
  lemma NextWrapsAround()
    ensures Next(Level5) == Level0
  {
  }

  /** Below the last level, `Next` moves one step up. */
  lemma NextStepsUp(d: DepthLevel)
    requires Ordinal(d) < LevelCount - 1
    ensures Ordinal(Next(d)) == Ordinal(d) + 1
  {
  }

  /** The level before `d` in the cyclic order: an independent inverse of `Next`. */
  function Prev(d: DepthLevel): (p: DepthLevel)
    ensures Ordinal(p) == (Ordinal(d) + LevelCount - 1) % LevelCount
  {
    match d
    case Level0 => Level5
    case Level1 => Level0
    case Level2 => Level1
    case Level3 => Level2
    case Level4 => Level3
    case Level5 => Level4
  }

  /** `Prev` undoes `Next` and `Next` undoes `Prev`. */
  lemma NextPrevInverse(d: DepthLevel)
    ensures Prev(Next(d)) == d
    ensures Next(Prev(d)) == d
  {
  }

  /** `Next` is injective and onto, hence a bijection on the six levels. */
  lemma NextIsBijection(a: DepthLevel, b: DepthLevel)
    ensures Next(a) == Next(b) ==> a == b
    ensures exists p :: Next(p) == b
  {
    NextPrevInverse(a);
    NextPrevInverse(b);
  }

  /** `Next` applied `k` times. */
  function NextN(d: DepthLevel, k: nat): DepthLevel
  {
    if k == 0 then d else Next(NextN(d, k - 1))
  }

  /** `k` steps of `Next` add `k` to the ordinal, modulo the number of levels. */
  lemma {:induction false} NextNOrdinal(d: DepthLevel, k: nat)
    ensures Ordinal(NextN(d, k)) == (Ordinal(d) + k) % LevelCount
  {
    if k > 0 {
      NextNOrdinal(d, k - 1);
      ModSuccessor(Ordinal(d) + k - 1);
    }
  }

  /** Adding one commutes with reduction modulo the number of levels. */
  lemma ModSuccessor(m: nat)
    ensures (m % LevelCount + 1) % LevelCount == (m + 1) % LevelCount
  {
  }

  /** `k` steps of `Next` return to the start exactly when `k` is a multiple of six. */
  lemma NextNReturnsIff(d: DepthLevel, k: nat)
    ensures NextN(d, k) == d <==> k % LevelCount == 0
  {
    var e := NextN(d, k);
    NextNOrdinal(d, k);
    ModShift(Ordinal(d), k);
    ValuesAtOrdinal(e);
    ValuesAtOrdinal(d);
  }

  /** Shifting an ordinal by `k` leaves it unchanged exactly when `k` is a multiple of six. */
  lemma ModShift(x: nat, k: nat)
    requires x < LevelCount
    ensures (x + k) % LevelCount == x <==> k % LevelCount == 0
  {
  }

  /** Six steps of `Next` return to the starting level. */
  lemma NextSixIsIdentity(d: DepthLevel)
    ensures NextN(d, LevelCount) == d
  {
    NextNReturnsIff(d, LevelCount);
  }

  /** No level comes back in fewer than six steps. */
  lemma NoShorterCycle(d: DepthLevel, k: nat)
    requires 0 < k < LevelCount
    ensures NextN(d, k) != d
  {
    NextNReturnsIff(d, k);
  }

  /** Every level is reached from every other within six steps: the levels form one cycle. */
  lemma SingleCycle(d: DepthLevel, e: DepthLevel)
    ensures NextN(d, (Ordinal(e) - Ordinal(d)) % LevelCount) == e
  {
    var k := (Ordinal(e) - Ordinal(d)) % LevelCount;
    var f := NextN(d, k);
    NextNOrdinal(d, k);
    ModDistance(Ordinal(d), Ordinal(e));
    ValuesAtOrdinal(f);
    ValuesAtOrdinal(e);
  }

  /** Shifting ordinal `x` by the cyclic distance from `x` to `y` reaches `y`. */
  lemma ModDistance(x: nat, y: nat)
    requires x < LevelCount && y < LevelCount
    ensures (x + (y - x) % LevelCount) % LevelCount == y
  {
  }
}
