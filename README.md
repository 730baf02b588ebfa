# MaterialFX depth levels and label truncation, in Dafny

This project models two leaf utilities of the MaterialFX component library.

- **`DepthLevel`** (module `DepthLevels`, `depth_level.dfy`). This is the enumeration of six drop-shadow presets, `LEVEL0` to `LEVEL5`. Each preset has a color, a blur radius, a spread and two offsets. `next()` steps cyclically through the presets in declaration order. In the model the enumeration is a datatype. The constant table is the function `Preset`, with exact `real` values and a plain RGBA record. The five getters read that table. `Next` indexes the `Values()` sequence at `(ordinal + 1) % 6`, as the source does. Java's `%` and Dafny's `%` agree here because both operands are non-negative.
- **Truncation detection in `LabelUtils`** (module `LabelUtils`, `label_utils.dfy`). `IsLabelTruncated` decides whether a label's rendered text is a truncation of its full text. It takes:
  - the label's full text;
  - the result of the `.text` sub-node lookup as an `Option<string>`, where `None` stands for Java's `null`.

  The listener that `registerTruncatedLabelListener` installs writes into a caller-owned boolean property. That property is the class `TruncationListener`, with one field `isTruncated`. The callback body is its method `OnLayoutChange`, which overwrites the field on each layout notification.

Purity and immutability hold by construction. Levels are datatype values, so nothing can change their fields. `IsLabelTruncated` is a function, so it only reads its inputs. `OnLayoutChange` may modify only `isTruncated`.

## Model

| member | source | states |
|---|---|---|
| `DepthLevels.Ordinal` | materialfx/src/main/java/io/github/palexdev/materialfx/effects/DepthLevel.java:26-32 | every level's declaration index is below the number of levels, 6 |
| `DepthLevels.OrdinalInjective` | materialfx/src/main/java/io/github/palexdev/materialfx/effects/DepthLevel.java:26-32 | two levels with the same ordinal are the same level |
| `DepthLevels.Values` | materialfx/src/main/java/io/github/palexdev/materialfx/effects/DepthLevel.java:39 | `valuesArr` has six entries, and entry `i` is the level with ordinal `i` |
| `DepthLevels.ValuesAtOrdinal` | materialfx/src/main/java/io/github/palexdev/materialfx/effects/DepthLevel.java:39 | every level sits in `valuesArr` at the index given by its ordinal |
| `DepthLevels.Preset` | materialfx/src/main/java/io/github/palexdev/materialfx/effects/DepthLevel.java:27-32 | every declared color is in the range `Color.rgb` accepts: channels 0-255, opacity in [0, 1] |
| `DepthLevels.Color` | materialfx/src/main/java/io/github/palexdev/materialfx/effects/DepthLevel.java:49-51 | `getColor()` is black for every level, with opacity 0 at level 0 and 0.20 above it |
| `DepthLevels.Radius` | materialfx/src/main/java/io/github/palexdev/materialfx/effects/DepthLevel.java:53-55 | `getRadius()` is 0 at level 0 and 5 * (ordinal + 1) at levels 1-5 (10, 15, 20, 25, 30) |
| `DepthLevels.Spread` | materialfx/src/main/java/io/github/palexdev/materialfx/effects/DepthLevel.java:57-59 | `getSpread()` lies in [0, 1) and is zero exactly at level 0 |
| `DepthLevels.OffsetX` | materialfx/src/main/java/io/github/palexdev/materialfx/effects/DepthLevel.java:61-63 | `getOffsetX()` is -1 at level 1 and 0 at every other level |
| `DepthLevels.OffsetY` | materialfx/src/main/java/io/github/palexdev/materialfx/effects/DepthLevel.java:65-67 | `getOffsetY()` is twice the ordinal (0, 2, 4, 6, 8, 10) |
| `DepthLevels.GettersReturnDeclaredArguments` | materialfx/src/main/java/io/github/palexdev/materialfx/effects/DepthLevel.java:41-67 | the five getters give back exactly the arguments the constant was constructed with |
| `DepthLevels.Level0IsFlat` | materialfx/src/main/java/io/github/palexdev/materialfx/effects/DepthLevel.java:27 | `LEVEL0` is transparent black, and its radius, spread and both offsets are 0 |
| `DepthLevels.RaisedLevelsShareColor` | materialfx/src/main/java/io/github/palexdev/materialfx/effects/DepthLevel.java:28-32 | `LEVEL1` to `LEVEL5` all use black at opacity 0.20 |
| `DepthLevels.TableStrictlyIncreasing` | materialfx/src/main/java/io/github/palexdev/materialfx/effects/DepthLevel.java:27-32 | for any two levels in ordinal order, the later one has a strictly larger radius, spread and vertical offset |
| `DepthLevels.Next` | materialfx/src/main/java/io/github/palexdev/materialfx/effects/DepthLevel.java:74-76 | the ordinal of `next()` is the ordinal plus one, modulo 6 |
| `DepthLevels.NextWrapsAround` | materialfx/src/main/java/io/github/palexdev/materialfx/effects/DepthLevel.java:75 | `LEVEL5.next()` is `LEVEL0` |
| `DepthLevels.NextStepsUp` | materialfx/src/main/java/io/github/palexdev/materialfx/effects/DepthLevel.java:75 | below `LEVEL5`, `next()` moves exactly one ordinal up |
| `DepthLevels.Prev` | materialfx/src/main/java/io/github/palexdev/materialfx/effects/DepthLevel.java:74-76 | a separately written predecessor whose ordinal is the ordinal minus one, modulo 6 |
| `DepthLevels.NextPrevInverse` | materialfx/src/main/java/io/github/palexdev/materialfx/effects/DepthLevel.java:75 | `Prev` and `Next` undo each other, in both orders |
| `DepthLevels.NextIsBijection` | materialfx/src/main/java/io/github/palexdev/materialfx/effects/DepthLevel.java:75 | `next()` is injective and every level is the `next()` of some level |
| `DepthLevels.NextNOrdinal` | materialfx/src/main/java/io/github/palexdev/materialfx/effects/DepthLevel.java:75 | `k` calls of `next()` add `k` to the ordinal, modulo 6 |
| `DepthLevels.NextNReturnsIff` | materialfx/src/main/java/io/github/palexdev/materialfx/effects/DepthLevel.java:75 | `k` calls of `next()` return to the start exactly when `k` is a multiple of 6 |
| `DepthLevels.NextSixIsIdentity` | materialfx/src/main/java/io/github/palexdev/materialfx/effects/DepthLevel.java:75 | six calls of `next()` return to the starting level |
| `DepthLevels.NoShorterCycle` | materialfx/src/main/java/io/github/palexdev/materialfx/effects/DepthLevel.java:75 | between one and five calls of `next()` never return to the start |
| `DepthLevels.SingleCycle` | materialfx/src/main/java/io/github/palexdev/materialfx/effects/DepthLevel.java:75 | every level reaches every other level in (target ordinal - start ordinal) mod 6 steps, so the six levels form a single cycle |
| `LabelUtils.IsLabelTruncated` | materialfx/src/main/java/io/github/palexdev/materialfx/utils/LabelUtils.java:42-50 | an absent text node gives false; otherwise the result is true exactly when the rendered text is non-empty and differs from the full text |
| `LabelUtils.AbsentNodeNotTruncated` | materialfx/src/main/java/io/github/palexdev/materialfx/utils/LabelUtils.java:44-49 | if the `.text` lookup finds nothing, the label is not truncated |
| `LabelUtils.EmptyRenderingNotTruncated` | materialfx/src/main/java/io/github/palexdev/materialfx/utils/LabelUtils.java:47 | an empty rendered text is never truncated, whatever the full text is |
| `LabelUtils.FullRenderingNotTruncated` | materialfx/src/main/java/io/github/palexdev/materialfx/utils/LabelUtils.java:47 | a rendered text equal to the full text is never truncated |
| `LabelUtils.ShorterRenderingTruncated` | materialfx/src/main/java/io/github/palexdev/materialfx/utils/LabelUtils.java:47 | a non-empty rendered text shorter than the full text, such as a clipped prefix with an ellipsis when it is shorter, is always truncated |
| `LabelUtils.TruncationListener.constructor` | materialfx/src/main/java/io/github/palexdev/materialfx/utils/LabelUtils.java:59 | the caller-owned `isTruncated` property starts with the value the caller gives it |
| `LabelUtils.TruncationListener.OnLayoutChange` | materialfx/src/main/java/io/github/palexdev/materialfx/utils/LabelUtils.java:60-66 | needs the text node to be present; the property becomes the non-empty-and-different comparison, independent of its old value, and no other field changes |
| `LabelUtils.OnLayoutChangeTwice` | materialfx/src/main/java/io/github/palexdev/materialfx/utils/LabelUtils.java:60-66 | two notifications on an unchanged label leave the value the first one left, the truncation comparison, so the callback is idempotent |

## Left out

- `computeLabelWidth`, `computeLabelHeight`, `computeTextWidth`, `computeTextHeight` (LabelUtils.java:75-110) are not modelled. They build throwaway toolkit nodes and scenes, force CSS and layout passes, and return floating-point bounds from the toolkit's font shaping. There is no logic of this library's own to state.
- The `.text` sub-node lookup (`label.lookup(".text")`) is scene-graph traversal with CSS selector matching. It is an `Option<string>` input instead. The model does not capture that its result depends on a prior layout pass.
- Listener registration (`needsLayoutProperty().addListener`) and the toolkit's observer dispatch are not modelled. Only the callback body is a method. The callback's `observable`, `oldValue` and `newValue` arguments are unused by the source, so the method does not take them.
- `TruncationListener.OnLayoutChange` requires the text node to be present. The source callback calls `textNode.getText()` with no null check, so it would throw a `NullPointerException` when the node is absent. That exceptional path is not modelled.
- JavaFX `Color` and `double` are not modelled. A color is the `(red, green, blue, opacity)` tuple passed to `Color.rgb`, kept as given rather than converted to `Color`'s internal 0-1 channel doubles. The table's numbers are exact reals. No arithmetic is done on them, so floating-point rounding plays no part.
- A `null` label text (`label.getText()` returning null) is not modelled; texts are always strings. With a null label text, `isLabelTruncated` still returns false when the text node is absent or its text is empty, because the `&&` stops before `equals` is reached. It throws a `NullPointerException` only when the node is present and its text is non-empty. The callback behaves the same way when the node is present; when the node is absent it throws whatever the label text is.
