# Shuffle card stack animator, in Dafny

A model of two parts of the Shuffle iOS library (a Tinder-style stack of
swipeable cards):

- **The background-card animator** (`CardStackAnimator`), module
  `CardStackAnimator` in `card_stack_animator.dfy`. For each stack command
  (reset after a cancelled swipe, shift, swipe, undo) it decides which cards
  have their in-flight animations cancelled, where each card is placed before
  the animation starts, which position each card is animated to, and the
  duration and delay of the animation. The timing policy (reset, shift, undo
  and swipe durations and the swipe delay) is a set of pure functions over
  `real`. The operations are methods over a `SwipeCardStack` object whose
  `visibleCards` and `backgroundCards` are sequences of `SwipeCard` objects.
  Each card has a mutable `transform` and a count `inFlight` of the
  animations running on it.
- **The invalid-update error message** (`StringUtils.createInvalidUpdateErrorString`),
  module `StringUtils` in `string_utils.dfy`. It is a pure function from four
  counts to a fixed message template. It is paired with a parser that reads
  the four counts back, and the round trip is proved.

How the animator is modelled:

- A card's `transform` is the position index whose transform it carries.
  `transform(forCardAtPosition: p)` is therefore represented by `p` itself, and
  `layoutCard(card, at: p)` (`SwipeCardStack.LayoutCard`) sets the card's
  transform to `p`.
- Keyframes are recorded, not run. As in a UIKit keyframe animation, the
  keyframe block assigns the target transform to the card at once and only
  what is displayed is animated. So every card that gets a keyframe takes its
  target `transform` and has one more animation in flight. The operation
  returns a `Schedule` holding the duration, the delay, the keyframes (card
  and target position), the transform each framed card carries when the
  animation is scheduled (`starts`), and whether the caller's completion is
  passed on to the animation. `starts` is where the card is shown when the
  animation begins, unless another animation on that card is still running.
  Only the top card of a swipe can be in that case.
- Cancelling (`removeAllAnimations`) sets a card's `inFlight` to 0 and leaves
  its `transform`, which is the target of the animation it cancelled. Each
  operation cancels before it schedules, so every card it cancels and then
  animates ends with exactly one animation in flight. Scheduling on top of a
  running animation would leave more. The exception is `animateSwipe`. It
  cancels only the background cards but keyframes every visible card, so the
  new top card keeps what it had in flight, plus one (`AnimateSwipe` states
  this).
- A non-animated operation returns `CompletedNow`: the completion ran with
  `true` before returning. An animated swipe with no visible card returns
  `CompletionAfter(delay + duration)`.
- A stack is `Valid()` when no visible card appears twice (a card is one view,
  shown at one place in the stack) and the background cards are the visible
  cards behind the top one, `visibleCards[1..]`. `SwipeCardStack` itself is not
  part of this model; the relation is the one its background-card list is
  defined by. All four operations require it, because they give each card its
  own position and its own count.

The swipe duration is not continuous at the minimum swipe speed in general.
At a velocity factor just below 1 it is `totalSwipeDuration / 2`; at exactly 1
it is `1 / 2`. These agree only when `totalSwipeDuration` is 1
(`ThresholdContinuity`). The model follows the code.

## Model

| member | source | states |
|---|---|---|
| `CardStackAnimator.ResetDuration` | Sources/Shuffle/Classes/SwipeCardStack/CardStackAnimator.swift:199-202 | never negative when the configured durations are not negative |
| `CardStackAnimator.ShiftDuration` | Sources/Shuffle/Classes/SwipeCardStack/CardStackAnimator.swift:204-206 | never negative when the configured durations are not negative |
| `CardStackAnimator.UndoDuration` | Sources/Shuffle/Classes/SwipeCardStack/CardStackAnimator.swift:238-241 | never negative when the configured durations are not negative |
| `CardStackAnimator.SwipeDelay` | Sources/Shuffle/Classes/SwipeCardStack/CardStackAnimator.swift:208-213 | lies between 0 and the total swipe duration when the overlay fade is a fraction |
| `CardStackAnimator.FastSwipeDuration` | Sources/Shuffle/Classes/SwipeCardStack/CardStackAnimator.swift:234-235 | for a velocity factor of at least 1 the duration lies in (0, 1/2] |
| `CardStackAnimator.SwipeDuration` | Sources/Shuffle/Classes/SwipeCardStack/CardStackAnimator.swift:215-236 | never negative when the configured durations are not negative; needs a positive minimum speed only on the unforced, non-overridden path |
| `CardStackAnimator.ResetAndShiftDurationResolution` | Sources/Shuffle/Classes/SwipeCardStack/CardStackAnimator.swift:199-206 | reset uses the stack-level duration if set, else half the total reset duration; shift always uses the stack-level duration |
| `CardStackAnimator.UndoDurationResolution` | Sources/Shuffle/Classes/SwipeCardStack/CardStackAnimator.swift:238-241 | undo uses the stack-level duration if set, else half the total reverse-swipe duration |
| `CardStackAnimator.SwipeDelayCases` | Sources/Shuffle/Classes/SwipeCardStack/CardStackAnimator.swift:208-213 | forced: total swipe duration times the relative overlay fade; unforced: exactly 0; the same for any drag speed |
| `CardStackAnimator.SwipeDurationPriority` | Sources/Shuffle/Classes/SwipeCardStack/CardStackAnimator.swift:215-236 | a stack-level duration wins for every card and every forced flag; otherwise forced or slow gives half the total; otherwise duration times twice the velocity factor is 1 |
| `CardStackAnimator.FasterSwipeIsShorter` | Sources/Shuffle/Classes/SwipeCardStack/CardStackAnimator.swift:227-235 | at or above the minimum speed, a strictly faster drag gives a strictly shorter duration, all in (0, 1/2] |
| `CardStackAnimator.ThresholdContinuity` | Sources/Shuffle/Classes/SwipeCardStack/CardStackAnimator.swift:229-235 | at exactly the minimum speed the duration is 1/2, equal to the slow-swipe value iff the total swipe duration is 1 |
| `CardStackAnimator.SwipeScenarios` | Sources/Shuffle/Classes/SwipeCardStack/CardStackAnimator.swift:208-236 | total 1, fade 0.2, speed twice the minimum: unforced gives duration 0.25 and delay 0; forced gives 0.5 and 0.2 |
| `CardStackAnimator.ShiftAndSwipeKeyFramesCover` | Sources/Shuffle/Classes/SwipeCardStack/CardStackAnimator.swift:174-187 | one keyframe per visible card, those cards in order, targets 0, 1, 2, ... |
| `CardStackAnimator.ResetAndUndoKeyFramesCover` | Sources/Shuffle/Classes/SwipeCardStack/CardStackAnimator.swift:167-195 | one keyframe per background card, those cards in order, targets 1, 2, 3, ... behind the top card |
| `CardStackAnimator.KeyFramesTargetOwnPosition` | Sources/Shuffle/Classes/SwipeCardStack/CardStackAnimator.swift:165-195 | when the background cards are the visible cards after the top one, every keyframe of every operation targets the position at which its card is shown |
| `CardStackAnimator.RemoveBackgroundCardAnimations` | Sources/Shuffle/Classes/SwipeCardStack/CardStackAnimator.swift:157-159 | every background card has no animation in flight and keeps its transform; no other card changes; the new state does not depend on the old counts (idempotent) |
| `CardStackAnimator.RemoveAllCardAnimations` | Sources/Shuffle/Classes/SwipeCardStack/CardStackAnimator.swift:161-163 | every visible card has no animation in flight and keeps its transform; no other card changes (idempotent) |
| `CardStackAnimator.AddCancelSwipeAnimationKeyFrames` | Sources/Shuffle/Classes/SwipeCardStack/CardStackAnimator.swift:167-172 | background card i gets a transform keyframe to position i + 1, takes that transform and has one more animation in flight |
| `CardStackAnimator.AddShiftAnimationKeyFrames` | Sources/Shuffle/Classes/SwipeCardStack/CardStackAnimator.swift:174-179 | visible card i gets a transform keyframe to position i, takes that transform and has one more animation in flight |
| `CardStackAnimator.AddSwipeAnimationKeyFrames` | Sources/Shuffle/Classes/SwipeCardStack/CardStackAnimator.swift:181-187 | visible card i gets a layout keyframe at position i, is laid out there and has one more animation in flight |
| `CardStackAnimator.AddUndoAnimationKeyFrames` | Sources/Shuffle/Classes/SwipeCardStack/CardStackAnimator.swift:189-195 | background card i gets a layout keyframe at position i + 1, is laid out there and has one more animation in flight |
| `CardStackAnimator.PlaceCards` | Sources/Shuffle/Classes/SwipeCardStack/CardStackAnimator.swift:75-77 | card i is put at position from + i; in-flight counts unchanged; the cards' transforms are the contiguous positions from, from + 1, ... |
| `CardStackAnimator.LayoutCards` | Sources/Shuffle/Classes/SwipeCardStack/CardStackAnimator.swift:103-105 | card i is laid out at position from + i; in-flight counts unchanged |
| `CardStackAnimator.AnimateReset` | Sources/Shuffle/Classes/SwipeCardStack/CardStackAnimator.swift:57-66 | background card i ends at i + 1 with exactly one animation in flight (cancelled, then keyframed); shown from where it was; reset duration, no delay, no completion |
| `CardStackAnimator.AnimateShift` | Sources/Shuffle/Classes/SwipeCardStack/CardStackAnimator.swift:68-92 | visible card i ends at i; not animated: nothing in flight, completion now; animated: exactly one animation in flight, shown from i + distance, over the shift duration |
| `CardStackAnimator.AnimateSwipe` | Sources/Shuffle/Classes/SwipeCardStack/CardStackAnimator.swift:94-129 | visible card i ends at i; background cards are cancelled (0 in flight, or exactly 1 when animated) while the top card keeps its own count (+1 when animated); not animated: completion now; animated with no visible card: completion after delay + duration; otherwise keyframes after the swipe delay, starting from the transforms the cards carried |
| `CardStackAnimator.AnimateUndo` | Sources/Shuffle/Classes/SwipeCardStack/CardStackAnimator.swift:131-155 | background card i ends at i + 1; not animated: nothing in flight, completion now; animated: exactly one animation in flight, shown from i, over the undo duration |
| `StringUtils.IntToDecimal` | Sources/Shuffle/Classes/Internal/StringUtils.swift:34 | an `Int` is written as its digits, with a minus sign first when negative |
| `StringUtils.CreateInvalidUpdateErrorString` | Sources/Shuffle/Classes/Internal/StringUtils.swift:30-35 | the message starts with "Invalid update: invalid number of cards." and ends with " deleted)" |
| `StringUtils.ParseCreateRoundTrip` | Sources/Shuffle/Classes/Internal/StringUtils.swift:34 | reading the message back gives the new, old, inserted and deleted counts, in that order |
| `StringUtils.CreateInjective` | Sources/Shuffle/Classes/Internal/StringUtils.swift:30-35 | equal messages come only from equal counts |
| `StringUtils.DefaultCountsAreZero` | Sources/Shuffle/Classes/Internal/StringUtils.swift:32-33 | omitting the inserted and deleted counts is the same as passing 0 for both |
| `StringUtils.CountInItsSlot` | Sources/Shuffle/Classes/Internal/StringUtils.swift:34 | count k fills slot k, after the text of the earlier slots and before its own slot's closing text |
| `StringUtils.ChangingOneCountChangesOnlyItsSlot` | Sources/Shuffle/Classes/Internal/StringUtils.swift:34 | replacing one count leaves the text before and after its slot unchanged |
| `StringUtils.SlotDelimiters` | Sources/Shuffle/Classes/Internal/StringUtils.swift:34 | the first three counts sit in parentheses; the inserted count is followed by " inserted, " and the deleted count by " deleted)" |

## Left out

- UIKit animation execution (`Animator.animateKeyFrames`, `addTransformKeyFrame`, `addKeyFrame`, the `.allowUserInteraction` option): keyframes are recorded in a `Schedule`, and no animation clock is simulated.
- `DispatchQueue.main.asyncAfter`: the deferred completion is recorded as `CompletionAfter(delay + duration)`. Run-loop timing is not modelled.
- The completion closures are not called. The `Schedule` says whether the completion ran at once with `true`, was handed to the animation, or was deferred.
- `[weak self]` captures and the `shared` singleton: these concern object lifetime, not behaviour.
- Transform geometry: what `transform(forCardAtPosition:)` and `layoutCard(_:at:)` compute lives in files that are not part of this model. Positions stand for transforms.
- `SwipeCard.removeAllAnimations` is Shuffle code, built on UIKit, and is not part of this model. It is modelled only as setting the card's count of animations in flight to 0; which animations were running is not kept.
- `dragSpeed(on:)` and `minimumSwipeSpeed(on:)` are defined elsewhere. `TopCard` carries their values for the swipe's direction, so the direction itself is not a parameter.
- CardStackAnimator.SwipeDuration: the Swift code divides by the minimum swipe speed without checking it. The model requires it to be positive on that path, so division by zero, infinity and NaN are not modelled.
- IEEE-754 rounding of `TimeInterval` and `CGFloat`: all durations are exact `real`s.
- Swift `Int` overflow of `position + distance` and `position + 1`: positions are unbounded integers.
- Example/Tests/Mocks/MockCardTransformProvider.swift is test scaffolding with no logic of its own.
