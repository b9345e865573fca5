/** The background-card animator of a swipeable card stack (`CardStackAnimator`
    in Shuffle): how long each transition lasts, how long a swipe waits,
    which cards have their animations cancelled, where each card is put before
    an animation starts and which position each card is animated to.

    Positions and transforms. The transform provider (`transform(forCardAtPosition:)`)
    is not part of this model; a card's `transform` field holds the position
    index whose transform the card currently carries, so assigning
    `transform(forCardAtPosition: p)` to a card is `card.transform := p`.
    `layoutCard(_:at:)` commits the transform of the given position the same way.

    Keyframes are recorded, not run. As in a UIKit keyframe animation, the
    keyframe block assigns the target transform to the card at once and only
    its display is animated: an animated operation leaves every framed card at
    its target, adds one to the card's count of animations in flight, and
    returns the keyframes (card and target position), the transform each framed
    card carries when the animation is scheduled, the duration and the delay. */
module CardStackAnimator {

  datatype Option<T> = None | Some(value: T)

  // ---------------------------------------------------------------------------
  // Animation options and the timing policy
  // ---------------------------------------------------------------------------

  /** Stack-level options: explicit durations that override the ones derived
      from the top card. The shift duration has no derived fallback. */
  datatype StackAnimationOptions = StackAnimationOptions(
    resetDuration: Option<real>,
    shiftDuration: real,
    swipeDuration: Option<real>,
    undoDuration: Option<real>)

  /** Card-level options of the top card. */
  datatype CardAnimationOptions = CardAnimationOptions(
    totalResetDuration: real,
    totalReverseSwipeDuration: real,
    totalSwipeDuration: real,
    relativeSwipeOverlayFadeDuration: real)

  /** What the animator reads from the top card: its options, and its drag
      speed and minimum swipe speed in the direction of the swipe at hand. */
  datatype TopCard = TopCard(
    animationOptions: CardAnimationOptions,
    dragSpeed: real,
    minimumSwipeSpeed: real)

  /** Options a configuration layer would accept: no negative duration, and an
      overlay fade that is a fraction of the swipe. */
  predicate ValidStackOptions(o: StackAnimationOptions) {
    && (o.resetDuration.Some? ==> o.resetDuration.value >= 0.0)
    && o.shiftDuration >= 0.0
    && (o.swipeDuration.Some? ==> o.swipeDuration.value >= 0.0)
    && (o.undoDuration.Some? ==> o.undoDuration.value >= 0.0)
  }

  predicate ValidCardOptions(o: CardAnimationOptions) {
    && o.totalResetDuration >= 0.0
    && o.totalReverseSwipeDuration >= 0.0
    && o.totalSwipeDuration >= 0.0
    && 0.0 <= o.relativeSwipeOverlayFadeDuration <= 1.0
  }

  /** The stack-level value when one is configured, else the derived one. */
  function Resolve(explicit: Option<real>, derived: real): real {
    match explicit
    case Some(d) => d
    case None => derived
  }

  function ResetDuration(stackOptions: StackAnimationOptions, topCard: TopCard): (d: real)
    ensures ValidStackOptions(stackOptions) && ValidCardOptions(topCard.animationOptions) ==> d >= 0.0
  {
    Resolve(stackOptions.resetDuration, topCard.animationOptions.totalResetDuration / 2.0)
  }

  function ShiftDuration(stackOptions: StackAnimationOptions): (d: real)
    ensures ValidStackOptions(stackOptions) ==> d >= 0.0
  {
    stackOptions.shiftDuration
  }

  function UndoDuration(stackOptions: StackAnimationOptions, topCard: TopCard): (d: real)
    ensures ValidStackOptions(stackOptions) && ValidCardOptions(topCard.animationOptions) ==> d >= 0.0
  {
    Resolve(stackOptions.undoDuration, topCard.animationOptions.totalReverseSwipeDuration / 2.0)
  }

  /** How long the background cards wait before following a swipe: a forced
      swipe waits for the top card's overlay to fade in. */
  function SwipeDelay(topCard: TopCard, forced: bool): (d: real)
    ensures ValidCardOptions(topCard.animationOptions) ==> 0.0 <= d <= topCard.animationOptions.totalSwipeDuration
  {
    var options := topCard.animationOptions;
    var delay := options.totalSwipeDuration * options.relativeSwipeOverlayFadeDuration;
    if forced then delay else 0.0
  }

  /** Observed drag speed relative to the minimum swipe speed. */
  function VelocityFactor(topCard: TopCard): real
    requires topCard.minimumSwipeSpeed > 0.0
  {
    topCard.dragSpeed / topCard.minimumSwipeSpeed
  }

  /** Duration of the background cards' catch-up after a swipe at or above the
      minimum speed: shorter the faster the drag, and never above one half. */
  function FastSwipeDuration(velocityFactor: real): (d: real)
    requires velocityFactor >= 1.0
    ensures 0.0 < d <= 0.5
  {
    1.0 / (2.0 * velocityFactor)
  }

  /** The velocity factor is only computed for an unforced swipe without a
      stack-level duration; only then is a positive minimum speed needed. */
  predicate SwipeDurationDefined(stackOptions: StackAnimationOptions, topCard: TopCard, forced: bool) {
    forced || stackOptions.swipeDuration.Some? || topCard.minimumSwipeSpeed > 0.0
  }

  function SwipeDuration(stackOptions: StackAnimationOptions, topCard: TopCard, forced: bool): (d: real)
    requires SwipeDurationDefined(stackOptions, topCard, forced)
    ensures ValidStackOptions(stackOptions) && ValidCardOptions(topCard.animationOptions) ==> d >= 0.0
  {
    if stackOptions.swipeDuration.Some? then stackOptions.swipeDuration.value
    else if forced then topCard.animationOptions.totalSwipeDuration / 2.0
    else if VelocityFactor(topCard) < 1.0 then topCard.animationOptions.totalSwipeDuration / 2.0
    else FastSwipeDuration(VelocityFactor(topCard))
  }

  /** A reset uses the stack-level duration when it is set and half the top
      card's total reset duration otherwise; a shift always uses the
      stack-level duration, whatever the top card. */
  lemma ResetAndShiftDurationResolution(stackOptions: StackAnimationOptions, topCard: TopCard)
    ensures stackOptions.resetDuration == Some(ResetDuration(stackOptions, topCard))
            || (stackOptions.resetDuration.None?
                && ResetDuration(stackOptions, topCard) == topCard.animationOptions.totalResetDuration / 2.0)
    ensures ShiftDuration(stackOptions) == stackOptions.shiftDuration
  {
  }

  /** An undo uses the stack-level duration when it is set and half the top
      card's total reverse-swipe duration otherwise. */
  lemma UndoDurationResolution(stackOptions: StackAnimationOptions, topCard: TopCard)
    ensures stackOptions.undoDuration == Some(UndoDuration(stackOptions, topCard))
            || (stackOptions.undoDuration.None?
                && UndoDuration(stackOptions, topCard) == topCard.animationOptions.totalReverseSwipeDuration / 2.0)
  {
  }

  /** The swipe delay is the overlay fade time exactly when the swipe is
      forced, and it depends on nothing about the drag. */
  lemma SwipeDelayCases(topCard: TopCard, forced: bool, other: TopCard)
    requires other.animationOptions == topCard.animationOptions
    ensures forced ==> SwipeDelay(topCard, forced)
                       == topCard.animationOptions.totalSwipeDuration * topCard.animationOptions.relativeSwipeOverlayFadeDuration
    ensures !forced ==> SwipeDelay(topCard, forced) == 0.0
    ensures SwipeDelay(other, forced) == SwipeDelay(topCard, forced)
  {
  }

  /** The order in which the swipe duration is decided: a stack-level duration
      wins whatever the swipe; otherwise a forced or slow swipe takes half the
      top card's total swipe duration; otherwise the duration falls with the
      velocity factor. */
  lemma SwipeDurationPriority(stackOptions: StackAnimationOptions, topCard: TopCard, forced: bool)
    requires SwipeDurationDefined(stackOptions, topCard, forced)
    ensures stackOptions.swipeDuration.Some? ==>
      forall f: bool, card: TopCard :: SwipeDuration(stackOptions, card, f) == stackOptions.swipeDuration.value
    ensures stackOptions.swipeDuration.None? && (forced || VelocityFactor(topCard) < 1.0) ==>
      SwipeDuration(stackOptions, topCard, forced) == topCard.animationOptions.totalSwipeDuration / 2.0
    ensures stackOptions.swipeDuration.None? && !forced && VelocityFactor(topCard) >= 1.0 ==>
      SwipeDuration(stackOptions, topCard, forced) * (2.0 * VelocityFactor(topCard)) == 1.0
  {
  }

  /** Among unforced swipes without a stack-level duration, at or above the
      minimum speed, a faster drag gives a strictly shorter duration, and every
      such duration lies in (0, 1/2]. */
  lemma FasterSwipeIsShorter(stackOptions: StackAnimationOptions, slow: TopCard, fast: TopCard)
    requires stackOptions.swipeDuration.None?
    requires slow.minimumSwipeSpeed > 0.0 && fast.minimumSwipeSpeed > 0.0
    requires 1.0 <= VelocityFactor(slow) < VelocityFactor(fast)
    ensures 0.0 < SwipeDuration(stackOptions, fast, false) < SwipeDuration(stackOptions, slow, false) <= 0.5
  {
    Reciprocal(VelocityFactor(slow), VelocityFactor(fast));
  }

  /** At exactly the minimum speed the fast formula gives 1/2 while a slightly
      slower swipe gives half the total swipe duration: the duration is
      continuous at the threshold exactly when the total swipe duration is 1. */
  lemma ThresholdContinuity(stackOptions: StackAnimationOptions, atMinimum: TopCard)
    requires stackOptions.swipeDuration.None?
    requires atMinimum.minimumSwipeSpeed > 0.0 && atMinimum.dragSpeed == atMinimum.minimumSwipeSpeed
    ensures SwipeDuration(stackOptions, atMinimum, false) == 0.5
    ensures SwipeDuration(stackOptions, atMinimum, false) == atMinimum.animationOptions.totalSwipeDuration / 2.0
            <==> atMinimum.animationOptions.totalSwipeDuration == 1.0
  {
    DivSelf(atMinimum.minimumSwipeSpeed);
  }

  lemma DivSelf(x: real)
    requires x > 0.0
    ensures x / x == 1.0
  {
  }

  lemma Reciprocal(a: real, b: real)
    requires 1.0 <= a < b
    ensures 0.0 < 1.0 / (2.0 * b) < 1.0 / (2.0 * a) <= 0.5
  {
  }

  /** Worked cases: a 1 s swipe with a 0.2 overlay fade, minimum speed 100. */
  lemma SwipeScenarios(stackOptions: StackAnimationOptions, options: CardAnimationOptions)
    requires stackOptions.swipeDuration.None?
    requires options.totalSwipeDuration == 1.0 && options.relativeSwipeOverlayFadeDuration == 0.2
    ensures var dragged := TopCard(options, 200.0, 100.0);
      SwipeDuration(stackOptions, dragged, false) == 0.25 && SwipeDelay(dragged, false) == 0.0
    ensures var dragged := TopCard(options, 200.0, 100.0);
      SwipeDuration(stackOptions, dragged, true) == 0.5 && SwipeDelay(dragged, true) == 0.2
  {
  }

  // ---------------------------------------------------------------------------
  // Cards, the stack, keyframes and schedules
  // ---------------------------------------------------------------------------

  class SwipeCard {
    /** Position index whose transform the card carries; while the card is
        animating, the transform it is animating to. */
    var transform: int
    /** Number of animations in flight on the card. */
    var inFlight: nat

    /** `removeAllAnimations()`: cancels everything in flight; the card stays at
        the transform it was animating to. */
    method RemoveAllAnimations()
      modifies this
      ensures inFlight == 0 && transform == old(transform)
    {
      inFlight := 0;
    }
  }

  predicate Distinct(cards: seq<SwipeCard>) {
    forall i, j :: 0 <= i < j < |cards| ==> cards[i] != cards[j]
  }

  /** The state the animator reads from the card stack. */
  class SwipeCardStack {
    var visibleCards: seq<SwipeCard>
    var backgroundCards: seq<SwipeCard>
    var animationOptions: StackAnimationOptions

    /** A card is shown at most once, and the background cards are the visible
        cards behind the top one. */
    ghost predicate Valid()
      reads this
    {
      Distinct(visibleCards)
      && backgroundCards == (if visibleCards == [] then [] else visibleCards[1..])
    }

    /** `layoutCard(_:at:)`: commits the transform of `position` to `card`. */
    method LayoutCard(card: SwipeCard, position: int)
      modifies card
      ensures card.transform == position && card.inFlight == old(card.inFlight)
    {
      card.transform := position;
    }
  }

  /** In a valid stack the background cards are distinct visible cards, none of
      them the top card. */
  lemma BackgroundOfValidStack(stack: SwipeCardStack)
    requires stack.Valid()
    ensures Distinct(stack.backgroundCards)
    ensures forall c :: c in stack.backgroundCards ==> c in stack.visibleCards
    ensures stack.visibleCards != [] ==> stack.visibleCards[0] !in stack.backgroundCards
  {
    var v := stack.visibleCards;
    if v != [] {
      forall i | 0 <= i < |stack.backgroundCards|
        ensures stack.backgroundCards[i] == v[i + 1]
      {
      }
    }
  }

  /** The positions the cards carry, in order. */
  function Transforms(cards: seq<SwipeCard>): (positions: seq<int>)
    reads cards
    ensures |positions| == |cards|
    ensures forall i :: 0 <= i < |cards| ==> positions[i] == cards[i].transform
  {
    if cards == [] then [] else [cards[0].transform] + Transforms(cards[1..])
  }

  /** A keyframe: `TransformTo` is `addTransformKeyFrame(to:transform:)` with the
      transform of `position`; `LayoutAt` is `addKeyFrame` around `layoutCard(_:at:)`. */
  datatype KeyFrame =
    | TransformTo(card: SwipeCard, position: int)
    | LayoutAt(card: SwipeCard, position: int)

  /** What an operation did about completion and animation. */
  datatype Schedule =
    | CompletedNow
      // completion(true) ran before the operation returned; nothing was scheduled
    | Animation(duration: real, delay: real, frames: seq<KeyFrame>, starts: seq<int>, completionOnEnd: bool)
      // keyframe animation; `starts[i]` is the transform the card of `frames[i]`
      // carries when the animation is scheduled, which is where it is shown when
      // the animation begins unless another animation on it is still running
      // (only the top card of a swipe can be in that case); the completion,
      // when passed on, runs when it ends
    | CompletionAfter(seconds: real)
      // no animation; completion(true) is scheduled after `seconds`

  /** Keyframes of a reset: background card i back to position i + 1. */
  function CancelSwipeKeyFrames(backgroundCards: seq<SwipeCard>): (frames: seq<KeyFrame>)
  {
    seq(|backgroundCards|, i requires 0 <= i < |backgroundCards| => TransformTo(backgroundCards[i], i + 1))
  }

  /** Keyframes of a shift: visible card i to position i. */
  function ShiftKeyFrames(visibleCards: seq<SwipeCard>): (frames: seq<KeyFrame>)
  {
    seq(|visibleCards|, i requires 0 <= i < |visibleCards| => TransformTo(visibleCards[i], i))
  }

  /** Keyframes of a swipe: visible card i laid out at position i. */
  function SwipeKeyFrames(visibleCards: seq<SwipeCard>): (frames: seq<KeyFrame>)
  {
    seq(|visibleCards|, i requires 0 <= i < |visibleCards| => LayoutAt(visibleCards[i], i))
  }

  /** Keyframes of an undo: background card i laid out at position i + 1. */
  function UndoKeyFrames(backgroundCards: seq<SwipeCard>): (frames: seq<KeyFrame>)
  {
    seq(|backgroundCards|, i requires 0 <= i < |backgroundCards| => LayoutAt(backgroundCards[i], i + 1))
  }

  /** The cards the keyframes animate, in order. */
  function FramedCards(frames: seq<KeyFrame>): (cards: seq<SwipeCard>)
    ensures |cards| == |frames|
    ensures forall i :: 0 <= i < |frames| ==> cards[i] == frames[i].card
  {
    if frames == [] then [] else [frames[0].card] + FramedCards(frames[1..])
  }

  /** The positions the keyframes animate to, in order. */
  function Targets(frames: seq<KeyFrame>): (positions: seq<int>)
    ensures |positions| == |frames|
    ensures forall i :: 0 <= i < |frames| ==> positions[i] == frames[i].position
  {
    if frames == [] then [] else [frames[0].position] + Targets(frames[1..])
  }

  /** The contiguous positions `from`, `from + 1`, ..., `from + n - 1`. */
  function Positions(from: int, n: nat): (positions: seq<int>)
    ensures |positions| == n
    ensures forall i :: 0 <= i < n ==> positions[i] == from + i
    decreases n
  {
    if n == 0 then [] else [from] + Positions(from + 1, n - 1)
  }

  /** Shift and swipe schedule one keyframe per visible card, for exactly
      those cards in order, with the contiguous targets 0, 1, 2, ... */
  lemma ShiftAndSwipeKeyFramesCover(visibleCards: seq<SwipeCard>)
    ensures FramedCards(ShiftKeyFrames(visibleCards)) == visibleCards
    ensures Targets(ShiftKeyFrames(visibleCards)) == Positions(0, |visibleCards|)
    ensures FramedCards(SwipeKeyFrames(visibleCards)) == visibleCards
    ensures Targets(SwipeKeyFrames(visibleCards)) == Positions(0, |visibleCards|)
  {
    CoverOf(ShiftKeyFrames(visibleCards), visibleCards, 0);
    CoverOf(SwipeKeyFrames(visibleCards), visibleCards, 0);
  }

  /** Reset and undo schedule one keyframe per background card, for exactly
      those cards in order, with the contiguous targets 1, 2, 3, ... behind the
      top card. */
  lemma ResetAndUndoKeyFramesCover(backgroundCards: seq<SwipeCard>)
    ensures FramedCards(CancelSwipeKeyFrames(backgroundCards)) == backgroundCards
    ensures Targets(CancelSwipeKeyFrames(backgroundCards)) == Positions(1, |backgroundCards|)
    ensures FramedCards(UndoKeyFrames(backgroundCards)) == backgroundCards
    ensures Targets(UndoKeyFrames(backgroundCards)) == Positions(1, |backgroundCards|)
  {
    CoverOf(CancelSwipeKeyFrames(backgroundCards), backgroundCards, 1);
    CoverOf(UndoKeyFrames(backgroundCards), backgroundCards, 1);
  }

  lemma CoverOf(frames: seq<KeyFrame>, cards: seq<SwipeCard>, from: int)
    requires |frames| == |cards|
    requires forall i :: 0 <= i < |frames| ==> frames[i].card == cards[i] && frames[i].position == from + i
    ensures FramedCards(frames) == cards && Targets(frames) == Positions(from, |cards|)
  {
    assert forall i :: 0 <= i < |cards| ==> FramedCards(frames)[i] == cards[i];
    assert forall i :: 0 <= i < |cards| ==> Targets(frames)[i] == Positions(from, |cards|)[i];
  }

  /** When the background cards are the visible cards after the top one, reset
      and undo animate each background card to the position it is shown at,
      and swipe and shift animate each visible card to its own position. */
  lemma KeyFramesTargetOwnPosition(visibleCards: seq<SwipeCard>, backgroundCards: seq<SwipeCard>)
    requires visibleCards != [] && backgroundCards == visibleCards[1..]
    ensures forall f :: f in CancelSwipeKeyFrames(backgroundCards) ==> 0 <= f.position < |visibleCards| && visibleCards[f.position] == f.card
    ensures forall f :: f in UndoKeyFrames(backgroundCards) ==> 0 <= f.position < |visibleCards| && visibleCards[f.position] == f.card
    ensures forall f :: f in ShiftKeyFrames(visibleCards) ==> 0 <= f.position < |visibleCards| && visibleCards[f.position] == f.card
    ensures forall f :: f in SwipeKeyFrames(visibleCards) ==> 0 <= f.position < |visibleCards| && visibleCards[f.position] == f.card
  {
  }


  // ---------------------------------------------------------------------------
  // Cancelling animations
  // ---------------------------------------------------------------------------

  /** `removeBackgroundCardAnimations`: cancels the animations of the background
      cards and of no other card; transforms stay. Running it again changes
      nothing, since the new state does not depend on the old counts. */
  method RemoveBackgroundCardAnimations(stack: SwipeCardStack)
    modifies stack.backgroundCards
    ensures forall c :: c in stack.backgroundCards ==> c.inFlight == 0 && c.transform == old(c.transform)
  {
    var cards := stack.backgroundCards;
    for i := 0 to |cards|
      invariant forall j :: 0 <= j < i ==> cards[j].inFlight == 0
      invariant forall c :: c in cards ==> c.transform == old(c.transform)
    {
      cards[i].RemoveAllAnimations();
    }
  }

  /** `removeAllCardAnimations`: cancels the animations of every visible card
      and of no other card; transforms stay. */
  method RemoveAllCardAnimations(stack: SwipeCardStack)
    modifies stack.visibleCards
    ensures forall c :: c in stack.visibleCards ==> c.inFlight == 0 && c.transform == old(c.transform)
  {
    var cards := stack.visibleCards;
    for i := 0 to |cards|
      invariant forall j :: 0 <= j < i ==> cards[j].inFlight == 0
      invariant forall c :: c in cards ==> c.transform == old(c.transform)
    {
      cards[i].RemoveAllAnimations();
    }
  }

  // ---------------------------------------------------------------------------
  // Keyframe builders: each card gets one keyframe, takes its target transform
  // and has one more animation in flight
  // ---------------------------------------------------------------------------

  method AddCancelSwipeAnimationKeyFrames(stack: SwipeCardStack) returns (frames: seq<KeyFrame>)
    requires Distinct(stack.backgroundCards)
    modifies stack.backgroundCards
    ensures frames == CancelSwipeKeyFrames(stack.backgroundCards)
    ensures forall i :: 0 <= i < |stack.backgroundCards| ==>
      stack.backgroundCards[i].transform == i + 1
      && stack.backgroundCards[i].inFlight == old(stack.backgroundCards[i].inFlight) + 1
  {
    var cards := stack.backgroundCards;
    frames := [];
    for i := 0 to |cards|
      invariant frames == CancelSwipeKeyFrames(cards[..i])
      invariant forall j :: 0 <= j < i ==> cards[j].transform == j + 1 && cards[j].inFlight == old(cards[j].inFlight) + 1
      invariant forall j :: i <= j < |cards| ==> cards[j].inFlight == old(cards[j].inFlight)
    {
      frames := frames + [TransformTo(cards[i], i + 1)];
      cards[i].transform := i + 1;
      cards[i].inFlight := cards[i].inFlight + 1;
    }
    assert cards[..|cards|] == cards;
  }

  method AddShiftAnimationKeyFrames(stack: SwipeCardStack) returns (frames: seq<KeyFrame>)
    requires Distinct(stack.visibleCards)
    modifies stack.visibleCards
    ensures frames == ShiftKeyFrames(stack.visibleCards)
    ensures forall i :: 0 <= i < |stack.visibleCards| ==>
      stack.visibleCards[i].transform == i
      && stack.visibleCards[i].inFlight == old(stack.visibleCards[i].inFlight) + 1
  {
    var cards := stack.visibleCards;
    frames := [];
    for i := 0 to |cards|
      invariant frames == ShiftKeyFrames(cards[..i])
      invariant forall j :: 0 <= j < i ==> cards[j].transform == j && cards[j].inFlight == old(cards[j].inFlight) + 1
      invariant forall j :: i <= j < |cards| ==> cards[j].inFlight == old(cards[j].inFlight)
    {
      frames := frames + [TransformTo(cards[i], i)];
      cards[i].transform := i;
      cards[i].inFlight := cards[i].inFlight + 1;
    }
    assert cards[..|cards|] == cards;
  }

  method AddSwipeAnimationKeyFrames(stack: SwipeCardStack) returns (frames: seq<KeyFrame>)
    requires Distinct(stack.visibleCards)
    modifies stack.visibleCards
    ensures frames == SwipeKeyFrames(stack.visibleCards)
    ensures forall i :: 0 <= i < |stack.visibleCards| ==>
      stack.visibleCards[i].transform == i
      && stack.visibleCards[i].inFlight == old(stack.visibleCards[i].inFlight) + 1
  {
    var cards := stack.visibleCards;
    frames := [];
    for i := 0 to |cards|
      invariant frames == SwipeKeyFrames(cards[..i])
      invariant forall j :: 0 <= j < i ==> cards[j].transform == j && cards[j].inFlight == old(cards[j].inFlight) + 1
      invariant forall j :: i <= j < |cards| ==> cards[j].inFlight == old(cards[j].inFlight)
    {
      frames := frames + [LayoutAt(cards[i], i)];
      stack.LayoutCard(cards[i], i);
      cards[i].inFlight := cards[i].inFlight + 1;
    }
    assert cards[..|cards|] == cards;
  }

  method AddUndoAnimationKeyFrames(stack: SwipeCardStack) returns (frames: seq<KeyFrame>)
    requires Distinct(stack.backgroundCards)
    modifies stack.backgroundCards
    ensures frames == UndoKeyFrames(stack.backgroundCards)
    ensures forall i :: 0 <= i < |stack.backgroundCards| ==>
      stack.backgroundCards[i].transform == i + 1
      && stack.backgroundCards[i].inFlight == old(stack.backgroundCards[i].inFlight) + 1
  {
    var cards := stack.backgroundCards;
    frames := [];
    for i := 0 to |cards|
      invariant frames == UndoKeyFrames(cards[..i])
      invariant forall j :: 0 <= j < i ==> cards[j].transform == j + 1 && cards[j].inFlight == old(cards[j].inFlight) + 1
      invariant forall j :: i <= j < |cards| ==> cards[j].inFlight == old(cards[j].inFlight)
    {
      frames := frames + [LayoutAt(cards[i], i + 1)];
      stack.LayoutCard(cards[i], i + 1);
      cards[i].inFlight := cards[i].inFlight + 1;
    }
    assert cards[..|cards|] == cards;
  }

  /** Puts card i at position `from + i` without animation, as the loops that
      assign `transform(forCardAtPosition:)` directly do. */
  method PlaceCards(cards: seq<SwipeCard>, from: int)
    requires Distinct(cards)
    modifies cards
    ensures forall i :: 0 <= i < |cards| ==> cards[i].transform == from + i && cards[i].inFlight == old(cards[i].inFlight)
    ensures Transforms(cards) == Positions(from, |cards|)
  {
    for i := 0 to |cards|
      invariant forall j :: 0 <= j < i ==> cards[j].transform == from + j
      invariant forall j :: 0 <= j < |cards| ==> cards[j].inFlight == old(cards[j].inFlight)
    {
      cards[i].transform := from + i;
    }
    TransformsArePositions(cards, from);
  }

  /** Lays card i out at position `from + i` through `layoutCard(_:at:)`. */
  method LayoutCards(stack: SwipeCardStack, cards: seq<SwipeCard>, from: int)
    requires Distinct(cards)
    modifies cards
    ensures forall i :: 0 <= i < |cards| ==> cards[i].transform == from + i && cards[i].inFlight == old(cards[i].inFlight)
  {
    for i := 0 to |cards|
      invariant forall j :: 0 <= j < i ==> cards[j].transform == from + j
      invariant forall j :: 0 <= j < |cards| ==> cards[j].inFlight == old(cards[j].inFlight)
    {
      stack.LayoutCard(cards[i], from + i);
    }
  }

  lemma TransformsArePositions(cards: seq<SwipeCard>, from: int)
    requires forall i :: 0 <= i < |cards| ==> cards[i].transform == from + i
    ensures Transforms(cards) == Positions(from, |cards|)
  {
    assert forall i :: 0 <= i < |cards| ==> Transforms(cards)[i] == Positions(from, |cards|)[i];
  }

  // ---------------------------------------------------------------------------
  // The four operations. Each cancels what is in flight on some cards before
  // scheduling keyframes, so every card it cancels and then animates ends with
  // exactly one animation in flight. The exception is the top visible card in
  // a swipe: it is keyframed without being cancelled and keeps what it had in
  // flight, plus one.
  // ---------------------------------------------------------------------------

  /** `animateReset`: after a cancelled swipe, the background cards go back
      behind the top card, over the reset duration, with no completion. */
  method AnimateReset(stack: SwipeCardStack, topCard: TopCard) returns (s: Schedule)
    requires stack.Valid()
    modifies stack.backgroundCards
    ensures s == Animation(ResetDuration(stack.animationOptions, topCard), 0.0,
                           CancelSwipeKeyFrames(stack.backgroundCards), old(Transforms(stack.backgroundCards)), false)
    ensures forall i :: 0 <= i < |stack.backgroundCards| ==>
      stack.backgroundCards[i].transform == i + 1 && stack.backgroundCards[i].inFlight == 1
  {
    BackgroundOfValidStack(stack);
    RemoveBackgroundCardAnimations(stack);
    var starts := Transforms(stack.backgroundCards);
    assert starts == old(Transforms(stack.backgroundCards));
    var frames := AddCancelSwipeAnimationKeyFrames(stack);
    s := Animation(ResetDuration(stack.animationOptions, topCard), 0.0, frames, starts, false);
  }

  /** `animateShift`: cancels every visible card's animations. Without
      animation each visible card i is put at position i and the completion
      runs at once with `true`; with animation each card i is first put back at
      the position it had before the shift, i + distance, and keyframed to i. */
  method AnimateShift(stack: SwipeCardStack, distance: int, animated: bool) returns (s: Schedule)
    requires stack.Valid()
    modifies stack.visibleCards
    ensures !animated ==> s == CompletedNow
    ensures animated ==> s == Animation(ShiftDuration(stack.animationOptions), 0.0, ShiftKeyFrames(stack.visibleCards),
                                        Positions(distance, |stack.visibleCards|), true)
    ensures forall i :: 0 <= i < |stack.visibleCards| ==>
      stack.visibleCards[i].transform == i && stack.visibleCards[i].inFlight == (if animated then 1 else 0)
  {
    RemoveAllCardAnimations(stack);
    var cards := stack.visibleCards;
    assert forall i :: 0 <= i < |cards| ==> cards[i].inFlight == 0;
    if !animated {
      PlaceCards(cards, 0);
      s := CompletedNow;
      return;
    }
    // place the cards where they were before the shift
    PlaceCards(cards, distance);
    var starts := Transforms(cards);
    var frames := AddShiftAnimationKeyFrames(stack);
    s := Animation(ShiftDuration(stack.animationOptions), 0.0, frames, starts, true);
  }

  /** `animateSwipe`: cancels the background cards' animations only; the top
      visible card keeps what it has in flight. Without animation each visible
      card i is laid out at position i and the completion runs at once with
      `true`. With animation and no visible card left, the completion is
      deferred by delay + duration; otherwise each visible card i is keyframed
      to position i after the swipe delay. */
  method AnimateSwipe(stack: SwipeCardStack, topCard: TopCard, forced: bool, animated: bool) returns (s: Schedule)
    requires stack.Valid()
    requires animated ==> SwipeDurationDefined(stack.animationOptions, topCard, forced)
    modifies stack.visibleCards
    ensures !animated ==> s == CompletedNow
    ensures animated && stack.visibleCards == [] ==>
      s == CompletionAfter(SwipeDelay(topCard, forced) + SwipeDuration(stack.animationOptions, topCard, forced))
    ensures animated && stack.visibleCards != [] ==>
      s == Animation(SwipeDuration(stack.animationOptions, topCard, forced), SwipeDelay(topCard, forced),
                     SwipeKeyFrames(stack.visibleCards), old(Transforms(stack.visibleCards)), true)
    ensures forall i :: 0 <= i < |stack.visibleCards| ==> stack.visibleCards[i].transform == i
    ensures forall c :: c in stack.backgroundCards ==> c.inFlight == (if animated then 1 else 0)
    ensures stack.visibleCards != [] ==>
      stack.visibleCards[0].inFlight == old(stack.visibleCards[0].inFlight) + (if animated then 1 else 0)
  {
    BackgroundOfValidStack(stack);
    RemoveBackgroundCardAnimations(stack);
    var cards := stack.visibleCards;
    if !animated {
      LayoutCards(stack, cards, 0);
      s := CompletedNow;
      return;
    }
    var delay := SwipeDelay(topCard, forced);
    var duration := SwipeDuration(stack.animationOptions, topCard, forced);
    if cards == [] {
      s := CompletionAfter(delay + duration);
      return;
    }
    var starts := Transforms(cards);
    assert starts == old(Transforms(stack.visibleCards));
    var frames := AddSwipeAnimationKeyFrames(stack);
    s := Animation(duration, delay, frames, starts, true);
  }

  /** `animateUndo`: cancels the background cards' animations. Without
      animation background card i is laid out at position i + 1 and the
      completion runs at once with `true`; with animation card i is first put
      at position i, where it was before the undo, and keyframed to i + 1. */
  method AnimateUndo(stack: SwipeCardStack, topCard: TopCard, animated: bool) returns (s: Schedule)
    requires stack.Valid()
    modifies stack.backgroundCards
    ensures !animated ==> s == CompletedNow
    ensures animated ==> s == Animation(UndoDuration(stack.animationOptions, topCard), 0.0,
                                        UndoKeyFrames(stack.backgroundCards), Positions(0, |stack.backgroundCards|), true)
    ensures forall i :: 0 <= i < |stack.backgroundCards| ==>
      stack.backgroundCards[i].transform == i + 1 && stack.backgroundCards[i].inFlight == (if animated then 1 else 0)
  {
    BackgroundOfValidStack(stack);
    RemoveBackgroundCardAnimations(stack);
    var cards := stack.backgroundCards;
    assert forall i :: 0 <= i < |cards| ==> cards[i].inFlight == 0;
    if !animated {
      LayoutCards(stack, cards, 1);
      s := CompletedNow;
      return;
    }
    // place the cards where they were before the undo
    PlaceCards(cards, 0);
    var starts := Transforms(cards);
    var frames := AddUndoAnimationKeyFrames(stack);
    s := Animation(UndoDuration(stack.animationOptions, topCard), 0.0, frames, starts, true);
  }
}
