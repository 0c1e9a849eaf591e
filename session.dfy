/** The study-session cursor of App.js's `StudyScreen`, as values: the three
    state cells, the four handlers and the primary-button dispatch, each a
    transition that reads the state before the press and yields the state after.
    `n` is the length of the deck being studied. */
module Session {

  /** The three state cells: `currentIndex`, `isFlipped`, `progress`. */
  datatype State = State(index: nat, flipped: bool, progress: real)

  /** The buttons the study screen offers: the card itself (flip), Previous,
      and the primary button, which is Next below the last card and Restart on
      it. Next and Restart are never offered apart from that button. */
  datatype Action = FlipCard | PrevCard | PrimaryButton

  /** The state on mount: first card, front side up, empty progress bar. */
  const Initial: State := State(0, false, 0.0)

  /** The fraction of the deck before card `i`. */
  function Fraction(i: nat, n: nat): (r: real)
    requires n > 0
  {
    i as real / n as real
  }

  /** What every reachable state satisfies: the card index is in range and the
      progress bar shows the index as a fraction of the deck. */
  predicate Inv(n: nat, s: State)
  {
    n > 0 && s.index < n && s.progress == Fraction(s.index, n)
  }

  /** `handleFlip`: turn the card over. */
  function Flip(s: State): (r: State)
    ensures r != s
    ensures r.index == s.index && r.progress == s.progress
  {
    s.(flipped := !s.flipped)
  }

  /** `handleNext`: advance unless on the last card. */
  function Next(n: nat, s: State): (r: State)
    requires n > 0
    ensures Inv(n, s) ==> Inv(n, r)
  {
    if s.index < n - 1 then State(s.index + 1, false, (s.index + 1) as real / n as real) else s
  }

  /** `handlePrev`: go back unless on the first card. */
  function Prev(n: nat, s: State): (r: State)
    requires n > 0
    ensures Inv(n, s) ==> Inv(n, r)
  {
    if s.index > 0 then State(s.index - 1, false, (s.index - 1) as real / n as real) else s
  }

  /** `handleRestart`: back to the first card, from anywhere. */
  function Restart(s: State): (r: State)
    ensures forall n: nat :: n > 0 ==> Inv(n, r)
  {
    Initial
  }

  /** The primary button: labelled Restart on the last card, Next elsewhere. */
  function Primary(n: nat, s: State): (r: State)
    requires n > 0
    ensures Inv(n, s) ==> Inv(n, r)
  {
    if s.index == n - 1 then Restart(s) else Next(n, s)
  }

  /** The effect of pressing one button. */
  function Step(n: nat, s: State, a: Action): (r: State)
    requires n > 0
  {
    match a
    case FlipCard => Flip(s)
    case PrevCard => Prev(n, s)
    case PrimaryButton => Primary(n, s)
  }

  /** The state after a sequence of presses. */
  function Run(n: nat, s: State, acts: seq<Action>): (r: State)
    requires n > 0
    decreases |acts|
  {
    if acts == [] then s else Run(n, Step(n, s, acts[0]), acts[1..])
  }

  /** A state some sequence of button presses reaches from the initial state. */
  ghost predicate Reachable(n: nat, s: State)
    requires n > 0
  {
    exists acts :: Run(n, Initial, acts) == s
  }

  // ---------------------------------------------------------------------
  // Single transitions

  /** Flip toggles the flag, changes nothing else, and undoes itself. */
  lemma FlipToggles(n: nat, s: State)
    ensures Flip(s).flipped == !s.flipped
    ensures Flip(s).index == s.index && Flip(s).progress == s.progress
    ensures Flip(Flip(s)) == s
    ensures Inv(n, s) <==> Inv(n, Flip(s))
  {
  }

  /** Next moves one card on, face up, with the bar at the new fraction; on
      the last card it changes nothing. */
  lemma NextEffect(n: nat, s: State)
    requires Inv(n, s)
    ensures s.index < n - 1 ==> Next(n, s) == State(s.index + 1, false, Fraction(s.index + 1, n))
    ensures s.index == n - 1 <==> Next(n, s) == s
  {
  }

  /** Prev moves one card back, face up, with the bar at the new fraction; on
      the first card it changes nothing. */
  lemma PrevEffect(n: nat, s: State)
    requires Inv(n, s)
    ensures s.index > 0 ==> Prev(n, s) == State(s.index - 1, false, Fraction(s.index - 1, n))
    ensures s.index == 0 <==> Prev(n, s) == s
  {
  }

  /** Restart yields the initial state from any state whatsoever. */
  lemma RestartResets(n: nat, s: State)
    requires n > 0
    ensures Restart(s) == State(0, false, 0.0)
    ensures Inv(n, Restart(s))
  {
  }

  /** Prev undoes Next, and Next undoes Prev, up to the card's side. */
  lemma NextPrevInverse(n: nat, s: State)
    requires Inv(n, s)
    ensures s.index < n - 1 ==> Prev(n, Next(n, s)) == s.(flipped := false)
    ensures s.index > 0 ==> Next(n, Prev(n, s)) == s.(flipped := false)
  {
  }

  /** The primary button restarts exactly on the last card and advances
      elsewhere. */
  lemma PrimaryDispatch(n: nat, s: State)
    requires Inv(n, s)
    ensures s.index == n - 1 ==> Primary(n, s) == Initial
    ensures s.index != n - 1 ==> Primary(n, s) == Next(n, s) && Primary(n, s).index == s.index + 1
  {
  }

  /** The primary button always does something, except Restart on a
      one-card deck already showing its front. */
  lemma PrimaryNoOp(n: nat, s: State)
    requires Inv(n, s)
    ensures Primary(n, s) == s <==> n == 1 && !s.flipped
  {
  }

  // ---------------------------------------------------------------------
  // Sequences of presses

  /** Each of the three buttons keeps the invariant. */
  lemma StepKeepsInv(n: nat, s: State, a: Action)
    requires Inv(n, s)
    ensures Inv(n, Step(n, s, a))
  {
  }

  /** Every sequence of presses keeps the invariant. */
  lemma {:induction false} RunKeepsInv(n: nat, s: State, acts: seq<Action>)
    requires Inv(n, s)
    ensures Inv(n, Run(n, s, acts))
    decreases |acts|
  {
    if acts != [] {
      StepKeepsInv(n, s, acts[0]);
      RunKeepsInv(n, Step(n, s, acts[0]), acts[1..]);
    }
  }

  /** Pressing one sequence and then another is pressing their concatenation. */
  lemma {:induction false} RunAppend(n: nat, s: State, a: seq<Action>, b: seq<Action>)
    requires n > 0
    ensures Run(n, s, a + b) == Run(n, Run(n, s, a), b)
    decreases |a|
  {
    if a != [] {
      assert (a + b)[0] == a[0];
      assert (a + b)[1..] == a[1..] + b;
      RunAppend(n, Step(n, s, a[0]), a[1..], b);
    } else {
      assert a + b == b;
    }
  }

  /** `k` presses of the primary button from the initial state show card `k`,
      front up: below the last card the button is Next. */
  lemma {:induction false} RunPrimaries(n: nat, k: nat)
    requires k < n
    ensures Run(n, Initial, seq(k, _ => PrimaryButton)) == State(k, false, Fraction(k, n))
  {
    if k > 0 {
      var prefix := seq(k - 1, _ => PrimaryButton);
      assert seq(k, _ => PrimaryButton) == prefix + [PrimaryButton];
      RunAppend(n, Initial, prefix, [PrimaryButton]);
      RunPrimaries(n, k - 1);
      assert Run(n, State(k - 1, false, Fraction(k - 1, n)), [PrimaryButton])
          == Primary(n, State(k - 1, false, Fraction(k - 1, n)));
    }
  }

  /** The reachable states are exactly the states satisfying the invariant. */
  lemma ReachableIffInv(n: nat, s: State)
    requires n > 0
    ensures Reachable(n, s) <==> Inv(n, s)
  {
    if Reachable(n, s) {
      var acts :| Run(n, Initial, acts) == s;
      RunKeepsInv(n, Initial, acts);
    }
    if Inv(n, s) {
      var presses := seq(s.index, _ => PrimaryButton);
      var acts := presses + if s.flipped then [FlipCard] else [];
      RunPrimaries(n, s.index);
      RunAppend(n, Initial, presses, if s.flipped then [FlipCard] else []);
      assert Run(n, Initial, acts) == s;
    }
  }

  /** Whatever has been pressed, the card to show is within the deck. */
  lemma ReachableIndexInRange(n: nat, acts: seq<Action>)
    requires n > 0
    ensures Run(n, Initial, acts).index < n
  {
    RunKeepsInv(n, Initial, acts);
  }

  /** The bar is never full: it tops out at (n-1)/n, on the last card. */
  lemma ProgressBounds(n: nat, s: State)
    requires Inv(n, s)
    ensures 0.0 <= s.progress <= Fraction(n - 1, n) < 1.0
    ensures s.progress == Fraction(n - 1, n) <==> s.index == n - 1
  {
  }
}
