/** The stateful side of App.js: `StudyScreen`'s three state cells as the
    fields of a session object whose handlers overwrite them, and the `App`
    component's switch between the home screen and a study screen. Each
    handler is proved against its transition in `Session`. */
module StudyScreen {
  import opened Decks
  import Session

  class StudySession {
    /** The deck being studied and its length; fixed for the screen's lifetime. */
    const deck: Deck
    const n: nat

    var currentIndex: nat
    var isFlipped: bool
    var progress: real

    /** The state cells as a value. */
    function Snapshot(): Session.State
      reads this
    {
      Session.State(currentIndex, isFlipped, progress)
    }

    ghost predicate Valid()
      reads this
    {
      n == |deck.cards| && Session.Inv(n, Snapshot())
    }

    /** Mounting the screen on a deck: first card, front up, empty bar. */
    constructor (d: Deck)
      requires |d.cards| > 0
      ensures Valid() && deck == d && n == |d.cards|
      ensures Snapshot() == Session.Initial
    {
      deck := d;
      n := |d.cards|;
      currentIndex := 0;
      isFlipped := false;
      progress := 0.0;
    }

    method Flip()
      requires Valid()
      modifies this
      ensures Valid()
      ensures isFlipped == !old(isFlipped)
      ensures currentIndex == old(currentIndex) && progress == old(progress)
      ensures Snapshot() == Session.Flip(old(Snapshot()))
    {
      isFlipped := !isFlipped;
    }

    method Next()
      requires Valid()
      modifies this
      ensures Valid()
      ensures old(currentIndex) < n - 1 ==>
        currentIndex == old(currentIndex) + 1 && !isFlipped && progress == Session.Fraction(currentIndex, n)
      ensures old(currentIndex) == n - 1 ==> unchanged(this)
      ensures Snapshot() == Session.Next(n, old(Snapshot()))
    {
      if currentIndex < n - 1 {
        var was := currentIndex;
        currentIndex := was + 1;
        isFlipped := false;
        progress := (was + 1) as real / n as real;
      }
    }

    method Prev()
      requires Valid()
      modifies this
      ensures Valid()
      ensures old(currentIndex) > 0 ==>
        currentIndex == old(currentIndex) - 1 && !isFlipped && progress == Session.Fraction(currentIndex, n)
      ensures old(currentIndex) == 0 ==> unchanged(this)
      ensures Snapshot() == Session.Prev(n, old(Snapshot()))
    {
      if currentIndex > 0 {
        var was := currentIndex;
        currentIndex := was - 1;
        isFlipped := false;
        progress := (was - 1) as real / n as real;
      }
    }

    method Restart()
      requires Valid()
      modifies this
      ensures Valid()
      ensures currentIndex == 0 && !isFlipped && progress == 0.0
      ensures Snapshot() == Session.Restart(old(Snapshot()))
    {
      currentIndex := 0;
      isFlipped := false;
      progress := 0.0;
    }

    /** The primary button: Restart on the last card, Next elsewhere. */
    method Primary()
      requires Valid()
      modifies this
      ensures Valid()
      ensures old(currentIndex) == n - 1 ==> currentIndex == 0 && !isFlipped && progress == 0.0
      ensures old(currentIndex) < n - 1 ==> currentIndex == old(currentIndex) + 1 && !isFlipped
      ensures Snapshot() == Session.Primary(n, old(Snapshot()))
    {
      if currentIndex == n - 1 {
        Restart();
      } else {
        Next();
      }
    }

    /** The card on screen, always within the deck. */
    method CurrentCard() returns (c: Card)
      requires Valid()
      ensures currentIndex < |deck.cards| && c == deck.cards[currentIndex]
    {
      c := deck.cards[currentIndex];
    }

    /** The Previous button is disabled exactly where Prev would do nothing. */
    method PrevDisabled() returns (disabled: bool)
      requires Valid()
      ensures disabled <==> currentIndex == 0
      ensures disabled <==> Session.Prev(n, Snapshot()) == Snapshot()
    {
      disabled := currentIndex == 0;
    }

    /** The primary button reads "Restart" exactly where Next would do nothing. */
    method PrimaryLabel() returns (caption: string)
      requires Valid()
      ensures caption == "Restart" || caption == "Next"
      ensures caption == "Restart" <==> currentIndex == n - 1
      ensures caption == "Restart" <==> Session.Next(n, Snapshot()) == Snapshot()
    {
      caption := if currentIndex == n - 1 then "Restart" else "Next";
    }

    /** The width of the progress fill, in percent: never a full bar. */
    method ProgressWidth() returns (percent: real)
      requires Valid()
      ensures percent == progress * 100.0
      ensures 0.0 <= percent < 100.0
    {
      Session.ProgressBounds(n, Snapshot());
      percent := progress * 100.0;
    }
  }

  /** The top-level component: the home screen, or a study screen on the
      deck picked there. */
  class App {
    var study: StudySession?

    ghost predicate Valid()
      reads this, study
    {
      study != null ==> study.deck in SampleDecks && study.Valid()
    }

    /** Launch on the home screen. */
    constructor ()
      ensures Valid() && study == null
    {
      study := null;
    }

    /** Tapping a deck on the home screen, which shows only while no deck is
        selected, mounts a fresh study session on it. */
    method SelectDeck(d: Deck)
      requires study == null
      requires d in SampleDecks
      modifies this
      ensures Valid()
      ensures study != null && fresh(study) && study.deck == d
      ensures study.Snapshot() == Session.Initial
    {
      SampleDeckStudyable(d);
      study := new StudySession(d);
    }

    /** The Back button returns to the home screen, dropping the session. */
    method Back()
      modifies this
      ensures Valid() && study == null
    {
      study := null;
    }
  }
}
