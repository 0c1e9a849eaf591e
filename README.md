# Flashcards study session, in Dafny

A model of the one piece of logic in the flashcards app (App.js): the study
screen's cursor over a deck. The screen keeps three state cells, the index of
the card on screen, whether the card shows its back, and the fill of the
progress bar. Four handlers overwrite them: Flip, Next, Prev and Restart. The
primary button runs Restart on the last card and Next elsewhere. The model also
holds the compiled-in sample decks and the top-level switch between the home
screen and a study screen.

- `decks.dfy` (module `Decks`): the `Card` and `Deck` values, the `SampleDecks`
  constant, and the facts the study screen and the home screen rely on.
- `session.dfy` (module `Session`): the session as a value `State`, one function
  per handler, runs of presses on the three buttons the screen shows (the card,
  Previous, and the primary button that reads Next or Restart), and the lemmas about them. The main result is
  `ReachableIffInv`: the states reachable from the mount state are exactly those
  whose index lies in the deck and whose progress is index / length.
- `study_screen.dfy` (module `StudyScreen`): class `StudySession`, whose fields
  are the three state cells and whose methods overwrite them. Each method's
  postcondition ties the new fields to the matching `Session` function, and each
  keeps `Valid()`, which is `Session.Inv`. Class `App` models the home/study
  switch.

Each handler is one atomic transition computed from the state before the press.
This matches the source, where every `set…` call uses the values captured when
the screen was rendered.

On the progress formula in Previous: the handler sets progress to
(old index − 1) / length. That is the new index over the length, the same rule
Next follows. So both directions keep progress equal to index / length, and
no off-by-one exists between them. The model follows the code
(`Session.PrevEffect`, `Session.ReachableIffInv`). The progress bar does top out
at (length − 1) / length on the last card, while the counter reads
"length / length" (`Session.ProgressBounds`, `StudyScreen.StudySession.ProgressWidth`).
This is recorded as behaviour, not as a defect, because the source does not say
which was meant.

## Model

| member | source | states |
|---|---|---|
| Decks.SampleDecksFacts | App.js:18-52 | of the constant `Decks.SampleDecks` (the source's `sampleDecks`, transcribed card for card): every sample deck has a non-empty card list, so it meets the study screen's need for at least one card; deck ids are distinct; there are 3 decks and 9 cards, the figures the home screen hardcodes (App.js:132, App.js:138) |
| Decks.SampleDeckStudyable | App.js:153-155 | any deck the home screen offers for selection has at least one card |
| Session.Flip | App.js:166 | handleFlip always changes the state and touches only the flipped flag |
| Session.Next | App.js:168-174 | handleNext preserves the invariant: index in range and progress == index / length |
| Session.Prev | App.js:176-182 | handlePrev preserves the same invariant |
| Session.Restart | App.js:184-188 | whatever the state before, handleRestart's result satisfies the invariant for every deck length |
| Session.Primary | App.js:230-244 | the primary button's action preserves the same invariant |
| Session.FlipToggles | App.js:166 | Flip negates the flipped flag and leaves index and progress alone; flipping twice restores the state; Flip keeps the invariant both ways |
| Session.NextEffect | App.js:168-174 | below the last card, Next shows the following card front up with progress (index+1)/length; Next leaves the state unchanged exactly on the last card |
| Session.PrevEffect | App.js:176-182 | above the first card, Prev shows the preceding card front up with progress (index−1)/length, i.e. new index / length; Prev leaves the state unchanged exactly on the first card |
| Session.RestartResets | App.js:184-188 | from any state, Restart yields index 0, front up, progress 0, which satisfies the invariant |
| Session.NextPrevInverse | App.js:168-182 | Prev after Next, and Next after Prev, return to the starting card and progress, front up |
| Session.PrimaryDispatch | App.js:230-244 | the primary button restarts exactly on the last card and otherwise advances one card |
| Session.PrimaryNoOp | App.js:230-244 | the primary button leaves the state unchanged if and only if the deck has one card and it shows its front |
| Session.StepKeepsInv | App.js:212-244 | each of the three buttons the screen offers (the card, Previous, the Next/Restart button) keeps the invariant |
| Session.RunKeepsInv | App.js:162-188 | every sequence of button presses from an invariant state ends in an invariant state |
| Session.ReachableIndexInRange | App.js:213 | after any sequence of presses from mount, the card index is within the deck, so `deck.cards[currentIndex]` is defined |
| Session.ReachableIffInv | App.js:162-188 | a state is reachable from the mount state (0, false, 0) by pressing the screen's own buttons if and only if its index is below the length and its progress is index / length; the witness presses the Next/Restart button index times, then flips if needed |
| Session.ProgressBounds | App.js:204 | in every invariant state, 0 <= progress <= (length−1)/length < 1, with the upper bound reached exactly on the last card |
| StudyScreen.StudySession.constructor | App.js:161-164 | mounting the screen on a non-empty deck starts at card 0, front up, progress 0 |
| StudyScreen.StudySession.Flip | App.js:166 | toggles `isFlipped`, leaves the other fields alone, keeps the invariant |
| StudyScreen.StudySession.Next | App.js:168-174 | below the last card: index + 1, front up, progress = new index / length; on the last card nothing changes; the new state is `Session.Next` of the old |
| StudyScreen.StudySession.Prev | App.js:176-182 | above the first card: index − 1, front up, progress = new index / length; on the first card nothing changes; the new state is `Session.Prev` of the old |
| StudyScreen.StudySession.Restart | App.js:184-188 | index 0, front up, progress 0, from any state |
| StudyScreen.StudySession.Primary | App.js:230-244 | on the last card it restarts, elsewhere it advances; the new state is `Session.Primary` of the old |
| StudyScreen.StudySession.CurrentCard | App.js:211-217 | the card handed to the flashcard view is `deck.cards[currentIndex]`, and that index is in range |
| StudyScreen.StudySession.PrevDisabled | App.js:220-224 | the Previous button is disabled exactly on the first card, which is exactly where Prev would change nothing |
| StudyScreen.StudySession.PrimaryLabel | App.js:230-244 | the primary button reads Restart exactly on the last card and Next otherwise; Restart shows exactly where Next would change nothing |
| StudyScreen.StudySession.ProgressWidth | App.js:204 | the fill width is progress × 100 percent and always lies in [0, 100) |
| StudyScreen.App.constructor | App.js:252 | the app starts on the home screen, with no deck selected |
| StudyScreen.App.SelectDeck | App.js:272-275 | from the home screen (no session mounted), selecting a sample deck mounts a fresh study session on it, in the initial state |
| StudyScreen.App.Back | App.js:273 | Back returns to the home screen and drops the session |

## Left out

- The flip animation (App.js:55-99): spring physics and angle interpolation in a UI library, in floating point.
- Rendering: the view trees of `FlashCard`, `DeckCard`, `HomeScreen` and `StudyScreen`, and the style tables (App.js:102-158, App.js:190-247, App.js:281-533). Only the values the study screen derives from its state are modelled: the card shown, the Previous button's disabled flag, the primary button's caption and the progress width.
- Font loading and the "Loading..." screen, `Dimensions.get` and `StatusBar` (App.js:11-15, App.js:254-267): device and library calls.
- React's state batching and re-rendering: each handler is one atomic transition from the state captured at render time.
- Floating point: `progress` is an exact `real`. The source divides two small integers, and the model does not capture rounding.
- A quiz mode with typed answers, scoring and persisted question lists: no source for it is among the files modelled.
- StudyScreen.App.SelectDeck: requires the deck to come from `SampleDecks`, the only decks the home screen lists. An empty deck would make the source read a missing card.
