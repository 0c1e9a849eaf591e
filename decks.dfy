/** The compiled-in sample content of the flashcard app (App.js, `sampleDecks`)
    and the figures the home screen hardcodes about it. */
module Decks {

  /** One flashcard: the question on the front, the answer on the back. */
  datatype Card = Card(front: string, back: string)

  /** A named, coloured deck of cards, in study order. */
  datatype Deck = Deck(id: nat, title: string, emoji: string, color: string, cards: seq<Card>)

  const SampleDecks: seq<Deck> := [
    Deck(1, "JavaScript Basics", "\U{26A1}", "#FF6B6B", [
      Card("What is a closure?",
           "A function that has access to variables from its outer scope, even after the outer function has returned."),
      Card("What is hoisting?",
           "JavaScript's behavior of moving declarations to the top of their scope before execution."),
      Card("What is the difference between let and var?",
           "let is block-scoped and not hoisted, var is function-scoped and hoisted.")
    ]),
    Deck(2, "React Native", "\U{1F4F1}", "#4ECDC4", [
      Card("What is a component?",
           "A reusable piece of UI that can manage its own state and receive props."),
      Card("What is useState?",
           "A React Hook that lets you add state to functional components."),
      Card("What is the purpose of StyleSheet?",
           "An abstraction similar to CSS that provides better performance through style optimization.")
    ]),
    Deck(3, "General Knowledge", "\U{1F30D}", "#FFE66D", [
      Card("What is the largest planet?", "Jupiter"),
      Card("Who painted the Mona Lisa?", "Leonardo da Vinci"),
      Card("What year did World War II end?", "1945")
    ])
  ]

  /** The "Decks" and "Cards" figures the home screen displays as literals. */
  const HomeDeckCount: nat := 3
  const HomeCardCount: nat := 9

  /** Number of cards over a list of decks. */
  function TotalCards(decks: seq<Deck>): (r: nat)
  {
    if decks == [] then 0 else |decks[0].cards| + TotalCards(decks[1..])
  }

  /** Every deck can be opened in the study screen: it has at least one card. */
  predicate AllStudyable(decks: seq<Deck>)
  {
    forall i :: 0 <= i < |decks| ==> |decks[i].cards| > 0
  }

  /** Deck ids serve as list keys on the home screen, so they must be distinct. */
  predicate DistinctIds(decks: seq<Deck>)
  {
    forall i, j :: 0 <= i < j < |decks| ==> decks[i].id != decks[j].id
  }

  /** The sample data meets the study screen's requirement of a non-empty
      card list, has distinct keys, and agrees with the home screen figures. */
  lemma SampleDecksFacts()
    ensures AllStudyable(SampleDecks)
    ensures DistinctIds(SampleDecks)
    ensures |SampleDecks| == HomeDeckCount
    ensures TotalCards(SampleDecks) == HomeCardCount
  {
  }

  /** Any deck the home screen offers can be studied. */
  lemma SampleDeckStudyable(d: Deck)
    requires d in SampleDecks
    ensures |d.cards| > 0
  {
  }
}
