/** `ScannerViewModel`: the list of cards scanned in a session, its total value, and saving the
    list through the repository. Saving a card is an oracle that stores it, reports a failure, or
    throws. */
module ScannerViewModel {
  import opened Wrappers
  import opened ScannedCards
  import opened Filtering

  datatype ScannerUiState = ScannerUiState(
    scannedCards: seq<ScannedCard>, isProcessing: bool, isSaving: bool,
    totalValue: real, errorMessage: Option<string>)

  /** The defaults of `ScannerUiState()`. */
  const InitialState: ScannerUiState := ScannerUiState([], false, false, 0.0, None)

  /** `cardRepository.saveCard`: stored, a failure result, or an exception that escapes. */
  datatype SaveOutcome = Saved | SaveFailed(message: string) | SaveThrew(message: string)
  type CardSaver = ScannedCard -> SaveOutcome

  const SAVE_FAILED: string := "Failed to save cards: "

  /** `sumOf { it.price }`. */
  function TotalValue(cards: seq<ScannedCard>): real {
    if cards == [] then 0.0 else cards[0].price + TotalValue(cards[1..])
  }

  lemma {:induction false} TotalValueAppend(a: seq<ScannedCard>, b: seq<ScannedCard>)
    ensures TotalValue(a + b) == TotalValue(a) + TotalValue(b)
  {
    if a != [] {
      assert (a + b)[1..] == a[1..] + b;
      TotalValueAppend(a[1..], b);
    } else {
      assert a + b == b;
    }
  }

  /** The cards `removeAll { it.id == cardId }` keeps. */
  function OtherId(cardId: string): ScannedCard -> bool {
    (c: ScannedCard) => c.id != cardId
  }

  /** The first card whose save throws, if any. */
  function FirstThrow(cards: seq<ScannedCard>, save: CardSaver): (k: nat)
    ensures k <= |cards|
    ensures forall i :: 0 <= i < k ==> !save(cards[i]).SaveThrew?
    ensures k < |cards| ==> save(cards[k]).SaveThrew?
  {
    if cards == [] then 0
    else if save(cards[0]).SaveThrew? then 0
    else 1 + FirstThrow(cards[1..], save)
  }

  /** The scanner screen's state holder. */
  class ScannerScreenModel {
    var uiState: ScannerUiState

    /** The total shown is the value of the cards shown. */
    predicate Valid()
      reads this
    {
      uiState.totalValue == TotalValue(uiState.scannedCards)
    }

    constructor ()
      ensures uiState == InitialState && Valid()
    {
      uiState := InitialState;
    }

    /** `addScannedCards`: the new cards go after the existing ones. */
    method AddScannedCards(cards: seq<ScannedCard>)
      modifies this
      ensures uiState == old(uiState).(scannedCards := old(uiState).scannedCards + cards,
                                       totalValue := TotalValue(old(uiState).scannedCards + cards))
      ensures Valid()
      ensures old(Valid()) ==> uiState.totalValue == old(uiState.totalValue) + TotalValue(cards)
    {
      var currentCards := uiState.scannedCards;
      currentCards := currentCards + cards;
      uiState := uiState.(scannedCards := currentCards, totalValue := TotalValue(currentCards));
      TotalValueAppend(old(uiState).scannedCards, cards);
    }

    /** `removeCard`: every card with the id goes, the others stay in order. */
    method RemoveCard(cardId: string)
      modifies this
      ensures uiState == old(uiState).(scannedCards := Filter(OtherId(cardId), old(uiState).scannedCards),
                                       totalValue := TotalValue(Filter(OtherId(cardId), old(uiState).scannedCards)))
      ensures forall c :: c in uiState.scannedCards <==> c in old(uiState).scannedCards && c.id != cardId
      ensures Valid()
    {
      var currentCards := Filter(OtherId(cardId), uiState.scannedCards);
      uiState := uiState.(scannedCards := currentCards, totalValue := TotalValue(currentCards));
      FilterMembers(OtherId(cardId), old(uiState).scannedCards);
    }

    /** `clearCards`. */
    method ClearCards()
      modifies this
      ensures uiState == old(uiState).(scannedCards := [], totalValue := 0.0)
      ensures Valid()
    {
      uiState := uiState.(scannedCards := [], totalValue := 0.0);
    }

    /** `saveCards`: hands every card to the repository in order, ignoring failure results, then
        empties the list; an exception stops the loop, keeps the list and records the error.
        `attempted` lists the cards handed over. */
    method SaveCards(save: CardSaver) returns (attempted: seq<ScannedCard>)
      modifies this
      ensures FirstThrow(old(uiState).scannedCards, save) == |old(uiState).scannedCards| ==>
        attempted == old(uiState).scannedCards &&
        uiState == old(uiState).(scannedCards := [], totalValue := 0.0, isSaving := false)
      ensures var cards := old(uiState).scannedCards;
        var k := FirstThrow(cards, save);
        k < |cards| ==>
          attempted == cards[..k + 1] &&
          uiState == old(uiState).(isSaving := false, errorMessage := Some(SAVE_FAILED + save(cards[k]).message))
      ensures old(Valid()) ==> Valid()
    {
      uiState := uiState.(isSaving := true);
      var cards := uiState.scannedCards;
      attempted := [];
      for i := 0 to |cards|
        invariant attempted == cards[..i]
        invariant i <= FirstThrow(cards, save)
        invariant uiState == old(uiState).(isSaving := true)
      {
        attempted := attempted + [cards[i]];
        var outcome := save(cards[i]);
        if outcome.SaveThrew? {
          uiState := uiState.(isSaving := false, errorMessage := Some(SAVE_FAILED + outcome.message));
          return;
        }
      }
      uiState := uiState.(scannedCards := [], totalValue := 0.0, isSaving := false);
    }

    /** `clearError`. */
    method ClearError()
      modifies this
      ensures uiState == old(uiState).(errorMessage := None)
      ensures old(Valid()) ==> Valid()
    {
      uiState := uiState.(errorMessage := None);
    }

    /** `setProcessing`. */
    method SetProcessing(isProcessing: bool)
      modifies this
      ensures uiState == old(uiState).(isProcessing := isProcessing)
      ensures old(Valid()) ==> Valid()
    {
      uiState := uiState.(isProcessing := isProcessing);
    }
  }

  /** Removing an id no card carries leaves the list as it is. */
  lemma RemoveAbsentId(cards: seq<ScannedCard>, cardId: string)
    requires forall i :: 0 <= i < |cards| ==> cards[i].id != cardId
    ensures Filter(OtherId(cardId), cards) == cards
  {
    FilterAll(OtherId(cardId), cards);
  }

  /** A card added and then removed by its id is gone, and so is every other card with that id. */
  lemma AddThenRemove(cards: seq<ScannedCard>, card: ScannedCard)
    ensures card !in Filter(OtherId(card.id), cards + [card])
    ensures forall c :: c in Filter(OtherId(card.id), cards + [card]) <==> c in cards && c.id != card.id
  {
    FilterMembers(OtherId(card.id), cards + [card]);
  }
}
