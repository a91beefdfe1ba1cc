/** `CardProcessingPipeline`: the run from a photograph of a card grid to scanned cards, reported
    as a sequence of `ProcessingResult` events. The per-card identification, which the source runs
    with `async`/`awaitAll`, is a sequential loop here: `awaitAll` returns the results in input
    order. Identification is an oracle `identify(info, attempt)` that returns a result or throws. */
module CardProcessingPipeline {
  import opened Wrappers
  import opened Grid
  import opened CameraGrid
  import opened TextRecognition
  import opened ScryfallCards
  import opened ScryfallRepository
  import opened ScannedCards

  datatype IndexedCardInfo = IndexedCardInfo(index: nat, cardInfo: Option<CardTextInfo>)

  datatype IdentificationResult = IdentificationResult(
    index: nat, cardInfo: Option<CardTextInfo>, scryfallCard: Option<ScryfallCard>,
    success: bool, error: Option<string>)

  datatype ProcessingResult =
    | Started(expectedCards: nat)
    | GridDetected(regionsFound: nat)
    | TextExtracted(regionsProcessed: nat)
    | CardInfoParsed(cardsFound: nat)
    | CardsIdentified(cardsIdentified: nat)
    | Completed(scannedCards: seq<ScannedCard>)
    | Error(message: string)

  /** What one call of `identifyCard` does: return a result, or throw. */
  datatype Outcome = Returned(result: Result<Option<ScryfallCard>>) | Threw(message: string)

  /** The identification oracle, indexed by the attempt number so that retries may differ. */
  type Identifier = (CardTextInfo, nat) -> Outcome

  /** `scryfallRepository.identifyCard` as an identification oracle: it neither throws nor
      changes between attempts. */
  function RepositoryIdentifier(api: ScryfallApi): Identifier {
    (info, attempt) => Returned(IdentifyCard(info, api))
  }

  const MAX_RETRIES: nat := 3
  const NO_ATTEMPTS: string := "No attempts made"
  const NO_CARD_INFO: string := "No card info extracted"
  const NO_REGIONS: string := "No valid card regions detected"
  const RECOGNITION_FAILED: string := "Text recognition failed: "

  predicate Succeeds(o: Outcome) { o.Returned? && o.result.Success? }

  // The retry loop

  /** The state the retry loop ends in: the last returned result, the last thrown message and the
      number of calls made. */
  datatype RetryState = RetryState(result: Result<Option<ScryfallCard>>, lastError: Option<string>, calls: nat)

  /** The retry loop from attempt `attempt` on, with the result and error recorded so far. */
  function RetryFrom(info: CardTextInfo, identify: Identifier, attempt: nat, maxRetries: nat,
                     result: Result<Option<ScryfallCard>>, lastError: Option<string>): RetryState
    decreases maxRetries - attempt
  {
    if attempt >= maxRetries then RetryState(result, lastError, attempt)
    else match identify(info, attempt)
      case Returned(r) =>
        if r.Success? then RetryState(r, lastError, attempt + 1)
        else RetryFrom(info, identify, attempt + 1, maxRetries, r, lastError)
      case Threw(m) => RetryFrom(info, identify, attempt + 1, maxRetries, result, Some(m))
  }

  function Retry(info: CardTextInfo, identify: Identifier, maxRetries: nat): RetryState {
    RetryFrom(info, identify, 0, maxRetries, Failure(NO_ATTEMPTS), None)
  }

  /** The first attempt at or after `from` that returns a success, or `maxRetries` if none does. */
  function FirstSuccess(info: CardTextInfo, identify: Identifier, from: nat, maxRetries: nat): (first: nat)
    requires from <= maxRetries
    ensures from <= first <= maxRetries
    ensures forall a :: from <= a < first ==> !Succeeds(identify(info, a))
    ensures first < maxRetries ==> Succeeds(identify(info, first))
    decreases maxRetries - from
  {
    if from == maxRetries then maxRetries
    else if Succeeds(identify(info, from)) then from
    else FirstSuccess(info, identify, from + 1, maxRetries)
  }

  /** The loop makes calls up to and including the first success and no more; it ends in a success
      exactly when some attempt within the budget succeeds, and then with that attempt's result. */
  lemma {:induction false} RetryStopsAtFirstSuccess(info: CardTextInfo, identify: Identifier, attempt: nat,
                                                    maxRetries: nat, result: Result<Option<ScryfallCard>>,
                                                    lastError: Option<string>)
    requires attempt <= maxRetries && result.Failure?
    ensures var s := RetryFrom(info, identify, attempt, maxRetries, result, lastError);
      var first := FirstSuccess(info, identify, attempt, maxRetries);
      && s.calls == (if first < maxRetries then first + 1 else maxRetries)
      && (first < maxRetries ==> s.result == identify(info, first).result)
      && (first == maxRetries && attempt < maxRetries ==> s.result.Failure?)
    decreases maxRetries - attempt
  {
    if attempt < maxRetries {
      match identify(info, attempt)
      case Returned(r) =>
        if !r.Success? {
          RetryStopsAtFirstSuccess(info, identify, attempt + 1, maxRetries, r, lastError);
          if attempt + 1 == maxRetries {
            assert RetryFrom(info, identify, attempt + 1, maxRetries, r, lastError).result == r;
          }
        }
      case Threw(m) =>
        RetryStopsAtFirstSuccess(info, identify, attempt + 1, maxRetries, result, Some(m));
    }
  }

  /** When every remaining attempt throws, the recorded result is left as it was and the error is the
      last thrown message. */
  lemma {:induction false} RetryAllThrow(info: CardTextInfo, identify: Identifier, attempt: nat,
                                         maxRetries: nat, result: Result<Option<ScryfallCard>>,
                                         lastError: Option<string>)
    requires attempt < maxRetries
    requires forall a :: attempt <= a < maxRetries ==> identify(info, a).Threw?
    ensures var s := RetryFrom(info, identify, attempt, maxRetries, result, lastError);
      s == RetryState(result, Some(identify(info, maxRetries - 1).message), maxRetries)
    decreases maxRetries - attempt
  {
    if attempt + 1 < maxRetries {
      RetryAllThrow(info, identify, attempt + 1, maxRetries, result, Some(identify(info, attempt).message));
    }
  }

  /** The repository's `identifyCard` never fails, so the loop calls it once. */
  lemma RepositoryNeedsOneCall(info: CardTextInfo, api: ScryfallApi, maxRetries: nat)
    requires maxRetries >= 1
    ensures Retry(info, RepositoryIdentifier(api), maxRetries) == RetryState(IdentifyCard(info, api), None, 1)
  {
  }

  /** `identifyCard` called up to `maxRetries` times until it returns a success (`success(null)`
      included), sleeping `100 * attempts` ms between attempts; `delays` lists those sleeps. */
  method IdentifyWithRetry(info: CardTextInfo, identify: Identifier, maxRetries: nat)
    returns (state: RetryState, delays: seq<nat>)
    ensures state == Retry(info, identify, maxRetries)
    ensures state.calls <= maxRetries && (state.calls == 0 <==> maxRetries == 0)
    ensures |delays| == (if state.calls == 0 then 0 else state.calls - 1)
    ensures forall k :: 0 <= k < |delays| ==> delays[k] == 100 * (k + 1)
  {
    var attempts: nat := 0;
    var lastError: Option<string> := None;
    var scryfallResult: Result<Option<ScryfallCard>> := Failure(NO_ATTEMPTS);
    delays := [];
    while attempts < maxRetries
      invariant attempts <= maxRetries
      invariant RetryFrom(info, identify, attempts, maxRetries, scryfallResult, lastError)
             == Retry(info, identify, maxRetries)
      invariant |delays| == (if attempts == 0 then 0 else if attempts < maxRetries then attempts else attempts - 1)
      invariant forall k :: 0 <= k < |delays| ==> delays[k] == 100 * (k + 1)
      decreases maxRetries - attempts
    {
      var outcome := identify(info, attempts);
      if outcome.Returned? {
        scryfallResult := outcome.result;
        if scryfallResult.Success? {
          state := RetryState(scryfallResult, lastError, attempts + 1);
          return;
        }
      } else {
        lastError := Some(outcome.message);
      }
      attempts := attempts + 1;
      if attempts < maxRetries {
        delays := delays + [100 * attempts];
      }
    }
    state := RetryState(scryfallResult, lastError, attempts);
  }

  // Identification of every region

  /** The `IdentificationResult` of one region: no call and "No card info extracted" without card
      info, otherwise the outcome of the retry loop. */
  function IdentifyEntry(entry: IndexedCardInfo, identify: Identifier, maxRetries: nat): (r: IdentificationResult)
    ensures r.index == entry.index && r.cardInfo == entry.cardInfo
    ensures r.scryfallCard.Some? ==> r.success && entry.cardInfo.Some?
    ensures entry.cardInfo.None? ==> !r.success && r.error == Some(NO_CARD_INFO)
    ensures entry.cardInfo.Some? ==>
      (r.success <==> FirstSuccess(entry.cardInfo.value, identify, 0, maxRetries) < maxRetries)
    ensures !r.success ==> r.error.Some?
  {
    match entry.cardInfo
    case None => IdentificationResult(entry.index, None, None, false, Some(NO_CARD_INFO))
    case Some(info) =>
      var s := Retry(info, identify, maxRetries);
      RetryStopsAtFirstSuccess(info, identify, 0, maxRetries, Failure(NO_ATTEMPTS), None);
      IdentificationResult(entry.index, Some(info), s.result.GetOrNull().GetOr(None), s.result.Success?,
                           if s.result.Failure? then Some(s.result.message) else s.lastError)
  }

  /** A run in which every attempt throws reports "No attempts made", not the thrown message. */
  lemma AllThrowReportsNoAttempts(info: CardTextInfo, identify: Identifier, index: nat, maxRetries: nat)
    requires maxRetries >= 1
    requires forall a :: 0 <= a < maxRetries ==> identify(info, a).Threw?
    ensures IdentifyEntry(IndexedCardInfo(index, Some(info)), identify, maxRetries)
         == IdentificationResult(index, Some(info), None, false, Some(NO_ATTEMPTS))
  {
    RetryAllThrow(info, identify, 0, maxRetries, Failure(NO_ATTEMPTS), None);
  }

  /** A success after a thrown attempt still carries the thrown message as its error. */
  lemma RecoveredAttemptKeepsError(info: CardTextInfo, identify: Identifier, index: nat, maxRetries: nat,
                                   card: Option<ScryfallCard>)
    requires maxRetries >= 2
    requires identify(info, 0).Threw? && identify(info, 1) == Returned(Success(card))
    ensures IdentifyEntry(IndexedCardInfo(index, Some(info)), identify, maxRetries)
         == IdentificationResult(index, Some(info), card, true, Some(identify(info, 0).message))
  {
    var m := identify(info, 0).message;
    assert Retry(info, identify, maxRetries) == RetryFrom(info, identify, 1, maxRetries, Failure(NO_ATTEMPTS), Some(m));
    assert RetryFrom(info, identify, 1, maxRetries, Failure(NO_ATTEMPTS), Some(m)) == RetryState(Success(card), Some(m), 2);
  }

  /** `identifyCardsInParallelWithRetry`, in input order: one result per entry, and the number of
      `identifyCard` calls made for each (none for an entry without card info). */
  method IdentifyCardsWithRetry(entries: seq<IndexedCardInfo>, identify: Identifier, maxRetries: nat)
    returns (results: seq<IdentificationResult>, calls: seq<nat>)
    ensures |results| == |entries| && |calls| == |entries|
    ensures forall i :: 0 <= i < |entries| ==> results[i] == IdentifyEntry(entries[i], identify, maxRetries)
    ensures forall i :: 0 <= i < |entries| ==> calls[i] <= maxRetries
    ensures forall i :: 0 <= i < |entries| ==> (calls[i] == 0 <==> entries[i].cardInfo.None? || maxRetries == 0)
  {
    results := [];
    calls := [];
    for i := 0 to |entries|
      invariant |results| == i && |calls| == i
      invariant forall j :: 0 <= j < i ==> results[j] == IdentifyEntry(entries[j], identify, maxRetries)
      invariant forall j :: 0 <= j < i ==> calls[j] <= maxRetries
      invariant forall j :: 0 <= j < i ==> (calls[j] == 0 <==> entries[j].cardInfo.None? || maxRetries == 0)
    {
      var entry := entries[i];
      var result: IdentificationResult;
      var made: nat := 0;
      if entry.cardInfo.Some? {
        var state, _ := IdentifyWithRetry(entry.cardInfo.value, identify, maxRetries);
        made := state.calls;
        result := IdentificationResult(
          entry.index, entry.cardInfo, state.result.GetOrNull().GetOr(None), state.result.Success?,
          if state.result.Failure? then Some(state.result.message) else state.lastError);
      } else {
        result := IdentificationResult(entry.index, None, None, false, Some(NO_CARD_INFO));
      }
      results := results + [result];
      calls := calls + [made];
    }
  }

  // Assembling scanned cards

  /** A scanned card built from a Scryfall record. */
  function FromScryfall(id: string, card: ScryfallCard, parse: PriceParser): (scanned: ScannedCard)
    ensures scanned.id == id && scanned.name == card.name && scanned.setName == card.setName
    ensures scanned.collectorNumber == card.collectorNumber && scanned.rarity == card.rarity
    ensures scanned.price == DisplayPrice(card, parse) && scanned.scryfallCard == Some(card)
  {
    ScannedCard(id, card.name, card.setName, card.collectorNumber, card.rarity,
                DisplayPrice(card, parse), Some(card))
  }

  /** The scanned card `createScannedCards` makes of one result, if any; `uuid` gives the fresh
      id of the card made for the result at that index. */
  function ScannedOf(result: IdentificationResult, uuid: nat -> string, parse: PriceParser): (card: Option<ScannedCard>)
    ensures card.None? <==> result.scryfallCard.None? && result.cardInfo.None?
    ensures card.Some? ==> card.value.id == uuid(result.index)
    ensures result.scryfallCard.Some? ==>
      var c := result.scryfallCard.value;
      && card.value.name == c.name && card.value.setName == c.setName
      && card.value.collectorNumber == c.collectorNumber && card.value.rarity == c.rarity
      && card.value.price == DisplayPrice(c, parse) && card.value.scryfallCard == Some(c)
    ensures result.scryfallCard.None? && result.cardInfo.Some? ==>
      var info := result.cardInfo.value;
      && card.value.name == info.cardName.GetOr("Unknown Card")
      && card.value.setName == "Unknown Set"
      && card.value.collectorNumber == info.collectorNumber.GetOr("???")
      && card.value.rarity == info.rarity.GetOr("unknown")
      && card.value.price == 0.0 && card.value.scryfallCard.None?
  {
    if result.scryfallCard.Some? then Some(FromScryfall(uuid(result.index), result.scryfallCard.value, parse))
    else if result.cardInfo.Some? then
      var info := result.cardInfo.value;
      Some(ScannedCard(uuid(result.index), info.cardName.GetOr("Unknown Card"), "Unknown Set",
                       info.collectorNumber.GetOr("???"), info.rarity.GetOr("unknown"), 0.0, None))
    else None
  }

  /** Whether `createScannedCards` keeps a result. */
  predicate Kept(result: IdentificationResult) { result.scryfallCard.Some? || result.cardInfo.Some? }

  function CountKept(results: seq<IdentificationResult>): (n: nat)
    ensures n <= |results|
  {
    if results == [] then 0 else (if Kept(results[0]) then 1 else 0) + CountKept(results[1..])
  }

  /** `createScannedCards`: the `mapNotNull` of `ScannedOf`. */
  function CreateScannedCards(results: seq<IdentificationResult>, uuid: nat -> string, parse: PriceParser)
    : (cards: seq<ScannedCard>)
    ensures |cards| == CountKept(results) <= |results|
    ensures forall c :: c in cards ==> exists i :: 0 <= i < |results| && ScannedOf(results[i], uuid, parse) == Some(c)
  {
    if results == [] then []
    else
      var rest := CreateScannedCards(results[1..], uuid, parse);
      assert forall c :: c in rest ==> exists i :: 0 <= i < |results| && ScannedOf(results[i], uuid, parse) == Some(c) by {
        forall c | c in rest
          ensures exists i :: 0 <= i < |results| && ScannedOf(results[i], uuid, parse) == Some(c)
        {
          var i :| 0 <= i < |results[1..]| && ScannedOf(results[1..][i], uuid, parse) == Some(c);
          assert results[i + 1] == results[1..][i];
        }
      }
      match ScannedOf(results[0], uuid, parse)
      case Some(c) => [c] + rest
      case None => rest
  }

  /** The cards one result contributes: its `ScannedOf`, if any. */
  function CardsOf(result: IdentificationResult, uuid: nat -> string, parse: PriceParser): seq<ScannedCard> {
    match ScannedOf(result, uuid, parse)
    case Some(c) => [c]
    case None => []
  }

  lemma CreateScannedCardsCons(results: seq<IdentificationResult>, uuid: nat -> string, parse: PriceParser)
    requires results != []
    ensures CreateScannedCards(results, uuid, parse)
         == CardsOf(results[0], uuid, parse) + CreateScannedCards(results[1..], uuid, parse)
  {
  }

  /** Assembly preserves relative order: it distributes over concatenation. */
  lemma {:induction false} CreateScannedCardsAppend(xs: seq<IdentificationResult>, ys: seq<IdentificationResult>,
                                                    uuid: nat -> string, parse: PriceParser)
    ensures CreateScannedCards(xs + ys, uuid, parse) == CreateScannedCards(xs, uuid, parse) + CreateScannedCards(ys, uuid, parse)
  {
    if xs != [] {
      var zs := xs + ys;
      assert zs[0] == xs[0] && zs[1..] == xs[1..] + ys;
      CreateScannedCardsAppend(xs[1..], ys, uuid, parse);
      CreateScannedCardsCons(zs, uuid, parse);
      CreateScannedCardsCons(xs, uuid, parse);
    } else {
      assert xs + ys == ys;
    }
  }

  /** When every result is kept, the cards correspond to the results one for one, in order. */
  lemma {:induction false} CreateScannedCardsPositions(results: seq<IdentificationResult>, uuid: nat -> string,
                                                       parse: PriceParser)
    requires forall i :: 0 <= i < |results| ==> Kept(results[i])
    ensures var cards := CreateScannedCards(results, uuid, parse);
      |cards| == |results| && forall i :: 0 <= i < |results| ==> Some(cards[i]) == ScannedOf(results[i], uuid, parse)
  {
    if results != [] {
      var tail := results[1..];
      assert forall i :: 0 <= i < |tail| ==> tail[i] == results[i + 1];
      CreateScannedCardsPositions(tail, uuid, parse);
      CreateScannedCardsCons(results, uuid, parse);
      assert ScannedOf(results[0], uuid, parse).Some?;
    }
  }

  /** `processSingleCard`: a scanned card only for a card actually found (never a placeholder),
      `success(null)` for a failed or empty identification, and a failure only when the call throws. */
  function ProcessSingleCard(info: CardTextInfo, identify: Identifier, id: string, parse: PriceParser)
    : (r: Result<Option<ScannedCard>>)
    ensures r.Failure? <==> identify(info, 0).Threw?
    ensures r.Success? && r.value.Some? ==>
      && r.value.value.scryfallCard.Some?
      && identify(info, 0) == Returned(Success(r.value.value.scryfallCard))
      && r.value.value.price == DisplayPrice(r.value.value.scryfallCard.value, parse)
    ensures identify(info, 0).Returned? && identify(info, 0).result.GetOrNull().GetOr(None).None? ==>
      r == Success(None)
    // a found card always becomes its scanned card
    ensures identify(info, 0).Returned? && identify(info, 0).result.Success? && identify(info, 0).result.value.Some? ==>
      r == Success(Some(FromScryfall(id, identify(info, 0).result.value.value, parse)))
  {
    match identify(info, 0)
    case Threw(m) => Failure(m)
    case Returned(res) =>
      if res.Success? && res.value.Some? then Success(Some(FromScryfall(id, res.value.value, parse)))
      else Success(None)
  }

  /** With the repository as oracle, a single card is processed without failure, and a card
      comes back exactly when `identifyCard` finds one. */
  lemma SingleCardWithRepository(info: CardTextInfo, api: ScryfallApi, id: string, parse: PriceParser)
    ensures var r := ProcessSingleCard(info, RepositoryIdentifier(api), id, parse);
      r.Success? && (r.value.Some? <==> LookupCard(info, api).Some? || NameCard(info, api).Some?)
  {
  }

  // The run

  /** The card hints of a region: parsed only for a successful region with text. */
  function IndexInfo(region: RegionTextResult, index: nat): (entry: IndexedCardInfo)
    ensures entry.index == index
    ensures entry.cardInfo.Some? <==> region.success && region.recognizedTexts != []
    ensures entry.cardInfo.Some? ==> entry.cardInfo.value.rawText == AllText(region.recognizedTexts)
  {
    IndexedCardInfo(index, if region.success && region.recognizedTexts != []
                           then Some(CardInfoOf(region.recognizedTexts)) else None)
  }

  /** The results `recognizeTextInRegions` records for the regions, in order. */
  function RegionResults(bitmap: Bitmap, regions: seq<Rect>, recognize: Recognizer): (texts: seq<RegionTextResult>)
    ensures |texts| == |regions|
    ensures forall i :: 0 <= i < |regions| ==> texts[i] == RegionResult(bitmap, regions[i], i, recognize)
  {
    seq(|regions|, i requires 0 <= i < |regions| => RegionResult(bitmap, regions[i], i, recognize))
  }

  /** The hints of every region, indexed by position. */
  function IndexInfos(regionTexts: seq<RegionTextResult>): (entries: seq<IndexedCardInfo>)
    ensures |entries| == |regionTexts|
    ensures forall i :: 0 <= i < |regionTexts| ==> entries[i] == IndexInfo(regionTexts[i], i)
  {
    seq(|regionTexts|, i requires 0 <= i < |regionTexts| => IndexInfo(regionTexts[i], i))
  }

  /** The identification result of every entry, in order. */
  function IdentifyEntries(entries: seq<IndexedCardInfo>, identify: Identifier, maxRetries: nat)
    : (results: seq<IdentificationResult>)
    ensures |results| == |entries|
    ensures forall i :: 0 <= i < |entries| ==> results[i] == IdentifyEntry(entries[i], identify, maxRetries)
  {
    seq(|entries|, i requires 0 <= i < |entries| => IdentifyEntry(entries[i], identify, maxRetries))
  }

  /** Step 3 of the run: the `mapIndexed` over the region results. */
  method ParseRegions(regionTexts: seq<RegionTextResult>) returns (entries: seq<IndexedCardInfo>)
    ensures entries == IndexInfos(regionTexts)
  {
    entries := [];
    for index := 0 to |regionTexts|
      invariant |entries| == index
      invariant forall i :: 0 <= i < index ==> entries[i] == IndexInfo(regionTexts[i], i)
    {
      var entry := ParseRegion(regionTexts[index], index);
      entries := entries + [entry];
    }
  }

  /** The body of the `mapIndexed`: parse a successful region with text, else no hints. */
  method ParseRegion(regionResult: RegionTextResult, index: nat) returns (entry: IndexedCardInfo)
    ensures entry == IndexInfo(regionResult, index)
  {
    var cardInfo: Option<CardTextInfo> := None;
    if regionResult.success && regionResult.recognizedTexts != [] {
      var info := ParseCardInformation(regionResult.recognizedTexts);
      cardInfo := Some(info);
    }
    entry := IndexedCardInfo(index, cardInfo);
  }

  function CountParsed(entries: seq<IndexedCardInfo>): (n: nat)
    ensures n <= |entries|
  {
    if entries == [] then 0 else (if entries[0].cardInfo.Some? then 1 else 0) + CountParsed(entries[1..])
  }

  function CountIdentified(results: seq<IdentificationResult>): (n: nat)
    ensures n <= |results|
  {
    if results == [] then 0 else (if results[0].scryfallCard.Some? then 1 else 0) + CountIdentified(results[1..])
  }

  /** Cards are only identified for regions whose hints were parsed. */
  lemma {:induction false} IdentifiedWithinParsed(entries: seq<IndexedCardInfo>, results: seq<IdentificationResult>,
                                                  identify: Identifier, maxRetries: nat)
    requires results == IdentifyEntries(entries, identify, maxRetries)
    ensures CountIdentified(results) <= CountParsed(entries)
  {
    if entries != [] {
      assert results[1..] == IdentifyEntries(entries[1..], identify, maxRetries);
      IdentifiedWithinParsed(entries[1..], results[1..], identify, maxRetries);
    }
  }

  /** The events after `GridDetected`: one `Error`, or the four stages up to `Completed`. */
  predicate CompleteTail(events: seq<ProcessingResult>) {
    || (|events| == 1 && events[0].Error?)
    || (|events| == 4 && events[0].TextExtracted? && events[1].CardInfoParsed?
        && events[2].CardsIdentified? && events[3].Completed?)
  }

  /** A whole run: `Started`, `GridDetected`, then a complete tail. */
  predicate CompleteRun(events: seq<ProcessingResult>) {
    |events| >= 2 && events[0].Started? && events[1].GridDetected? && CompleteTail(events[2..])
  }

  /** A run ends with exactly one terminal event (`Error` or `Completed`), and nothing is
      `Completed` after an `Error`. */
  lemma RunEndsOnce(events: seq<ProcessingResult>)
    requires CompleteRun(events)
    ensures events[|events| - 1].Error? || events[|events| - 1].Completed?
    ensures forall i :: 0 <= i < |events| - 1 ==> !events[i].Error? && !events[i].Completed?
    ensures forall i, j :: 0 <= i < j < |events| && events[i].Error? ==> !events[j].Completed?
  {
    assert events[2..][0] == events[2];
    if |events| == 6 {
      assert events[2..][3] == events[5];
    }
  }

  /** The events of a run from the emptiness check on, for the given regions. */
  function RegionEvents(bitmap: Bitmap, regions: seq<Rect>, recognize: Recognizer, identify: Identifier,
                        uuid: nat -> string, parse: PriceParser): seq<ProcessingResult>
  {
    if regions == [] then [Error(NO_REGIONS)]
    else if bitmap.recycled then [Error(RECOGNITION_FAILED + "Bitmap is recycled")]
    else
      var entries := IndexInfos(RegionResults(bitmap, regions, recognize));
      var results := IdentifyEntries(entries, identify, MAX_RETRIES);
      [TextExtracted(|regions|), CardInfoParsed(CountParsed(entries)),
       CardsIdentified(CountIdentified(results)), Completed(CreateScannedCards(results, uuid, parse))]
  }

  /** The run from the emptiness check on, for the planned regions: an error for no regions or a
      failed recognition, else the four counting events. */
  method ProcessRegions(bitmap: Bitmap, regions: seq<Rect>, recognize: Recognizer, identify: Identifier,
                        uuid: nat -> string, parse: PriceParser)
    returns (events: seq<ProcessingResult>)
    ensures CompleteTail(events)
    ensures regions == [] ==> events == [Error(NO_REGIONS)]
    ensures regions != [] && bitmap.recycled ==> events == [Error(RECOGNITION_FAILED + "Bitmap is recycled")]
    ensures regions != [] && !bitmap.recycled ==>
      var entries := IndexInfos(RegionResults(bitmap, regions, recognize));
      var results := IdentifyEntries(entries, identify, MAX_RETRIES);
      && events[0] == TextExtracted(|regions|)
      && events[1] == CardInfoParsed(CountParsed(entries))
      && events[2] == CardsIdentified(CountIdentified(results))
      && events[3] == Completed(CreateScannedCards(results, uuid, parse))
      && events[2].cardsIdentified <= events[1].cardsFound <= events[0].regionsProcessed
    ensures events == RegionEvents(bitmap, regions, recognize, identify, uuid, parse)
  {
    if regions == [] {
      return [Error(NO_REGIONS)];
    }
    var textResults := RecognizeTextInRegions(bitmap, regions, recognize);
    if textResults.Failure? {
      return [Error(RECOGNITION_FAILED + textResults.message)];
    }
    var regionTexts := textResults.value;
    assert regionTexts == RegionResults(bitmap, regions, recognize);
    var cardInfoList := ParseRegions(regionTexts);
    var identificationResults, _ := IdentifyCardsWithRetry(cardInfoList, identify, MAX_RETRIES);
    assert identificationResults == IdentifyEntries(cardInfoList, identify, MAX_RETRIES);
    IdentifiedWithinParsed(cardInfoList, identificationResults, identify, MAX_RETRIES);
    var scannedCards := CreateScannedCards(identificationResults, uuid, parse);
    events := [TextExtracted(|regionTexts|), CardInfoParsed(CountParsed(cardInfoList)),
               CardsIdentified(CountIdentified(identificationResults)), Completed(scannedCards)];
  }

  /** `processGridImage`: plan the grid for the mode, shrink it to card shape, then process the
      regions. A grid mode always has regions, so the run never reports that none were found; it
      fails only when the bitmap is recycled. */
  method ProcessGridImage(bitmap: Bitmap, gridMode: GridMode, recognize: Recognizer, identify: Identifier,
                          uuid: nat -> string, parse: PriceParser)
    returns (events: seq<ProcessingResult>)
    ensures CompleteRun(events)
    ensures events[0] == Started(gridMode.CardCount())
    ensures events[1] == GridDetected(gridMode.CardCount())
    ensures events[2] != Error(NO_REGIONS)
    ensures bitmap.recycled <==> events[2].Error?
    ensures !bitmap.recycled ==> events[2] == TextExtracted(gridMode.CardCount())
    // the rest of the run works on the mode's grid, shrunk to card shape
    ensures events[2..] == RegionEvents(bitmap, PlannedRegions(bitmap, gridMode), recognize, identify, uuid, parse)
  {
    var optimizedRegions := PlanRegions(bitmap, gridMode);
    var rest := ProcessRegions(bitmap, optimizedRegions, recognize, identify, uuid, parse);
    events := [Started(gridMode.CardCount()), GridDetected(|optimizedRegions|)] + rest;
    assert events[2..] == rest;
  }

  /** The regions a run works on: the mode's grid over the bitmap, each cell shrunk to card shape. */
  function PlannedRegions(bitmap: Bitmap, gridMode: GridMode): seq<Rect> {
    OptimizeRegions(GridCells(bitmap.width, bitmap.height, gridMode.Rows(), gridMode.Cols()))
  }

  /** The first two steps of `processGridImage`: the grid for the mode, shrunk to card shape. */
  method PlanRegions(bitmap: Bitmap, gridMode: GridMode) returns (optimizedRegions: seq<Rect>)
    ensures |optimizedRegions| == gridMode.CardCount() >= 1
    ensures optimizedRegions == PlannedRegions(bitmap, gridMode)
  {
    CardCountIsCells(gridMode);
    var regions := CreateGridRegions(bitmap.width, bitmap.height, gridMode.Rows(), gridMode.Cols());
    optimizedRegions := OptimizeRegions(regions);
  }
}
