# MTG Inventory scanner: identify-and-resolve core in Dafny

This project models the core of the MTG Inventory Android app (Kotlin): the pipeline that turns one
photograph of a grid of Magic: The Gathering cards into collection entries.

- **Grid planning.** The photo is cut into a `rows × cols` grid of card regions with a 5% margin, and each
  region is narrowed to the card aspect ratio.
- **Text extraction.** Each region is cropped with clamping to the bitmap and handed to a text recognizer.
- **Parsing.** The recognized lines are parsed heuristically into a card name, a collector number, a set
  code and a rarity.
- **Identification.** Each parsed card is identified against Scryfall. The repository tries the
  set/collector-number lookup first and falls back to an exact-name search. A retry loop surrounds the
  call, and a rate gate keeps requests at least 100 ms apart.
- **Card assembly.** The identification results become `ScannedCard`s.
- **Storage and screens.** The model also covers how cards are stored (`CardEntity` conversions), sorted
  and filtered on the collection screen, and accumulated and saved on the scanner screen.

The model follows the form of the Kotlin:

- Pure helpers, extension functions and data-class conversions are Dafny functions with lemmas.
- Loops (grid construction, per-region recognition, the retry loop, parsing of regions, sequential
  identification) are methods with loop invariants, each proved equal to a specification function.
- View models and the repository's rate gate, which update fields, are classes whose methods state their
  whole new state.

Effects are inputs:

- the ML Kit recognizer is a function from bitmap to lines;
- Scryfall's HTTP endpoints are a record of response functions;
- the identify step seen by the pipeline is a function of the card and the attempt number, which may
  return or throw;
- price parsing (`toDoubleOrNull`), UUID generation, the clock and the card saver are parameters.

Modules:

| file | module | models |
|---|---|---|
| wrappers.dfy | Wrappers | Kotlin `Result`/nullable values |
| text.dfy | Text | ASCII character classes, `trim`, whitespace collapsing, `lowercase`, `joinToString`, integer formatting |
| grid.dfy | Grid | `createGridRegions`, `optimizeRegionsForCards` |
| camera_grid.dfy | CameraGrid | the `GridMode` enum, the toggle button, the overlay's position decode |
| parser.dfy | CardTextParser | the regular expressions of `extractCardName`, `extractCollectorNumber`, `extractSetCode`, `extractRarity` |
| recognition.dfy | TextRecognition | `cropBitmap`, `recognizeTextInRegions`, `parseCardInformation` |
| cards.dfy | ScryfallCards | `ScryfallCard` and its extension helpers |
| scryfall.dfy | ScryfallRepository | `identifyCard`, `identifyCards`, `withRateLimit`, `ScryfallQueryBuilder` |
| scanned_card.dfy | ScannedCards | `ScannedCard` |
| pipeline.dfy | CardProcessingPipeline | `processGridImage`, the retry loop, `createScannedCards`, `processSingleCard` |
| persistence.dfy | CardPersistence | `toCardEntity`, `toScannedCard`, `associate` in the statistics queries |
| filtering.dfy | Filtering | Kotlin `filter` on lists and its algebra |
| collection.dfy | CollectionViewModel | sorting/filtering of the collection and its state updates |
| scanner.dfy | ScannerViewModel | the scanner screen's list of scanned cards and saving |

Behaviour of the code worth knowing:

- **The "No valid card regions detected" error cannot be reached from `processGridImage`**
  (app/src/main/java/com/mtginventory/app/data/processing/CardProcessingPipeline.kt:42-49). `optimizeRegionsForCards` is a map over a
  non-empty grid. `ProcessGridImage` proves this. The error is still modelled in `ProcessRegions`,
  where an empty region list can reach it.
- **Rarity detection tests for the letters `C`, `U`, `R`, `M` anywhere in the text, in that order**
  (app/src/main/java/com/mtginventory/app/data/mlkit/TextRecognitionService.kt:201-209). It does not look for a rarity word. Any text
  containing a capital `C` (for example a name such as "Counterspell") yields "common".
- **Identification almost never fails** (app/src/main/java/com/mtginventory/app/data/api/ScryfallRepository.kt:18-37). `identifyCard`
  turns every API failure into a successful "no card". With the repository as the identify step, the
  retry loop therefore makes exactly one call (`RepositoryNeedsOneCall`). Retries happen only when the
  identify step itself throws.
- **The retry backoff is linear: 100, 200, … ms** (app/src/main/java/com/mtginventory/app/data/processing/CardProcessingPipeline.kt:161-164).
  A comment in the code calls it exponential.
- **When every attempt throws, the error reported is "No attempts made"**
  (app/src/main/java/com/mtginventory/app/data/processing/CardProcessingPipeline.kt:148, 172), the initial failure, not the thrown
  message. A success after a thrown attempt still carries that attempt's error.
- **Saving a `ScannedCard` gives it a fresh identifier** (app/src/main/java/com/mtginventory/app/data/repository/CardRepository.kt:103-125,
  app/src/main/java/com/mtginventory/app/data/database/entities/CardEntity.kt:20), so reading it back keeps every field except `id` and the
  attached `ScryfallCard`.

## Model

| member | source | states |
|---|---|---|
| Grid.Padding | app/src/main/java/com/mtginventory/app/data/mlkit/TextRecognitionService.kt:249-250 | the margin taken on each side is at most half the dimension, so the usable area is never negative |
| Grid.CreateGridRegions | app/src/main/java/com/mtginventory/app/data/mlkit/TextRecognitionService.kt:240-270 | returns exactly rows·cols regions, the region at position row·cols+col being the cell of that row and column (row-major order) |
| Grid.AppendCell | app/src/main/java/com/mtginventory/app/data/mlkit/TextRecognitionService.kt:258-267 | appending the next cell to a row-major prefix of the grid keeps it a row-major prefix (the loop invariant of the nested loops) |
| Grid.IndexDecodes | app/src/main/java/com/mtginventory/app/data/mlkit/TextRecognitionService.kt:258-267 | position row·cols+col decodes back to (row, col) by division and remainder |
| Grid.CellInside | app/src/main/java/com/mtginventory/app/data/mlkit/TextRecognitionService.kt:252-267 | every cell lies inside the padded area of the image and has the common cell width and height |
| Grid.SpanInside | app/src/main/java/com/mtginventory/app/data/mlkit/TextRecognitionService.kt:255-263 | a cell at step i of n, each usable/n wide, starts after the padding and ends within the usable width |
| Grid.NeighboursShareEdges | app/src/main/java/com/mtginventory/app/data/mlkit/TextRecognitionService.kt:258-267 | a cell's right edge is its right neighbour's left edge and its bottom edge the lower neighbour's top edge, so the grid tiles without gaps |
| Grid.CellsDisjoint | app/src/main/java/com/mtginventory/app/data/mlkit/TextRecognitionService.kt:258-267 | cells at different positions do not overlap |
| Grid.SpanBefore | app/src/main/java/com/mtginventory/app/data/mlkit/TextRecognitionService.kt:260-262 | a cell ends no later than any cell further along the same axis starts |
| Grid.GridPlacement | app/src/main/java/com/mtginventory/app/data/mlkit/TextRecognitionService.kt:258-267 | the region at index row·cols+col starts at padding + col·cellWidth, padding + row·cellHeight |
| Grid.GridRegionsInside | app/src/main/java/com/mtginventory/app/data/mlkit/TextRecognitionService.kt:240-270 | every region returned by the grid lies inside the padded image and has the cell's size |
| Grid.GridRegionsDisjoint | app/src/main/java/com/mtginventory/app/data/mlkit/TextRecognitionService.kt:240-270 | no two regions returned by the grid overlap |
| Grid.DistinctPositions | app/src/main/java/com/mtginventory/app/data/mlkit/TextRecognitionService.kt:258-267 | different positions decode to different (row, col) pairs |
| Grid.RowInRange | app/src/main/java/com/mtginventory/app/data/mlkit/TextRecognitionService.kt:258-267 | a position below rows·cols decodes to a row below rows |
| Grid.OptimizeRegion | app/src/main/java/com/mtginventory/app/data/mlkit/TextRecognitionService.kt:276-295 | a region wider than the card ratio is narrowed and centred horizontally, otherwise shortened and centred vertically; the result stays inside the region |
| Grid.OptimizeRegions | app/src/main/java/com/mtginventory/app/data/mlkit/TextRecognitionService.kt:272-297 | one optimised region per input region, in the same order |
| CameraGrid.CardCountIsCells | app/src/main/java/com/mtginventory/app/ui/scanner/CameraXScreen.kt:355-358 | each grid mode's card count is its rows times its columns, and is at least 9 |
| CameraGrid.ModeConstants | app/src/main/java/com/mtginventory/app/ui/scanner/CameraXScreen.kt:355-358 | the two modes are 3×3 with 9 cards and 4×3 with 12, with their descriptions |
| CameraGrid.InitialIsNineCards | app/src/main/java/com/mtginventory/app/ui/scanner/CameraXScreen.kt:97 | the camera screen opens in the 3×3 mode |
| CameraGrid.ToggleGridMode | app/src/main/java/com/mtginventory/app/ui/scanner/CameraXScreen.kt:165-169 | the toggle always switches to the other mode |
| CameraGrid.ToggleTwice | app/src/main/java/com/mtginventory/app/ui/scanner/CameraXScreen.kt:165-169 | toggling twice returns to the starting mode |
| CameraGrid.CellOfPosition | app/src/main/java/com/mtginventory/app/ui/scanner/CameraXScreen.kt:405-406 | the overlay's (position / cols, position % cols) decode satisfies row·cols + col = position with col < cols |
| CameraGrid.PositionRoundTrip | app/src/main/java/com/mtginventory/app/ui/scanner/CameraXScreen.kt:405-406 | decoding row·cols+col gives back (row, col) |
| CameraGrid.OverlayMatchesRegions | app/src/main/java/com/mtginventory/app/ui/scanner/CameraXScreen.kt:404-409 | the overlay decodes position p to (p / cols, p % cols), and that row and column name exactly the cell `createGridRegions` places at index p; every card position of the mode lies inside the grid |
| Text.Lower | app/src/main/java/com/mtginventory/app/ui/collection/CollectionViewModel.kt:209 | lower-casing keeps the length and maps every character through the ASCII lower-case map |
| Text.JoinSnoc | app/src/main/java/com/mtginventory/app/data/repository/CardRepository.kt:117-118 | `joinToString(sep)` built one part at a time: a part added to a non-empty list comes after one separator |
| Text.NatToString | app/src/main/java/com/mtginventory/app/data/api/ScryfallRepository.kt:164 | the decimal digits of a number: non-empty, without a leading zero, and denoting exactly that number |
| Text.IntToString | app/src/main/java/com/mtginventory/app/data/api/ScryfallRepository.kt:164 | the template `"$value"` of an `Int`: the digits of the value, after a minus sign when it is negative |
| Text.Trim | app/src/main/java/com/mtginventory/app/data/mlkit/TextRecognitionService.kt:163 | the result is a slice of the input with no whitespace (Kotlin's `isWhitespace`) at either end, and everything cut off before and after it is whitespace |
| Text.TrimEnds | app/src/main/java/com/mtginventory/app/data/mlkit/TextRecognitionService.kt:163 | cutting the leading and then the trailing whitespace leaves no whitespace at either end |
| Text.TrimSlices | app/src/main/java/com/mtginventory/app/data/mlkit/TextRecognitionService.kt:163 | cutting the leading and then the trailing whitespace leaves a slice of the input framed by whitespace only |
| Text.Collapse | app/src/main/java/com/mtginventory/app/data/mlkit/TextRecognitionService.kt:163 | replacing each run of `\s` white space (`IsSpace`: space, tab, newline, vertical tab, form feed, carriage return) by one space leaves no two adjacent `\s` characters, keeps emptiness, and keeps whether each end is `\s` white space |
| Text.CollapseKeepsText | app/src/main/java/com/mtginventory/app/data/mlkit/TextRecognitionService.kt:163 | collapsing keeps every non-whitespace character, in order, and the whitespace left is plain spaces |
| Text.CollapseTrimmed | app/src/main/java/com/mtginventory/app/data/mlkit/TextRecognitionService.kt:163 | collapsing a trimmed string keeps it trimmed |
| CardTextParser.MatchAt | app/src/main/java/com/mtginventory/app/data/mlkit/TextRecognitionService.kt:168-199 | a match found at a position lies inside the text; a four-digit match is four characters long; digit and letter groups have the pattern's shape |
| CardTextParser.ScannerIsRegex | app/src/main/java/com/mtginventory/app/data/mlkit/TextRecognitionService.kt:168-199 | the scanner finds a match at a position exactly when the regular-expression definition (word boundaries, `\d`, `\s`, `[A-Z]`) matches there with the same group |
| CardTextParser.FourDigitsIsRegex | app/src/main/java/com/mtginventory/app/data/mlkit/TextRecognitionService.kt:170 | the scanner agrees with `\b(\d{4})\b` |
| CardTextParser.FractionIsRegex | app/src/main/java/com/mtginventory/app/data/mlkit/TextRecognitionService.kt:175 | the scanner agrees with `\b(\d{1,3})/(\d{1,3})\b` |
| CardTextParser.NumberRarityIsRegex | app/src/main/java/com/mtginventory/app/data/mlkit/TextRecognitionService.kt:180 | the scanner agrees with `\b(\d{1,4})\s*[CURM]\b` |
| CardTextParser.Find | app/src/main/java/com/mtginventory/app/data/mlkit/TextRecognitionService.kt:170-195 | the search returns the leftmost match from the starting point, and none exists before it |
| CardTextParser.FindIsLeftmost | app/src/main/java/com/mtginventory/app/data/mlkit/TextRecognitionService.kt:170-195 | when the regex matches at i and nowhere earlier, the search finds exactly that match |
| CardTextParser.FindNone | app/src/main/java/com/mtginventory/app/data/mlkit/TextRecognitionService.kt:170-195 | the search finds nothing iff the regex matches nowhere in the text |
| CardTextParser.FirstGroup | app/src/main/java/com/mtginventory/app/data/mlkit/TextRecognitionService.kt:170-195 | the first capture group of the leftmost match: one to four digits for the number patterns, three capitals for the set-code patterns |
| CardTextParser.ExtractCollectorNumber | app/src/main/java/com/mtginventory/app/data/mlkit/TextRecognitionService.kt:168-185 | an extracted collector number is one to four digits |
| CardTextParser.CollectorNumberPrefersFourDigits | app/src/main/java/com/mtginventory/app/data/mlkit/TextRecognitionService.kt:169-172 | the leftmost standalone four-digit number wins over every other pattern |
| CardTextParser.CollectorNumberFromFraction | app/src/main/java/com/mtginventory/app/data/mlkit/TextRecognitionService.kt:174-177 | with no four-digit number, the numerator of the leftmost `n/m` is taken |
| CardTextParser.CollectorNumberBeforeRarity | app/src/main/java/com/mtginventory/app/data/mlkit/TextRecognitionService.kt:179-182 | with neither of the above, the number before the leftmost rarity letter is taken |
| CardTextParser.CollectorNumberAbsent | app/src/main/java/com/mtginventory/app/data/mlkit/TextRecognitionService.kt:168-185 | no collector number iff none of the three patterns matches anywhere |
| CardTextParser.ExtractSetCode | app/src/main/java/com/mtginventory/app/data/mlkit/TextRecognitionService.kt:187-199 | an extracted set code is three capital letters |
| CardTextParser.SetCodePrefersLanguageForm | app/src/main/java/com/mtginventory/app/data/mlkit/TextRecognitionService.kt:188-191 | the leftmost `XXX•YY` form wins over a bare three-letter word |
| CardTextParser.SetCodeFromWord | app/src/main/java/com/mtginventory/app/data/mlkit/TextRecognitionService.kt:193-196 | without that form, the leftmost standalone three-capital word is taken |
| CardTextParser.SetCodeAbsent | app/src/main/java/com/mtginventory/app/data/mlkit/TextRecognitionService.kt:187-199 | no set code iff neither pattern matches anywhere |
| CardTextParser.ExtractRarity | app/src/main/java/com/mtginventory/app/data/mlkit/TextRecognitionService.kt:201-209 | the rarity is decided by the first of `C`, `U`, `R`, `M` that occurs anywhere in the text, in that priority order, and is absent iff none occurs |
| CardTextParser.RemoveFrom | app/src/main/java/com/mtginventory/app/data/mlkit/TextRecognitionService.kt:152-160 | removal from a position never lengthens the text and keeps only characters of it |
| CardTextParser.RemoveCutsLeftmost | app/src/main/java/com/mtginventory/app/data/mlkit/TextRecognitionService.kt:152-160 | removal keeps the text before the leftmost match, cuts that match out and resumes after it; with no match left the rest is kept unchanged |
| CardTextParser.RemoveAll | app/src/main/java/com/mtginventory/app/data/mlkit/TextRecognitionService.kt:152-160 | `replace(regex, "")` cuts exactly the leftmost non-overlapping matches and keeps the rest; text without a match is unchanged |
| CardTextParser.CleanName | app/src/main/java/com/mtginventory/app/data/mlkit/TextRecognitionService.kt:149-163 | the cleaned name is trimmed, has no double spaces and is no longer than the text |
| CardTextParser.ExtractCardName | app/src/main/java/com/mtginventory/app/data/mlkit/TextRecognitionService.kt:147-166 | a name is returned iff the cleaned text is longer than two characters (counted in code points), and then it is that cleaned text |
| TextRecognition.CropBox | app/src/main/java/com/mtginventory/app/data/mlkit/TextRecognitionService.kt:120-145 | the crop is skipped iff the clamped origin lies outside the bitmap; otherwise the clamped box has positive size and lies inside the bitmap |
| TextRecognition.CropBitmap | app/src/main/java/com/mtginventory/app/data/mlkit/TextRecognitionService.kt:120-145 | a recycled bitmap, or a clamped origin outside the bitmap, gives the bitmap back; otherwise the crop is exactly the clamped window of the same image, at most the bitmap's size |
| TextRecognition.RegionResult | app/src/main/java/com/mtginventory/app/data/mlkit/TextRecognitionService.kt:56-100 | each region's result keeps its index and region; an unusable crop or a failed recognition gives success=false with no text; otherwise the region succeeds exactly when recognition does, with the recognised lines |
| TextRecognition.RecognizeTextInRegions | app/src/main/java/com/mtginventory/app/data/mlkit/TextRecognitionService.kt:40-106 | fails iff the bitmap is recycled, with "Bitmap is recycled"; otherwise one result per region, in order, each the region's own result |
| TextRecognition.LineTexts | app/src/main/java/com/mtginventory/app/data/mlkit/TextRecognitionService.kt:108-118 | the texts of the recognized lines, in order |
| TextRecognition.AllTextSpaces | app/src/main/java/com/mtginventory/app/data/mlkit/TextRecognitionService.kt:109 | the raw text (`AllText`) is the lines joined by single spaces |
| TextRecognition.CardNameOf | app/src/main/java/com/mtginventory/app/data/mlkit/TextRecognitionService.kt:147-166 | a found name is longer than two characters, trimmed and without double spaces |
| TextRecognition.CardInfoOf | app/src/main/java/com/mtginventory/app/data/mlkit/TextRecognitionService.kt:108-118 | the card info keeps the joined raw text and carries a well-formed collector number, set code and a rarity present iff a rarity letter occurs |
| TextRecognition.ParseCardInformation | app/src/main/java/com/mtginventory/app/data/mlkit/TextRecognitionService.kt:108-118 | computes exactly the card info of the recognized lines |
| ScryfallCards.PrimaryImageUrl | app/src/main/java/com/mtginventory/app/model/ScryfallCard.kt:177-179 | the image URL is the normal one, else the large one, else the png one, and is absent without image URIs |
| ScryfallCards.PrimaryImageUrlSource | app/src/main/java/com/mtginventory/app/model/ScryfallCard.kt:177-179 | a returned URL is one of the card's image URLs |
| ScryfallCards.DisplayPrice | app/src/main/java/com/mtginventory/app/model/ScryfallCard.kt:181-183 | the price is the parsed USD price, or 0 when there is none or it does not parse |
| ScryfallCards.ColorString | app/src/main/java/com/mtginventory/app/model/ScryfallCard.kt:185-187 | colours are concatenated; a card without colours shows "C" |
| ScryfallCards.IsLegal | app/src/main/java/com/mtginventory/app/model/ScryfallCard.kt:189-199 | a card is legal in a format iff it has legalities, the lower-cased format is one of the seven known ones and the entry for that format (`LegalityIn`) is "legal" |
| ScryfallCards.IsLegalIgnoresCase | app/src/main/java/com/mtginventory/app/model/ScryfallCard.kt:189-199 | legality does not depend on the case of the format name |
| ScryfallRepository.GetCardByCollectorNumber | app/src/main/java/com/mtginventory/app/data/api/ScryfallRepository.kt:73-90 | succeeds iff the response is successful (`IsSuccessful`: status 200-299), then with its body; else fails with "Card not found: " and the status code, or with the thrown message |
| ScryfallRepository.SearchCardByName | app/src/main/java/com/mtginventory/app/data/api/ScryfallRepository.kt:54-71 | searches the exact-name query; succeeds iff the response is 2xx (`IsSuccessful`), then with the first card of the body's data, or none when the body or its data is empty; a non-2xx response fails with "Search failed: " and the status code, a throw fails with the thrown message |
| ScryfallRepository.LookupCard | app/src/main/java/com/mtginventory/app/data/api/ScryfallRepository.kt:21-27 | a card from the lookup needs both a set code and a collector number and is the lookup's successful result |
| ScryfallRepository.NameCard | app/src/main/java/com/mtginventory/app/data/api/ScryfallRepository.kt:29-32 | a card from the search needs a card name and is the exact-name search's result |
| ScryfallRepository.IdentifyCard | app/src/main/java/com/mtginventory/app/data/api/ScryfallRepository.kt:18-37 | always succeeds; the lookup's card takes precedence, else the name search's; no card iff both give none |
| ScryfallRepository.LookupHitSkipsSearch | app/src/main/java/com/mtginventory/app/data/api/ScryfallRepository.kt:21-27 | once the lookup hits, the search endpoint is irrelevant to the outcome |
| ScryfallRepository.FailedLookupFallsThrough | app/src/main/java/com/mtginventory/app/data/api/ScryfallRepository.kt:21-32 | a failed lookup falls through to the name search |
| ScryfallRepository.NoLookupWithoutBothCodes | app/src/main/java/com/mtginventory/app/data/api/ScryfallRepository.kt:21 | without both a set code and a collector number the lookup endpoint is irrelevant |
| ScryfallRepository.SearchOnlyForExactName | app/src/main/java/com/mtginventory/app/data/api/ScryfallRepository.kt:29-32 | the search endpoint is consulted only with the exact-name query of the parsed name |
| ScryfallRepository.IdentifyCards | app/src/main/java/com/mtginventory/app/data/api/ScryfallRepository.kt:39-52 | always succeeds with one entry per card info, in order, each the identified card or none |
| ScryfallRepository.DelayFor | app/src/main/java/com/mtginventory/app/data/api/ScryfallRepository.kt:133-138 | the wait is positive iff less than 100 ms passed since the last request, and brings the gap to at least 100 ms |
| ScryfallRepository.NextStamp | app/src/main/java/com/mtginventory/app/data/api/ScryfallRepository.kt:130-143 | the new request time is at least 100 ms after the previous one |
| ScryfallRepository.RateLimiter.constructor | app/src/main/java/com/mtginventory/app/data/api/ScryfallRepository.kt:16 | the last request time starts at 0 |
| ScryfallRepository.RateLimiter.WithRateLimit | app/src/main/java/com/mtginventory/app/data/api/ScryfallRepository.kt:130-143 | waits exactly the remaining part of the 100 ms gap and records a request time at least 100 ms after the previous one |
| ScryfallRepository.Stamps | app/src/main/java/com/mtginventory/app/data/api/ScryfallRepository.kt:130-143 | one request time per call through the gate |
| ScryfallRepository.StampsSpaced | app/src/main/java/com/mtginventory/app/data/api/ScryfallApiService.kt:42 | any sequence of calls through the gate yields request times at least 100 ms apart |
| ScryfallRepository.ExactName | app/src/main/java/com/mtginventory/app/data/api/ScryfallRepository.kt:151 | the exact-name query is `!"name"` |
| ScryfallRepository.ExactNameRoundTrip | app/src/main/java/com/mtginventory/app/data/api/ScryfallRepository.kt:151 | the name can be recovered from its exact-name query |
| ScryfallRepository.FilterRoundTrip | app/src/main/java/com/mtginventory/app/data/api/ScryfallRepository.kt:153-168 | a `key:value` filter splits back into its key and value when the key has no colon |
| ScryfallRepository.BuilderShapes | app/src/main/java/com/mtginventory/app/data/api/ScryfallRepository.kt:151-168 | each builder produces its literal query: `!"name" set:code`, `cn:number set:code`, `rarity:`, `c:` with the colours, `mv:` with the number, `t:` and `f:` |
| ScryfallRepository.ColorsQueryJoins | app/src/main/java/com/mtginventory/app/data/api/ScryfallRepository.kt:161-162 | for every colour list, the query is "c:" followed by the colour letters one after another (`Concat`), with no separator |
| Text.JoinNoSeparator | app/src/main/java/com/mtginventory/app/data/api/ScryfallRepository.kt:161-162 | `joinToString("")` of any list writes its parts one after another |
| ScryfallRepository.FilterBuildersRoundTrip | app/src/main/java/com/mtginventory/app/data/api/ScryfallRepository.kt:159-168 | each single-filter query splits back into its key and its value |
| ScryfallRepository.NonBlank | app/src/main/java/com/mtginventory/app/data/api/ScryfallRepository.kt:173-174 | keeps exactly the non-blank queries, each as often as it occurs |
| ScryfallRepository.NonBlankSnoc | app/src/main/java/com/mtginventory/app/data/api/ScryfallRepository.kt:173-174 | the kept queries follow the input order: a blank query adds nothing and a non-blank one is appended |
| ScryfallRepository.CombineAppend | app/src/main/java/com/mtginventory/app/data/api/ScryfallRepository.kt:173-174 | `combine` built one part at a time: no parts give "", a blank part changes nothing, a non-blank part follows one space (or stands alone when it is the first) |
| ScryfallRepository.CombineDropsBlanks | app/src/main/java/com/mtginventory/app/data/api/ScryfallRepository.kt:173-174 | a blank query in front changes nothing either, so blanks anywhere are dropped |
| CardProcessingPipeline.FirstSuccess | app/src/main/java/com/mtginventory/app/data/processing/CardProcessingPipeline.kt:146-165 | the first attempt whose identification succeeds, with every earlier one failing |
| CardProcessingPipeline.RetryStopsAtFirstSuccess | app/src/main/java/com/mtginventory/app/data/processing/CardProcessingPipeline.kt:146-165 | the loop stops after the first successful attempt and returns that result, or makes every allowed call |
| CardProcessingPipeline.RetryAllThrow | app/src/main/java/com/mtginventory/app/data/processing/CardProcessingPipeline.kt:146-165 | when every attempt throws, all attempts are made, the result stays the initial failure and the last error is the last thrown message |
| CardProcessingPipeline.RepositoryNeedsOneCall | app/src/main/java/com/mtginventory/app/data/processing/CardProcessingPipeline.kt:146-165 | with the repository's identifyCard, one call suffices and returns its result |
| CardProcessingPipeline.IdentifyWithRetry | app/src/main/java/com/mtginventory/app/data/processing/CardProcessingPipeline.kt:142-165 | the loop computes the retry specification, makes at most maxRetries calls and sleeps 100·k ms after the k-th failed call |
| CardProcessingPipeline.IdentifyEntry | app/src/main/java/com/mtginventory/app/data/processing/CardProcessingPipeline.kt:142-180 | a result keeps its index and info; missing info gives "No card info extracted"; a found card means success; a failure always has an error |
| CardProcessingPipeline.AllThrowReportsNoAttempts | app/src/main/java/com/mtginventory/app/data/processing/CardProcessingPipeline.kt:145-172 | when every attempt throws, the result fails with "No attempts made" |
| CardProcessingPipeline.RecoveredAttemptKeepsError | app/src/main/java/com/mtginventory/app/data/processing/CardProcessingPipeline.kt:145-172 | a success after a thrown attempt is reported as success yet keeps the thrown error |
| CardProcessingPipeline.IdentifyCardsWithRetry | app/src/main/java/com/mtginventory/app/data/processing/CardProcessingPipeline.kt:133-191 | one result per entry, each the entry's retry result, with no call for entries without info |
| CardProcessingPipeline.ScannedOf | app/src/main/java/com/mtginventory/app/data/processing/CardProcessingPipeline.kt:193-218 | a found card gives its data (`FromScryfall`); an unfound card with info gives the "Unknown Card" placeholder; a result with neither is dropped |
| CardProcessingPipeline.CountKept | app/src/main/java/com/mtginventory/app/data/processing/CardProcessingPipeline.kt:193-218 | no more cards are kept than there are results |
| CardProcessingPipeline.CreateScannedCards | app/src/main/java/com/mtginventory/app/data/processing/CardProcessingPipeline.kt:193-218 | one card per kept result, each produced from some result |
| CardProcessingPipeline.CreateScannedCardsAppend | app/src/main/java/com/mtginventory/app/data/processing/CardProcessingPipeline.kt:193-218 | card creation distributes over concatenated results, so order is preserved |
| CardProcessingPipeline.CreateScannedCardsCons | app/src/main/java/com/mtginventory/app/data/processing/CardProcessingPipeline.kt:193-218 | the first result contributes its own card, if any, in front of the cards of the rest |
| CardProcessingPipeline.CreateScannedCardsPositions | app/src/main/java/com/mtginventory/app/data/processing/CardProcessingPipeline.kt:193-218 | when every result is kept, card i comes from result i |
| CardProcessingPipeline.ProcessSingleCard | app/src/main/java/com/mtginventory/app/data/processing/CardProcessingPipeline.kt:220-243 | fails iff identification throws; a found card gives `Success(Some(...))` of exactly the ScannedCard `FromScryfall` builds from it (the given id, its name, set, number, rarity, display price and the card itself); no card gives none |
| CardProcessingPipeline.SingleCardWithRepository | app/src/main/java/com/mtginventory/app/data/processing/CardProcessingPipeline.kt:220-243 | with the repository, single-card processing never fails |
| CardProcessingPipeline.IndexInfo | app/src/main/java/com/mtginventory/app/data/processing/CardProcessingPipeline.kt:65-73 | a region yields card info iff recognition succeeded with some text, keeping its index and raw text |
| CardProcessingPipeline.RegionResults | app/src/main/java/com/mtginventory/app/data/mlkit/TextRecognitionService.kt:54-102 | one result per region, in order |
| CardProcessingPipeline.IndexInfos | app/src/main/java/com/mtginventory/app/data/processing/CardProcessingPipeline.kt:65-73 | one entry per region text, in order |
| CardProcessingPipeline.IdentifyEntries | app/src/main/java/com/mtginventory/app/data/processing/CardProcessingPipeline.kt:133-191 | one identification result per entry, in order |
| CardProcessingPipeline.ParseRegions | app/src/main/java/com/mtginventory/app/data/processing/CardProcessingPipeline.kt:65-73 | computes exactly the indexed card infos of the region texts |
| CardProcessingPipeline.CountParsed | app/src/main/java/com/mtginventory/app/data/processing/CardProcessingPipeline.kt:75 | at most one parsed card per region |
| CardProcessingPipeline.CountIdentified | app/src/main/java/com/mtginventory/app/data/processing/CardProcessingPipeline.kt:83 | at most one identified card per result |
| CardProcessingPipeline.IdentifiedWithinParsed | app/src/main/java/com/mtginventory/app/data/processing/CardProcessingPipeline.kt:75-83 | no more cards are identified than were parsed |
| CardProcessingPipeline.RunEndsOnce | app/src/main/java/com/mtginventory/app/data/processing/CardProcessingPipeline.kt:25-95 | a run ends with exactly one Completed or Error event, and nothing follows an error |
| CardProcessingPipeline.PlanRegions | app/src/main/java/com/mtginventory/app/data/processing/CardProcessingPipeline.kt:34-43 | the regions are the mode's grid over the bitmap with each cell shrunk to card shape, the mode's card count of them, never none |
| CardProcessingPipeline.ProcessRegions | app/src/main/java/com/mtginventory/app/data/processing/CardProcessingPipeline.kt:47-90 | no regions gives the "No valid card regions detected" error; a recycled bitmap gives the recognition error; otherwise TextExtracted, CardInfoParsed, CardsIdentified and Completed, with counts from the specification functions |
| CardProcessingPipeline.ProcessGridImage | app/src/main/java/com/mtginventory/app/data/processing/CardProcessingPipeline.kt:25-95 | emits Started and GridDetected with the mode's card count, never the no-regions error, fails iff the bitmap is recycled, and otherwise processes exactly the planned regions |
| CardPersistence.ToInt | app/src/main/java/com/mtginventory/app/data/repository/CardRepository.kt:112 | Double-to-Int conversion truncates toward zero within the Int range, gives `Int.MAX_VALUE` for any value at or above it and `Int.MIN_VALUE` for any value at or below it |
| CardPersistence.JoinComma | app/src/main/java/com/mtginventory/app/data/repository/CardRepository.kt:117-118 | a missing list stays missing; a non-empty list of comma-free values joins so that splitting at the commas gives the values back |
| CardPersistence.ToCardEntity | app/src/main/java/com/mtginventory/app/data/repository/CardRepository.kt:103-125 | the entity gets the fresh id and two clock readings and copies the card's fields; with a Scryfall card it takes its id, set code, truncated mana value, type line, mana cost, oracle text, power, toughness, artist, flavour text, comma-joined colours and primary image, else the documented empty defaults |
| CardPersistence.ToScannedCard | app/src/main/java/com/mtginventory/app/data/repository/CardRepository.kt:127-137 | the scanned card copies the entity's fields, its price defaults to 0 and it has no Scryfall card |
| CardPersistence.RoundTrip | app/src/main/java/com/mtginventory/app/data/repository/CardRepository.kt:103-137 | saving then loading gives back the card with the fresh id and without its Scryfall card |
| CardPersistence.PlaceholderRoundTrip | app/src/main/java/com/mtginventory/app/data/repository/CardRepository.kt:103-137 | a card without a Scryfall card saved under its own id comes back unchanged |
| CardPersistence.Associate | app/src/main/java/com/mtginventory/app/data/repository/CardRepository.kt:76-82 | the map's keys are exactly the keys of the pairs |
| CardPersistence.AssociateLastWins | app/src/main/java/com/mtginventory/app/data/repository/CardRepository.kt:76-82 | for a repeated key the last pair's value wins |
| CardPersistence.RarityPairs | app/src/main/java/com/mtginventory/app/data/repository/CardRepository.kt:77 | each rarity row becomes its (rarity, count) pair |
| CardPersistence.SetPairs | app/src/main/java/com/mtginventory/app/data/repository/CardRepository.kt:81 | each set row becomes its (set code, count) pair |
| CardPersistence.RarityDistribution | app/src/main/java/com/mtginventory/app/data/repository/CardRepository.kt:76-78 | the distribution has one key per rarity row |
| CardPersistence.TopSets | app/src/main/java/com/mtginventory/app/data/repository/CardRepository.kt:80-82 | the top-sets map has one key per set row |
| Filtering.FilterAppend | app/src/main/java/com/mtginventory/app/ui/scanner/ScannerViewModel.kt:42-50 | filtering distributes over concatenation |
| Filtering.FilterMembers | app/src/main/java/com/mtginventory/app/ui/scanner/ScannerViewModel.kt:42-50 | filtering keeps exactly the elements satisfying the predicate |
| Filtering.FilterNone | app/src/main/java/com/mtginventory/app/ui/collection/CollectionViewModel.kt:200-204 | filtering with a predicate no element satisfies yields nothing |
| Filtering.FilterAll | app/src/main/java/com/mtginventory/app/ui/collection/CollectionViewModel.kt:200-204 | filtering with a predicate every element satisfies changes nothing |
| Filtering.ConsStable | app/src/main/java/com/mtginventory/app/ui/collection/CollectionViewModel.kt:207-220 | the filtered view of a list grows the same way when the same head is put in front |
| CollectionViewModel.StrLessIrreflexive | app/src/main/java/com/mtginventory/app/ui/collection/CollectionViewModel.kt:208-209 | string order is irreflexive |
| CollectionViewModel.StrLessTransitive | app/src/main/java/com/mtginventory/app/ui/collection/CollectionViewModel.kt:208-209 | string order is transitive |
| CollectionViewModel.StrLessTotal | app/src/main/java/com/mtginventory/app/ui/collection/CollectionViewModel.kt:208-209 | distinct strings are ordered one way or the other |
| CollectionViewModel.RarityRank | app/src/main/java/com/mtginventory/app/ui/collection/CollectionViewModel.kt:210-217 | rarity ranks are 1 to 5, with 5 exactly for an unknown rarity |
| CollectionViewModel.DisplayNamesDistinct | app/src/main/java/com/mtginventory/app/ui/collection/CollectionViewModel.kt:25-31 | every sort option has its own menu label |
| CollectionViewModel.KeyLessOrder | app/src/main/java/com/mtginventory/app/ui/collection/CollectionViewModel.kt:207-220 | each sort key order is a strict weak order whose ties are equal keys |
| CollectionViewModel.KeyLessBeforeAll | app/src/main/java/com/mtginventory/app/ui/collection/CollectionViewModel.kt:207-220 | a key below one not-above another is below that one too |
| CollectionViewModel.SortedMeaning | app/src/main/java/com/mtginventory/app/ui/collection/CollectionViewModel.kt:207-220 | a list sorted by the option's key (`KeyOf`) is by name and set ascending, rarity rank ascending, price descending and id descending |
| CollectionViewModel.Insert | app/src/main/java/com/mtginventory/app/ui/collection/CollectionViewModel.kt:207-220 | insertion adds exactly the one card |
| CollectionViewModel.SortCards | app/src/main/java/com/mtginventory/app/ui/collection/CollectionViewModel.kt:207-220 | sorting is a permutation |
| CollectionViewModel.InsertSorted | app/src/main/java/com/mtginventory/app/ui/collection/CollectionViewModel.kt:207-220 | insertion keeps a list sorted |
| CollectionViewModel.InsertSortedFront | app/src/main/java/com/mtginventory/app/ui/collection/CollectionViewModel.kt:205-219 | a card put in front of a sorted list it sorts before keeps the list sorted |
| CollectionViewModel.InsertSortedBehind | app/src/main/java/com/mtginventory/app/ui/collection/CollectionViewModel.kt:205-219 | the head of a sorted list stays ahead of the rest after a card not before it is inserted there |
| CollectionViewModel.SortCardsSorted | app/src/main/java/com/mtginventory/app/ui/collection/CollectionViewModel.kt:207-220 | the sort's result is sorted by the chosen key |
| CollectionViewModel.SortCardsSnoc | app/src/main/java/com/mtginventory/app/ui/collection/CollectionViewModel.kt:205-219 | sorting a list ending in a card is inserting that card into the sorted rest |
| CollectionViewModel.KeyAbsentAfter | app/src/main/java/com/mtginventory/app/ui/collection/CollectionViewModel.kt:207-220 | a key below the head of a sorted list occurs nowhere in it |
| CollectionViewModel.InsertStable | app/src/main/java/com/mtginventory/app/ui/collection/CollectionViewModel.kt:207-220 | insertion puts a card after the cards with an equal key |
| CollectionViewModel.InsertStableFront | app/src/main/java/com/mtginventory/app/ui/collection/CollectionViewModel.kt:207-220 | insertion at the front keeps the relative order of cards with an equal key |
| CollectionViewModel.SortCardsStable | app/src/main/java/com/mtginventory/app/ui/collection/CollectionViewModel.kt:207-220 | the sort is stable, like `sortedBy`: cards with equal keys keep their input order |
| CollectionViewModel.InsertAfterAll | app/src/main/java/com/mtginventory/app/ui/collection/CollectionViewModel.kt:207-220 | a card not below any card is appended at the end |
| CollectionViewModel.SortedInit | app/src/main/java/com/mtginventory/app/ui/collection/CollectionViewModel.kt:205-219 | a sorted list's prefix is sorted and its last card sorts before none of the prefix |
| CollectionViewModel.SortCardsOfSorted | app/src/main/java/com/mtginventory/app/ui/collection/CollectionViewModel.kt:207-220 | sorting an already sorted list changes nothing |
| CollectionViewModel.FilterRarity | app/src/main/java/com/mtginventory/app/ui/collection/CollectionViewModel.kt:200-204 | without a filter the list is unchanged; with one, each card whose rarity equals it ignoring case (`EqualsIgnoreCase`) is kept as often as it occurs and every other card is dropped |
| CollectionViewModel.FilterRarityAppend | app/src/main/java/com/mtginventory/app/ui/collection/CollectionViewModel.kt:200-204 | filtering goes card by card, so the kept cards stay in their input order |
| CollectionViewModel.FilterRarityIdempotent | app/src/main/java/com/mtginventory/app/ui/collection/CollectionViewModel.kt:200-204 | filtering twice by rarity is filtering once |
| CollectionViewModel.ApplyFiltersAndSorting | app/src/main/java/com/mtginventory/app/ui/collection/CollectionViewModel.kt:196-222 | the result is a permutation of the rarity-filtered cards, each of the selected rarity |
| CollectionViewModel.ApplyFiltersAndSortingOrdered | app/src/main/java/com/mtginventory/app/ui/collection/CollectionViewModel.kt:196-222 | the result is sorted by the chosen key and keeps the input order among equal keys |
| CollectionViewModel.ApplyFiltersAndSortingIdempotent | app/src/main/java/com/mtginventory/app/ui/collection/CollectionViewModel.kt:133-137 | re-applying the filter and sort to its own output changes nothing |
| CollectionViewModel.FilterOfSortedFiltered | app/src/main/java/com/mtginventory/app/ui/collection/CollectionViewModel.kt:200-204 | filtering cards that already have the selected rarity changes nothing |
| CollectionViewModel.CollectionScreenModel.constructor | app/src/main/java/com/mtginventory/app/ui/collection/CollectionViewModel.kt:12-23 | the screen starts in the initial state |
| CollectionViewModel.CollectionScreenModel.UpdateSortOption | app/src/main/java/com/mtginventory/app/ui/collection/CollectionViewModel.kt:133-137 | records the option and re-sorts the shown cards by it, keeping only cards already shown |
| CollectionViewModel.CollectionScreenModel.ClearError | app/src/main/java/com/mtginventory/app/ui/collection/CollectionViewModel.kt:187-189 | clears the error and nothing else |
| CollectionViewModel.CollectionScreenModel.UpdateSearchQuery | app/src/main/java/com/mtginventory/app/ui/collection/CollectionViewModel.kt:94-101 | records the query and nothing else |
| ScannerViewModel.TotalValueAppend | app/src/main/java/com/mtginventory/app/ui/scanner/ScannerViewModel.kt:32-40 | the total value (`TotalValue`, the sum of the prices) of a concatenation is the sum of the totals |
| ScannerViewModel.FirstThrow | app/src/main/java/com/mtginventory/app/ui/scanner/ScannerViewModel.kt:64-67 | the first card whose save throws, with every earlier save returning |
| ScannerViewModel.ScannerScreenModel.constructor | app/src/main/java/com/mtginventory/app/ui/scanner/ScannerViewModel.kt:15-21 | the screen starts empty and consistent |
| ScannerViewModel.ScannerScreenModel.AddScannedCards | app/src/main/java/com/mtginventory/app/ui/scanner/ScannerViewModel.kt:32-40 | appends the cards and grows the total value by their prices |
| ScannerViewModel.ScannerScreenModel.RemoveCard | app/src/main/java/com/mtginventory/app/ui/scanner/ScannerViewModel.kt:42-50 | keeps exactly the cards with another id and recomputes the total |
| ScannerViewModel.ScannerScreenModel.ClearCards | app/src/main/java/com/mtginventory/app/ui/scanner/ScannerViewModel.kt:52-57 | empties the list and zeroes the total |
| ScannerViewModel.ScannerScreenModel.SaveCards | app/src/main/java/com/mtginventory/app/ui/scanner/ScannerViewModel.kt:59-83 | saves the cards in order; when none throws the list is emptied, otherwise it stops at the first throw, keeps the list and records "Failed to save cards: " with the message |
| ScannerViewModel.ScannerScreenModel.ClearError | app/src/main/java/com/mtginventory/app/ui/scanner/ScannerViewModel.kt:85-87 | clears the error and nothing else |
| ScannerViewModel.ScannerScreenModel.SetProcessing | app/src/main/java/com/mtginventory/app/ui/scanner/ScannerViewModel.kt:89-91 | sets the processing flag and nothing else |
| ScannerViewModel.RemoveAbsentId | app/src/main/java/com/mtginventory/app/ui/scanner/ScannerViewModel.kt:42-50 | removing an id no card has changes nothing |
| ScannerViewModel.AddThenRemove | app/src/main/java/com/mtginventory/app/ui/scanner/ScannerViewModel.kt:32-50 | removing a just-added card's id removes it and every card sharing its id, and nothing else |

## Left out

- Floating-point arithmetic:
  - The 5% padding and the 0.715 aspect ratio are modelled as exact integer or rational arithmetic.
    The rounding of `Float`/`Double` is not modelled.
  - `sumOf` on prices is exact `real` addition.
- Text and case:
  - Regular expressions (`\s`, `\d`, `\b`) and case-insensitive comparison are modelled on ASCII only.
    Locale case folding is not. `trim` and `isBlank` use Kotlin's `Char.isWhitespace` set.
  - String ordering (`sortedBy { it.name }`) compares characters by code point. UTF-16 surrogate pairs
    are not distinguished.
- Exception messages are modelled as always present: a `Failure`, a throw of the API oracle and a throw
  of a save carry a string. Kotlin's `Throwable.message` is nullable, so the model does not capture:
  - the `?: lastError?.message` fallback of the retry loop when the last result's exception has no
    message (CardProcessingPipeline.kt:172);
  - the text "null" in "Text recognition failed: null" (CardProcessingPipeline.kt:56) and in
    "Failed to save cards: null" (ScannerViewModel.kt:79).
- CameraGrid.OverlayMatchesRegions: only the overlay's position decode is modelled. The rectangle `drawGrid`
  draws is in float canvas coordinates (40.dp padding, `Float` cells, a 10% inset and 0.8 size), not the
  5%-padded integer region of `createGridRegions`; that geometry is not modelled.
- CardTextParser.ExtractCardName: string lengths are counted in Unicode code points, not UTF-16 units. A
  cleaned text of two astral-plane characters (two emoji) has Kotlin length 4 and becomes a name in the
  source, while the model's `|cleanText| > 2` rejects it.
- The `OutOfMemoryError` handler of `cropBitmap`: memory exhaustion is not modelled.
- Concurrency is not modelled:
  - coroutines, `async`/`awaitAll`, the rate gate's `Mutex`, the shared progress counter and the search
    debounce;
  - the identification loop runs sequentially in the model, and the rate gate's mutual exclusion is
    assumed, not modelled;
  - progress callbacks are not modelled;
  - cancellation is not modelled.
- The outer `catch` of `processGridImage` ("Processing failed") is not modelled. No step inside it can throw
  in the model: every throwing call is caught closer to its source.
- `ScryfallQueryBuilder.priceRange` is not modelled. It formats `Double` values.
- `identifyCardsInParallel` is not modelled. It has no caller.
- The repository's public `searchCards` and `getRandomCard` are not modelled. The pipeline does not use
  them, and they repeat the request-and-status pattern of `searchCardByName`.
- Other view-model and repository operations are not modelled:
  - `loadCollection`, `loadCollectionStats`, `searchCards`, `updateRarityFilter`, `deleteCard`,
    `updateCardQuantity` and `refreshCollection` of the collection screen;
  - the repository's DAO-backed queries.
  These are asynchronous database flows with no logic beyond the conversions modelled here.
- The Room database, Retrofit/HTTP transport, JSON decoding and `LinkedHashMap` iteration order are not
  modelled. The API and the database are functions supplied by the caller.
- ML Kit text recognition, `UUID.randomUUID()`, `System.currentTimeMillis()`, `delay` and
  `toDoubleOrNull` are inputs to the model. The retry method returns the delays it would sleep.
- ScryfallRepository.StampsSpaced: assumes the clock read after the delay shows at least the first
  reading plus the delay (each lag is a `nat`). `System.currentTimeMillis()` can run backwards, and then two
  requests can start less than 100 ms apart.
- ScryfallRepository.RateLimiter.WithRateLimit: timestamps are unbounded integers. A `Long` overflow of
  the clock is not modelled.
- CardProcessingPipeline.IdentifyCardsWithRetry: the per-entry identify calls run one after another, not
  concurrently. The results are the same because entries do not share state in the model.
- ScannerViewModel.ScannerScreenModel.SaveCards: `cardRepository.saveCard` returns a `Result` and so never
  throws in the source. A thrown save is reachable here only through the saver parameter.
