/** `TextRecognitionService` outside the parser: cropping a region out of the photograph,
    recognising the text of every region, and assembling a `CardTextInfo` from recognised lines.
    The ML Kit recogniser is an oracle `recognize` from a bitmap to recognised lines or a failure. */
module TextRecognition {
  import opened Wrappers
  import opened Text
  import opened Grid
  import opened CardTextParser

  /** One recognised line: its text, its bounding box and the recogniser's confidence. */
  datatype RecognizedText = RecognizedText(text: string, boundingBox: Rect, confidence: real)

  datatype RegionTextResult = RegionTextResult(
    regionIndex: nat, region: Rect, recognizedTexts: seq<RecognizedText>, success: bool)

  /** The identity hints parsed from one region's text. */
  datatype CardTextInfo = CardTextInfo(
    cardName: Option<string>, collectorNumber: Option<string>, setCode: Option<string>,
    rarity: Option<string>, rawText: string)

  /** A bitmap, seen as a window of size width × height at (originX, originY) of the photograph
      `source`; `recycled` is `Bitmap.isRecycled`. */
  datatype Bitmap = Bitmap(source: nat, originX: int, originY: int, width: nat, height: nat, recycled: bool)

  /** The OCR engine: recognised lines of a bitmap, or a failure. */
  type Recognizer = Bitmap -> Result<seq<RecognizedText>>

  function Max(a: int, b: int): int { if a >= b then a else b }
  function Min(a: int, b: int): int { if a <= b then a else b }

  /** `cropBitmap`'s clamping: the sub-rectangle (x, y, width, height) of a width × height bitmap
      to cut out for `region`, or None when the original bitmap is used instead. */
  function CropBox(bitmapWidth: nat, bitmapHeight: nat, region: Rect): (box: Option<(nat, nat, nat, nat)>)
    ensures box.None? <==> Max(0, region.left) >= bitmapWidth || Max(0, region.top) >= bitmapHeight
    ensures box.Some? ==>
      var (x, y, w, h) := box.value;
      && x == Max(0, region.left) && y == Max(0, region.top)
      && w >= 1 && h >= 1 && x + w <= bitmapWidth && y + h <= bitmapHeight
      && (region.Width() >= 1 ==> w <= region.Width())
      && (region.Height() >= 1 ==> h <= region.Height())
  {
    var x := Max(0, region.left);
    var y := Max(0, region.top);
    var width := Max(Min(bitmapWidth - x, region.Width()), 1);
    var height := Max(Min(bitmapHeight - y, region.Height()), 1);
    if x >= bitmapWidth || y >= bitmapHeight || width <= 0 || height <= 0 then None
    else Some((x, y, width, height))
  }

  /** `cropBitmap`: a recycled bitmap, or a region off the bitmap, gives back the bitmap itself. */
  function CropBitmap(bitmap: Bitmap, region: Rect): (cropped: Bitmap)
    ensures bitmap.recycled ==> cropped == bitmap
    ensures !bitmap.recycled ==> !cropped.recycled && cropped.source == bitmap.source
    ensures cropped != bitmap ==> 1 <= cropped.width <= bitmap.width && 1 <= cropped.height <= bitmap.height
    // a region whose clamped origin is off the bitmap gives back the bitmap itself
    ensures !bitmap.recycled && CropBox(bitmap.width, bitmap.height, region).None? ==> cropped == bitmap
    // otherwise the crop is the clamped window, placed relative to the photograph
    ensures !bitmap.recycled && CropBox(bitmap.width, bitmap.height, region).Some? ==>
      var (x, y, w, h) := CropBox(bitmap.width, bitmap.height, region).value;
      cropped == Bitmap(bitmap.source, bitmap.originX + x, bitmap.originY + y, w, h, false)
  {
    if bitmap.recycled then bitmap
    else match CropBox(bitmap.width, bitmap.height, region)
      case None => bitmap
      case Some((x, y, w, h)) =>
        Bitmap(bitmap.source, bitmap.originX + x, bitmap.originY + y, w, h, false)
  }

  /** What the loop records for the region at `index`: a failed entry with no text when the crop is
      unusable or recognition fails, otherwise the recognised lines. */
  function RegionResult(bitmap: Bitmap, region: Rect, index: nat, recognize: Recognizer): (r: RegionTextResult)
    ensures r.regionIndex == index && r.region == region
    ensures !r.success ==> r.recognizedTexts == []
    // an unusable crop fails the region without asking the recogniser
    ensures var cropped := CropBitmap(bitmap, region);
      cropped.recycled || cropped.width == 0 || cropped.height == 0 ==> !r.success
    // otherwise the region succeeds exactly when recognition does, with the recognised lines
    ensures var cropped := CropBitmap(bitmap, region);
      !cropped.recycled && cropped.width > 0 && cropped.height > 0 ==>
        (r.success <==> recognize(cropped).Success?)
        && (r.success ==> r.recognizedTexts == recognize(cropped).value)
  {
    var cropped := CropBitmap(bitmap, region);
    if cropped.recycled || cropped.width <= 0 || cropped.height <= 0 then
      RegionTextResult(index, region, [], false)
    else
      match recognize(cropped)
      case Success(lines) => RegionTextResult(index, region, lines, true)
      case Failure(_) => RegionTextResult(index, region, [], false)
  }

  /** `recognizeTextInRegions`: one result per region, in order, whatever happens to each region;
      only a recycled bitmap fails the whole call. */
  method RecognizeTextInRegions(bitmap: Bitmap, regions: seq<Rect>, recognize: Recognizer)
    returns (result: Result<seq<RegionTextResult>>)
    ensures bitmap.recycled <==> result.Failure?
    ensures bitmap.recycled ==> result.message == "Bitmap is recycled"
    ensures result.Success? ==> |result.value| == |regions|
    ensures result.Success? ==> forall i :: 0 <= i < |regions| ==>
      result.value[i] == RegionResult(bitmap, regions[i], i, recognize)
  {
    if bitmap.recycled {
      return Failure("Bitmap is recycled");
    }
    if regions == [] {
      return Success([]);
    }
    var results: seq<RegionTextResult> := [];
    for index := 0 to |regions|
      invariant |results| == index
      invariant forall i :: 0 <= i < index ==> results[i] == RegionResult(bitmap, regions[i], i, recognize)
    {
      var region := regions[index];
      var croppedBitmap := CropBitmap(bitmap, region);
      if croppedBitmap.recycled || croppedBitmap.width <= 0 || croppedBitmap.height <= 0 {
        results := results + [RegionTextResult(index, region, [], false)];
      } else {
        var textResult := recognize(croppedBitmap);
        results := results + [RegionTextResult(index, region, textResult.GetOrNull().GetOr([]), textResult.Success?)];
      }
    }
    return Success(results);
  }

  /** The text of the lines, in order. */
  function LineTexts(lines: seq<RecognizedText>): (texts: seq<string>)
    ensures |texts| == |lines| && forall i :: 0 <= i < |lines| ==> texts[i] == lines[i].text
  {
    if lines == [] then [] else [lines[0].text] + LineTexts(lines[1..])
  }

  /** `recognizedTexts.joinToString(" ") { it.text }`. */
  function AllText(lines: seq<RecognizedText>): string {
    Join(LineTexts(lines), " ")
  }

  /** The name `extractCardName` returns for `text`. */
  function CardNameOf(text: string): (name: Option<string>)
    ensures name.Some? ==> |name.value| > 2 && Trimmed(name.value) && NoDoubleSpace(name.value)
  {
    if |CleanName(text)| > 2 then Some(CleanName(text)) else None
  }

  /** The hints `parseCardInformation` produces for a region's lines. */
  function CardInfoOf(lines: seq<RecognizedText>): (info: CardTextInfo)
    ensures info.rawText == AllText(lines)
    ensures info.collectorNumber.Some? ==>
      1 <= |info.collectorNumber.value| <= 4 && AllDigits(info.collectorNumber.value)
    ensures info.setCode.Some? ==> |info.setCode.value| == 3 && AllUpper(info.setCode.value)
    ensures info.rarity.None? <==>
      'C' !in info.rawText && 'U' !in info.rawText && 'R' !in info.rawText && 'M' !in info.rawText
  {
    var allText := AllText(lines);
    CardTextInfo(CardNameOf(allText), ExtractCollectorNumber(allText), ExtractSetCode(allText),
                 ExtractRarity(allText), allText)
  }

  /** `parseCardInformation`: always a `CardTextInfo` (never null), built from the joined text. */
  method ParseCardInformation(lines: seq<RecognizedText>) returns (info: CardTextInfo)
    ensures info == CardInfoOf(lines)
  {
    var allText := AllText(lines);
    var cardName := ExtractCardName(allText);
    info := CardTextInfo(cardName, ExtractCollectorNumber(allText), ExtractSetCode(allText),
                         ExtractRarity(allText), allText);
  }

  /** The joined text separates consecutive lines by exactly one space. */
  lemma {:induction false} AllTextSpaces(lines: seq<RecognizedText>)
    requires |lines| >= 2
    ensures AllText(lines) == lines[0].text + " " + AllText(lines[1..])
  {
    assert LineTexts(lines)[1..] == LineTexts(lines[1..]);
  }
}
