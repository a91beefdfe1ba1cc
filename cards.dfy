/** The card record returned by the Scryfall API (`ScryfallCard`, the fields the core reads) and
    its extension helpers `primaryImageUrl`, `displayPrice`, `colorString` and `isLegal`.
    Prices are exact reals; how a price string is parsed is an input (`PriceParser`). */
module ScryfallCards {
  import opened Wrappers
  import opened Text

  datatype ImageUris = ImageUris(
    small: Option<string>, normal: Option<string>, large: Option<string>, png: Option<string>,
    artCrop: Option<string>, borderCrop: Option<string>)

  datatype Prices = Prices(
    usd: Option<string>, usdFoil: Option<string>, usdEtched: Option<string>,
    eur: Option<string>, eurFoil: Option<string>, tix: Option<string>)

  /** The legality of a card in the seven formats `isLegal` consults. */
  datatype Legalities = Legalities(
    standard: Option<string>, pioneer: Option<string>, modern: Option<string>,
    legacy: Option<string>, pauper: Option<string>, vintage: Option<string>,
    commander: Option<string>)

  datatype ScryfallCard = ScryfallCard(
    id: string, name: string, manaCost: Option<string>, cmc: real, typeLine: string,
    oracleText: Option<string>, power: Option<string>, toughness: Option<string>,
    colors: Option<seq<string>>, colorIdentity: Option<seq<string>>, rarity: string,
    flavorText: Option<string>, artist: Option<string>, setCode: string, setName: string,
    collectorNumber: string, imageUris: Option<ImageUris>, prices: Option<Prices>,
    legalities: Option<Legalities>)

  /** `String.toDoubleOrNull()`. */
  type PriceParser = string -> Option<real>

  /** `primaryImageUrl`: normal, else large, else png. */
  function PrimaryImageUrl(card: ScryfallCard): (url: Option<string>)
    ensures card.imageUris.None? ==> url.None?
    ensures card.imageUris.Some? ==> var u := card.imageUris.value;
      && (u.normal.Some? ==> url == u.normal)
      && (u.normal.None? && u.large.Some? ==> url == u.large)
      && (u.normal.None? && u.large.None? ==> url == u.png)
  {
    match card.imageUris
    case None => None
    case Some(u) =>
      if u.normal.Some? then u.normal else if u.large.Some? then u.large else u.png
  }

  /** The URL chosen is always one of normal/large/png, never small or a crop. */
  lemma PrimaryImageUrlSource(card: ScryfallCard)
    ensures PrimaryImageUrl(card).Some? ==>
      && card.imageUris.Some?
      && PrimaryImageUrl(card) in {card.imageUris.value.normal, card.imageUris.value.large, card.imageUris.value.png}
  {
  }

  /** `displayPrice`: the USD price, or 0.0 when it is missing or does not parse. */
  function DisplayPrice(card: ScryfallCard, parse: PriceParser): (price: real)
    ensures card.prices.None? || card.prices.value.usd.None? ==> price == 0.0
    ensures card.prices.Some? && card.prices.value.usd.Some? ==>
      price == parse(card.prices.value.usd.value).GetOr(0.0)
  {
    match card.prices
    case None => 0.0
    case Some(p) =>
      match p.usd
      case None => 0.0
      case Some(usd) => parse(usd).GetOr(0.0)
  }

  /** `colorString`: "C" (colourless) without colour data, else the colours run together. */
  function ColorString(card: ScryfallCard): (s: string)
    ensures card.colors.None? ==> s == "C"
    ensures card.colors == Some([]) ==> s == ""
    ensures card.colors.Some? ==> s == Join(card.colors.value, "")
  {
    match card.colors
    case None => "C"
    case Some(cs) => Join(cs, "")
  }

  /** The formats `isLegal` knows, lower case. */
  const KnownFormats: set<string> := {"standard", "modern", "legacy", "vintage", "commander", "pioneer", "pauper"}

  /** The legality string recorded for a (lower-case) format name. */
  function LegalityIn(l: Legalities, format: string): Option<string> {
    if format == "standard" then l.standard
    else if format == "modern" then l.modern
    else if format == "legacy" then l.legacy
    else if format == "vintage" then l.vintage
    else if format == "commander" then l.commander
    else if format == "pioneer" then l.pioneer
    else if format == "pauper" then l.pauper
    else None
  }

  /** `isLegal`: the format name is lower-cased; a known format is legal exactly when its entry
      is the string "legal"; an unknown format or missing legalities is never legal. */
  function IsLegal(card: ScryfallCard, format: string): (legal: bool)
    ensures Lower(format) !in KnownFormats ==> !legal
    ensures card.legalities.None? ==> !legal
    ensures legal <==> card.legalities.Some? && Lower(format) in KnownFormats
                       && LegalityIn(card.legalities.value, Lower(format)) == Some("legal")
  {
    var f := Lower(format);
    match card.legalities
    case None => false
    case Some(l) =>
      if f == "standard" then l.standard == Some("legal")
      else if f == "modern" then l.modern == Some("legal")
      else if f == "legacy" then l.legacy == Some("legal")
      else if f == "vintage" then l.vintage == Some("legal")
      else if f == "commander" then l.commander == Some("legal")
      else if f == "pioneer" then l.pioneer == Some("legal")
      else if f == "pauper" then l.pauper == Some("legal")
      else false
  }

  /** Case does not matter to `isLegal`. */
  lemma IsLegalIgnoresCase(card: ScryfallCard, a: string, b: string)
    requires EqualsIgnoreCase(a, b)
    ensures IsLegal(card, a) == IsLegal(card, b)
  {
  }
}
