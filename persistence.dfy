/** `CardRepository`'s conversions between a scanned card and its Room row (`CardEntity`), and the
    maps it builds from the DAO's grouped counts. The fresh UUID and the clock that a new row takes
    by default are inputs. */
module CardPersistence {
  import opened Wrappers
  import opened Text
  import opened ScryfallCards
  import opened ScannedCards

  /** A row of the `cards` table. */
  datatype CardEntity = CardEntity(
    id: string, scryfallId: string, name: string, setCode: string, setName: string,
    collectorNumber: string, rarity: string,
    manaCost: Option<string>, convertedManaCost: int, typeLine: Option<string>,
    oracleText: Option<string>, power: Option<string>, toughness: Option<string>,
    colors: Option<string>, colorIdentity: Option<string>, keywords: Option<string>,
    artist: Option<string>, flavorText: Option<string>, imageUri: Option<string>,
    language: string, foil: bool, promo: bool, digital: bool,
    quantity: int, condition: string, collectionId: Option<string>, deckId: Option<string>,
    lastPriceUpdate: Option<int>, currentPrice: Option<real>, priceSource: Option<string>,
    createdAt: int, updatedAt: int)

  const INT_MIN: int := -0x8000_0000
  const INT_MAX: int := 0x7FFF_FFFF

  /** Kotlin's `Double.toInt()`: rounds toward zero and saturates at the `Int` bounds. */
  function ToInt(x: real): (n: int)
    ensures INT_MIN <= n <= INT_MAX
    ensures INT_MIN as real <= x <= INT_MAX as real ==>
      (x >= 0.0 ==> n as real <= x < n as real + 1.0) && (x < 0.0 ==> n as real - 1.0 < x <= n as real)
    ensures x >= INT_MAX as real ==> n == INT_MAX
    ensures x <= INT_MIN as real ==> n == INT_MIN
  {
    var t := if x >= 0.0 then x.Floor else -((-x).Floor);
    if t < INT_MIN then INT_MIN else if t > INT_MAX then INT_MAX else t
  }

  /** `list.joinToString(",")` of an optional list: the values can be read back by splitting at
      the commas, as long as there is at least one and none holds a comma. */
  function JoinComma(values: Option<seq<string>>): (s: Option<string>)
    ensures s.None? <==> values.None?
    ensures values.Some? && values.value != [] && (forall k :: 0 <= k < |values.value| ==> ',' !in values.value[k]) ==>
      Split(s.value, ',') == values.value
  {
    match values
    case None => None
    case Some(vs) =>
      SplitJoin(vs, ',');
      Some(Join(vs, ","))
  }

  /** `ScannedCard.toCardEntity`: a new row with a fresh id; the creation and update times are
      two separate readings of the clock. */
  function ToCardEntity(card: ScannedCard, freshId: string, createdAt: int, updatedAt: int): (e: CardEntity)
    ensures e.id == freshId && e.createdAt == createdAt && e.updatedAt == updatedAt
    ensures e.name == card.name && e.setName == card.setName
    ensures e.collectorNumber == card.collectorNumber && e.rarity == card.rarity
    ensures e.currentPrice == Some(card.price) && e.priceSource == Some("scryfall")
    ensures card.scryfallCard.None? ==>
      && e.scryfallId == "" && e.setCode == "" && e.convertedManaCost == 0
      && e.manaCost.None? && e.typeLine.None? && e.oracleText.None? && e.power.None?
      && e.toughness.None? && e.colors.None? && e.colorIdentity.None? && e.artist.None?
      && e.flavorText.None? && e.imageUri.None?
    ensures card.scryfallCard.Some? ==>
      var c := card.scryfallCard.value;
      && e.scryfallId == c.id && e.setCode == c.setCode && e.convertedManaCost == ToInt(c.cmc)
      && e.typeLine == Some(c.typeLine) && e.colors == JoinComma(c.colors)
      && e.colorIdentity == JoinComma(c.colorIdentity) && e.imageUri == PrimaryImageUrl(c)
      && e.manaCost == c.manaCost && e.oracleText == c.oracleText && e.power == c.power
      && e.toughness == c.toughness && e.artist == c.artist && e.flavorText == c.flavorText
    ensures e.quantity == 1 && e.condition == "NM" && e.language == "en"
    ensures e.keywords.None? && e.collectionId.None? && e.deckId.None? && e.lastPriceUpdate.None?
    ensures !e.foil && !e.promo && !e.digital
  {
    var sc := card.scryfallCard;
    CardEntity(
      freshId,
      if sc.Some? then sc.value.id else "",
      card.name,
      if sc.Some? then sc.value.setCode else "",
      card.setName, card.collectorNumber, card.rarity,
      if sc.Some? then sc.value.manaCost else None,
      if sc.Some? then ToInt(sc.value.cmc) else 0,
      if sc.Some? then Some(sc.value.typeLine) else None,
      if sc.Some? then sc.value.oracleText else None,
      if sc.Some? then sc.value.power else None,
      if sc.Some? then sc.value.toughness else None,
      if sc.Some? then JoinComma(sc.value.colors) else None,
      if sc.Some? then JoinComma(sc.value.colorIdentity) else None,
      None,
      if sc.Some? then sc.value.artist else None,
      if sc.Some? then sc.value.flavorText else None,
      if sc.Some? then PrimaryImageUrl(sc.value) else None,
      "en", false, false, false,
      1, "NM", None, None,
      None, Some(card.price), Some("scryfall"),
      createdAt, updatedAt)
  }

  /** `CardEntity.toScannedCard`: keeps the row id; the Scryfall record is not rebuilt. */
  function ToScannedCard(e: CardEntity): (card: ScannedCard)
    ensures card.id == e.id && card.name == e.name && card.setName == e.setName
    ensures card.collectorNumber == e.collectorNumber && card.rarity == e.rarity
    ensures card.price == e.currentPrice.GetOr(0.0) && card.scryfallCard.None?
  {
    ScannedCard(e.id, e.name, e.setName, e.collectorNumber, e.rarity, e.currentPrice.GetOr(0.0), None)
  }

  /** Saving and loading a card keeps its name, set, number, rarity and price; the id becomes
      the row's fresh id and the Scryfall record is dropped. */
  lemma RoundTrip(card: ScannedCard, freshId: string, createdAt: int, updatedAt: int)
    ensures ToScannedCard(ToCardEntity(card, freshId, createdAt, updatedAt))
         == card.(id := freshId, scryfallCard := None)
  {
  }

  /** A placeholder card (no Scryfall record) survives the round trip unchanged but for its id. */
  lemma PlaceholderRoundTrip(card: ScannedCard, createdAt: int, updatedAt: int)
    requires card.scryfallCard.None?
    ensures ToScannedCard(ToCardEntity(card, card.id, createdAt, updatedAt)) == card
  {
  }

  /** `associate`: a map from the pairs in which a later pair wins over an earlier one with the
      same key. */
  function Associate<K(==), V>(pairs: seq<(K, V)>): (m: map<K, V>)
    ensures m.Keys == set i | 0 <= i < |pairs| :: pairs[i].0
    decreases |pairs|
  {
    if pairs == [] then map[]
    else Associate(pairs[..|pairs| - 1])[pairs[|pairs| - 1].0 := pairs[|pairs| - 1].1]
  }

  /** Each key maps to the value of the last pair that carries it. */
  lemma {:induction false} AssociateLastWins<K, V>(pairs: seq<(K, V)>, i: nat)
    requires i < |pairs|
    requires forall j :: i < j < |pairs| ==> pairs[j].0 != pairs[i].0
    ensures Associate(pairs)[pairs[i].0] == pairs[i].1
    decreases |pairs|
  {
    if i < |pairs| - 1 {
      AssociateLastWins(pairs[..|pairs| - 1], i);
    }
  }

  /** A row of `getRarityDistribution` / `getTopSets`. */
  datatype RarityCount = RarityCount(rarity: string, count: int)
  datatype SetCount = SetCount(setCode: string, count: int)

  function RarityPairs(rows: seq<RarityCount>): (pairs: seq<(string, int)>)
    ensures |pairs| == |rows| && forall i :: 0 <= i < |rows| ==> pairs[i] == (rows[i].rarity, rows[i].count)
  {
    if rows == [] then [] else [(rows[0].rarity, rows[0].count)] + RarityPairs(rows[1..])
  }

  function SetPairs(rows: seq<SetCount>): (pairs: seq<(string, int)>)
    ensures |pairs| == |rows| && forall i :: 0 <= i < |rows| ==> pairs[i] == (rows[i].setCode, rows[i].count)
  {
    if rows == [] then [] else [(rows[0].setCode, rows[0].count)] + SetPairs(rows[1..])
  }

  /** `getRarityDistribution`: rarity to count, one entry per rarity in the rows. */
  function RarityDistribution(rows: seq<RarityCount>): (m: map<string, int>)
    ensures m.Keys == set i | 0 <= i < |rows| :: rows[i].rarity
  {
    var m := Associate(RarityPairs(rows));
    assert (set i | 0 <= i < |rows| :: RarityPairs(rows)[i].0) == set i | 0 <= i < |rows| :: rows[i].rarity;
    m
  }

  /** `getTopSets`: set code to count, one entry per set code in the rows. */
  function TopSets(rows: seq<SetCount>): (m: map<string, int>)
    ensures m.Keys == set i | 0 <= i < |rows| :: rows[i].setCode
  {
    var m := Associate(SetPairs(rows));
    assert (set i | 0 <= i < |rows| :: SetPairs(rows)[i].0) == set i | 0 <= i < |rows| :: rows[i].setCode;
    m
  }
}
