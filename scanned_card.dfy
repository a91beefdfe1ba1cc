/** `ScannedCard`: one card of a scanning session, identified or a placeholder. The random UUID
    default of `id` is supplied by the caller. */
module ScannedCards {
  import opened Wrappers
  import opened ScryfallCards

  datatype ScannedCard = ScannedCard(
    id: string, name: string, setName: string, collectorNumber: string, rarity: string,
    price: real, scryfallCard: Option<ScryfallCard>)
}
