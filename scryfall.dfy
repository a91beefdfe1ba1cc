/** `ScryfallRepository`: resolving parsed card hints against the Scryfall API, the rate gate
    in front of every request, and the `ScryfallQueryBuilder` helpers. The two HTTP endpoints are
    oracles returning a status code and body, or an exception. */
module ScryfallRepository {
  import opened Wrappers
  import opened Text
  import opened ScryfallCards
  import opened TextRecognition
  import Filtering

  /** A Retrofit response (status code and body), or an exception thrown by the call. */
  datatype Response<T> = Response(code: int, body: Option<T>) | Thrown(message: string) {
    predicate IsSuccessful() { Response? && 200 <= code <= 299 }
  }

  datatype SearchResult = SearchResult(totalCards: int, hasMore: bool, data: seq<ScryfallCard>)

  /** The two endpoints the repository calls: `cards/{set}/{collector_number}` and `cards/search?q=`. */
  datatype ScryfallApi = ScryfallApi(
    getCardByCollectorNumber: (string, string) -> Response<ScryfallCard>,
    searchCards: string -> Response<SearchResult>)

  /** `isNullOrBlank()`. */
  predicate IsNullOrBlank(s: Option<string>) { s.None? || IsBlank(s.value) }

  /** `getCardByCollectorNumber`: the body of a 2xx response, else a failure. */
  function GetCardByCollectorNumber(api: ScryfallApi, setCode: string, collectorNumber: string)
    : (r: Result<Option<ScryfallCard>>)
    ensures r.Success? <==> api.getCardByCollectorNumber(setCode, collectorNumber).IsSuccessful()
    // a 2xx response gives its body, whatever it is
    ensures r.Success? ==> r.value == api.getCardByCollectorNumber(setCode, collectorNumber).body
    // any other status fails with the code in the message; an exception fails with its message
    ensures var resp := api.getCardByCollectorNumber(setCode, collectorNumber);
      resp.Response? && !resp.IsSuccessful() ==> r == Failure("Card not found: " + IntToString(resp.code))
    ensures var resp := api.getCardByCollectorNumber(setCode, collectorNumber);
      resp.Thrown? ==> r == Failure(resp.message)
  {
    match api.getCardByCollectorNumber(setCode, collectorNumber)
    case Response(code, body) =>
      if 200 <= code <= 299 then Success(body) else Failure("Card not found: " + IntToString(code))
    case Thrown(message) => Failure(message)
  }

  /** `searchCardByName`: the first card of a 2xx search for the exact name, else a failure. */
  function SearchCardByName(api: ScryfallApi, name: string): (r: Result<Option<ScryfallCard>>)
    ensures r.Success? <==> api.searchCards(ExactName(name)).IsSuccessful()
    // a 2xx search gives the first card found, or none when the body is missing or empty
    ensures r.Success? ==>
      var b := api.searchCards(ExactName(name)).body;
      r.value == (if b.Some? && b.value.data != [] then Some(b.value.data[0]) else None)
    ensures var resp := api.searchCards(ExactName(name));
      resp.Response? && !resp.IsSuccessful() ==> r == Failure("Search failed: " + IntToString(resp.code))
    ensures var resp := api.searchCards(ExactName(name));
      resp.Thrown? ==> r == Failure(resp.message)
  {
    match api.searchCards("!\"" + name + "\"")
    case Response(code, body) =>
      if 200 <= code <= 299 then
        Success(if body.Some? && body.value.data != [] then Some(body.value.data[0]) else None)
      else Failure("Search failed: " + IntToString(code))
    case Thrown(message) => Failure(message)
  }

  /** The card the set + collector number lookup yields: only tried when both are non-blank,
      and a failed request yields nothing. */
  function LookupCard(info: CardTextInfo, api: ScryfallApi): (card: Option<ScryfallCard>)
    ensures card.Some? ==> !IsNullOrBlank(info.setCode) && !IsNullOrBlank(info.collectorNumber)
    ensures card.Some? ==>
      GetCardByCollectorNumber(api, info.setCode.value, info.collectorNumber.value) == Success(card)
  {
    if !IsNullOrBlank(info.setCode) && !IsNullOrBlank(info.collectorNumber) then
      match GetCardByCollectorNumber(api, info.setCode.value, info.collectorNumber.value)
      case Success(c) => c
      case Failure(_) => None
    else None
  }

  /** The card the exact-name search yields: only tried for a non-blank name. */
  function NameCard(info: CardTextInfo, api: ScryfallApi): (card: Option<ScryfallCard>)
    ensures card.Some? ==> !IsNullOrBlank(info.cardName)
    ensures card.Some? ==> SearchCardByName(api, info.cardName.value) == Success(card)
  {
    if !IsNullOrBlank(info.cardName) then
      match SearchCardByName(api, info.cardName.value)
      case Success(c) => c
      case Failure(_) => None
    else None
  }

  /** `identifyCard`: set + collector number first, then the exact name, else success(null).
      Failed requests are absorbed, so the result is always a success. Both lookups go through
      `withRateLimit` (ScryfallRepository.kt:55, 77); the gate itself is `RateLimiter` below, and
      `StampsSpaced` is its guarantee for any sequence of requests. */
  function IdentifyCard(info: CardTextInfo, api: ScryfallApi): (r: Result<Option<ScryfallCard>>)
    ensures r.Success?
    ensures LookupCard(info, api).Some? ==> r.value == LookupCard(info, api)
    ensures LookupCard(info, api).None? ==> r.value == NameCard(info, api)
    ensures r.value.None? <==> LookupCard(info, api).None? && NameCard(info, api).None?
  {
    if !IsNullOrBlank(info.setCode) && !IsNullOrBlank(info.collectorNumber)
       && GetCardByCollectorNumber(api, info.setCode.value, info.collectorNumber.value).GetOrNull().GetOr(None).Some?
    then Success(GetCardByCollectorNumber(api, info.setCode.value, info.collectorNumber.value).value)
    else if !IsNullOrBlank(info.cardName)
       && SearchCardByName(api, info.cardName.value).GetOrNull().GetOr(None).Some?
    then Success(SearchCardByName(api, info.cardName.value).value)
    else Success(None)
  }

  /** A card found by set + collector number is returned without any name search: the search
      endpoint's behaviour does not matter. */
  lemma LookupHitSkipsSearch(info: CardTextInfo, api: ScryfallApi, other: ScryfallApi)
    requires LookupCard(info, api).Some?
    requires other.getCardByCollectorNumber == api.getCardByCollectorNumber
    ensures IdentifyCard(info, other) == IdentifyCard(info, api)
  {
  }

  /** A failed lookup (error status or exception) falls through to the name search. */
  lemma FailedLookupFallsThrough(info: CardTextInfo, api: ScryfallApi)
    requires !IsNullOrBlank(info.setCode) && !IsNullOrBlank(info.collectorNumber)
    requires !api.getCardByCollectorNumber(info.setCode.value, info.collectorNumber.value).IsSuccessful()
    ensures IdentifyCard(info, api) == Success(NameCard(info, api))
  {
  }

  /** Without both set code and collector number the lookup endpoint is never consulted. */
  lemma NoLookupWithoutBothCodes(info: CardTextInfo, api: ScryfallApi, other: ScryfallApi)
    requires IsNullOrBlank(info.setCode) || IsNullOrBlank(info.collectorNumber)
    requires other.searchCards == api.searchCards
    ensures IdentifyCard(info, other) == IdentifyCard(info, api)
  {
  }

  /** The search endpoint is consulted only with the query `!"<name>"`, and only for a non-blank name. */
  lemma SearchOnlyForExactName(info: CardTextInfo, api: ScryfallApi, other: ScryfallApi)
    requires other.getCardByCollectorNumber == api.getCardByCollectorNumber
    requires IsNullOrBlank(info.cardName) ||
      other.searchCards(ExactName(info.cardName.value)) == api.searchCards(ExactName(info.cardName.value))
    ensures IdentifyCard(info, other) == IdentifyCard(info, api)
  {
  }

  /** `identifyCards`: one entry per hint, in order, null wherever nothing was identified. */
  method IdentifyCards(infos: seq<CardTextInfo>, api: ScryfallApi)
    returns (result: Result<seq<Option<ScryfallCard>>>)
    ensures result.Success? && |result.value| == |infos|
    ensures forall i :: 0 <= i < |infos| ==> result.value[i] == IdentifyCard(infos[i], api).GetOrNull().GetOr(None)
    ensures forall i :: 0 <= i < |infos| ==>
      (result.value[i].None? <==> LookupCard(infos[i], api).None? && NameCard(infos[i], api).None?)
  {
    var results: seq<Option<ScryfallCard>> := [];
    for i := 0 to |infos|
      invariant |results| == i
      invariant forall j :: 0 <= j < i ==> results[j] == IdentifyCard(infos[j], api).GetOrNull().GetOr(None)
    {
      var r := IdentifyCard(infos[i], api);
      results := results + [r.GetOrNull().GetOr(None)];
    }
    return Success(results);
  }

  /** `ScryfallApiService.RATE_LIMIT_MS`. */
  const RATE_LIMIT_MS: int := 100

  /** How long `withRateLimit` sleeps when the previous request started `gap` ms ago. */
  function DelayFor(gap: int): (wait: int)
    ensures wait >= 0 && gap + wait >= RATE_LIMIT_MS
    ensures wait > 0 <==> gap < RATE_LIMIT_MS
  {
    if gap < RATE_LIMIT_MS then RATE_LIMIT_MS - gap else 0
  }

  /** The timestamp `withRateLimit` records: the clock read after the delay, which is `now + wait`
      plus however much later the clock reads (`lag`); a clock that steps back is not modelled. */
  function NextStamp(last: int, now: int, lag: nat): (stamp: int)
    ensures stamp >= last + RATE_LIMIT_MS
  {
    now + DelayFor(now - last) + lag
  }

  /** The gate in front of every request: `lastRequestTime` and the delay decision (the mutex
      that serialises callers is not modelled; calls are sequential). */
  class RateLimiter {
    var lastRequestTime: int

    constructor ()
      ensures lastRequestTime == 0
    {
      lastRequestTime := 0;
    }

    /** `withRateLimit` up to running the block: read the clock (`now`), sleep if the previous
        request started less than 100 ms ago, then record the clock read after the sleep. */
    method WithRateLimit(now: int, lag: nat) returns (waited: int)
      modifies this
      ensures waited == DelayFor(now - old(lastRequestTime))
      ensures lastRequestTime == NextStamp(old(lastRequestTime), now, lag)
      ensures lastRequestTime >= old(lastRequestTime) + RATE_LIMIT_MS
    {
      var currentTime := now;
      var timeSinceLastRequest := currentTime - lastRequestTime;
      waited := 0;
      if timeSinceLastRequest < RATE_LIMIT_MS {
        waited := RATE_LIMIT_MS - timeSinceLastRequest;
      }
      lastRequestTime := currentTime + waited + lag;
    }
  }

  /** The timestamps recorded by a run of gated requests, each given as (clock reading, lag). */
  function Stamps(last: int, calls: seq<(int, nat)>): (stamps: seq<int>)
    ensures |stamps| == |calls|
    decreases |calls|
  {
    if calls == [] then []
    else
      var stamp := NextStamp(last, calls[0].0, calls[0].1);
      [stamp] + Stamps(stamp, calls[1..])
  }

  /** Successive requests start at least 100 ms apart, for a clock that does not run backwards
      while the gate sleeps (each `lag` is a `nat`). */
  lemma {:induction false} StampsSpaced(last: int, calls: seq<(int, nat)>)
    ensures var s := Stamps(last, calls);
      && (|s| > 0 ==> s[0] >= last + RATE_LIMIT_MS)
      && forall i :: 0 <= i < |s| - 1 ==> s[i + 1] >= s[i] + RATE_LIMIT_MS
    decreases |calls|
  {
    if calls != [] {
      var stamp := NextStamp(last, calls[0].0, calls[0].1);
      StampsSpaced(stamp, calls[1..]);
    }
  }

  // ScryfallQueryBuilder

  /** `exactName`. */
  function ExactName(name: string): (q: string)
    ensures |q| == |name| + 3 && q[..2] == "!\"" && q[2..|q| - 1] == name && q[|q| - 1] == '"'
  {
    "!\"" + name + "\""
  }

  /** Reads the name back out of an exact-name query. */
  function UnquoteExactName(q: string): Option<string> {
    if |q| >= 3 && q[..2] == "!\"" && q[|q| - 1] == '"' then Some(q[2..|q| - 1]) else None
  }

  lemma ExactNameRoundTrip(name: string)
    ensures UnquoteExactName(ExactName(name)) == Some(name)
  {
  }

  /** A `key:value` search filter. */
  function Filter(key: string, value: string): string { key + ":" + value }

  /** Splits a filter at its first colon. */
  function SplitFilter(q: string): Option<(string, string)> {
    if ':' !in q then None
    else
      var i := FirstIndex(q, ':');
      Some((q[..i], q[i + 1..]))
  }

  /** A filter whose key has no colon splits back into its key and value. */
  lemma {:induction false} FilterRoundTrip(key: string, value: string)
    requires ':' !in key
    ensures SplitFilter(Filter(key, value)) == Some((key, value))
  {
    var q := Filter(key, value);
    assert q[|key|] == ':';
    var i := FirstIndex(q, ':');
    assert q[..|key|] == key;
    assert i == |key|;
    assert q[i + 1..] == value;
  }

  function NameAndSet(name: string, setCode: string): string { ExactName(name) + " " + Filter("set", setCode) }
  function CollectorNumberAndSet(collectorNumber: string, setCode: string): string {
    Filter("cn", collectorNumber) + " " + Filter("set", setCode)
  }
  function RarityQuery(rarity: string): string { Filter("rarity", rarity) }
  function ColorsQuery(colors: seq<string>): string { Filter("c", Join(colors, "")) }
  function ManaValueQuery(value: int): string { Filter("mv", IntToString(value)) }
  function TypeQuery(t: string): string { Filter("t", t) }
  function FormatQuery(format: string): string { Filter("f", format) }

  /** The builders produce the literal query syntax of the source. */
  lemma BuilderShapes(name: string, setCode: string, collectorNumber: string, value: string,
                      colors: seq<string>, manaValue: int)
    ensures CollectorNumberAndSet(collectorNumber, setCode) == "cn:" + collectorNumber + " set:" + setCode
    ensures NameAndSet(name, setCode) == "!\"" + name + "\" set:" + setCode
    ensures RarityQuery(value) == "rarity:" + value
    ensures TypeQuery(value) == "t:" + value
    ensures FormatQuery(value) == "f:" + value
    ensures ColorsQuery(colors) == "c:" + Join(colors, "")
    ensures ManaValueQuery(manaValue) == "mv:" + IntToString(manaValue)
  {
  }

  /** The colour letters follow "c:" one after another, with no separator. */
  lemma ColorsQueryJoins(colors: seq<string>)
    ensures ColorsQuery(colors) == "c:" + Concat(colors)
  {
    JoinNoSeparator(colors);
  }

  /** Each single-filter builder's value can be read back from its query. */
  lemma FilterBuildersRoundTrip(value: string, manaValue: int)
    ensures SplitFilter(RarityQuery(value)) == Some(("rarity", value))
    ensures SplitFilter(TypeQuery(value)) == Some(("t", value))
    ensures SplitFilter(FormatQuery(value)) == Some(("f", value))
    ensures SplitFilter(ManaValueQuery(manaValue)) == Some(("mv", IntToString(manaValue)))
  {
    FilterRoundTrip("rarity", value);
    FilterRoundTrip("t", value);
    FilterRoundTrip("f", value);
    FilterRoundTrip("mv", IntToString(manaValue));
  }

  predicate NotBlank(q: string) { !IsBlank(q) }

  /** The parts `combine` keeps: the non-blank ones, in order. */
  function NonBlank(queries: seq<string>): (kept: seq<string>)
    ensures forall q :: q in kept <==> q in queries && !IsBlank(q)
    ensures forall q :: multiset(kept)[q] == if IsBlank(q) then 0 else multiset(queries)[q]
  {
    Filtering.FilterMembers(NotBlank, queries);
    forall q ensures multiset(Filtering.Filter(NotBlank, queries))[q] == if IsBlank(q) then 0 else multiset(queries)[q] {
      Filtering.FilterCount(NotBlank, queries, q);
    }
    Filtering.Filter(NotBlank, queries)
  }

  /** `combine`: the non-blank parts joined by single spaces. */
  function Combine(queries: seq<string>): string {
    Join(NonBlank(queries), " ")
  }

  /** The non-blank parts of a list with one more part. */
  lemma NonBlankSnoc(queries: seq<string>, q: string)
    ensures NonBlank(queries + [q]) == NonBlank(queries) + (if IsBlank(q) then [] else [q])
  {
    Filtering.FilterAppend(NotBlank, queries, [q]);
    Filtering.FilterCons(NotBlank, q, []);
    assert [q] + [] == [q];
  }

  /** `combine` built up one part at a time: nothing for no parts, a blank part changes nothing,
      and a non-blank part is appended after a single space (or alone, when it is the first). */
  lemma CombineAppend(queries: seq<string>, q: string)
    ensures Combine([]) == ""
    ensures IsBlank(q) ==> Combine(queries + [q]) == Combine(queries)
    ensures !IsBlank(q) && NonBlank(queries) == [] ==> Combine(queries + [q]) == q
    ensures !IsBlank(q) && NonBlank(queries) != [] ==> Combine(queries + [q]) == Combine(queries) + " " + q
  {
    NonBlankSnoc(queries, q);
    if IsBlank(q) {
      assert NonBlank(queries + [q]) == NonBlank(queries);
    } else if NonBlank(queries) == [] {
      assert NonBlank(queries + [q]) == [q];
    } else {
      JoinSnoc(NonBlank(queries), q, " ");
    }
  }

  /** Blank parts anywhere make no difference: a blank part put in front is dropped too. */
  lemma {:induction false} CombineDropsBlanks(queries: seq<string>, blank: string)
    requires IsBlank(blank)
    ensures Combine([blank] + queries) == Combine(queries)
  {
    Filtering.FilterCons(NotBlank, blank, queries);
    assert !NotBlank(blank);
    assert NonBlank([blank] + queries) == [] + NonBlank(queries) == NonBlank(queries);
  }
}
