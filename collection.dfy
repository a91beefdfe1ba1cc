/** `CollectionViewModel`: the rarity filter and the five sort orders of the collection screen,
    and the state updates that re-sort the list, set the search query and clear the error.
    `sortedBy`/`sortedByDescending` are stable sorts; here an insertion sort stands for them and is
    proved sorted, a permutation of its input and stable. */
module CollectionViewModel {
  import opened Wrappers
  import opened Text
  import opened ScannedCards
  import opened Filtering

  datatype SortOption = NAME | SET | RARITY | PRICE | DATE_ADDED {
    function DisplayName(): string {
      match this
      case NAME => "Name"
      case SET => "Set"
      case RARITY => "Rarity"
      case PRICE => "Price"
      case DATE_ADDED => "Recently Added"
    }
  }

  /** Every sort option shows its own label in the menu. */
  lemma DisplayNamesDistinct(a: SortOption, b: SortOption)
    ensures a != b ==> a.DisplayName() != b.DisplayName()
    ensures NAME.DisplayName() == "Name" && DATE_ADDED.DisplayName() == "Recently Added"
  {
  }

  datatype CollectionUiState = CollectionUiState(
    cards: seq<ScannedCard>, totalValue: real, totalCards: int,
    rarityDistribution: map<string, int>, topSets: map<string, int>,
    isLoading: bool, errorMessage: Option<string>, searchQuery: string,
    selectedSortOption: SortOption, selectedRarityFilter: Option<string>)

  /** The defaults of `CollectionUiState()`. */
  const InitialState: CollectionUiState :=
    CollectionUiState([], 0.0, 0, map[], map[], false, None, "", NAME, None)

  // String order

  /** `String.compareTo(other) < 0`: lexicographic order on characters. */
  predicate StrLess(a: string, b: string) {
    if a == [] then b != []
    else if b == [] then false
    else a[0] < b[0] || (a[0] == b[0] && StrLess(a[1..], b[1..]))
  }

  lemma {:induction false} StrLessIrreflexive(a: string)
    ensures !StrLess(a, a)
  {
    if a != [] {
      StrLessIrreflexive(a[1..]);
    }
  }

  lemma {:induction false} StrLessTransitive(a: string, b: string, c: string)
    requires StrLess(a, b) && StrLess(b, c)
    ensures StrLess(a, c)
  {
    if a != [] && b != [] && c != [] && a[0] == b[0] && b[0] == c[0] {
      StrLessTransitive(a[1..], b[1..], c[1..]);
    }
  }

  lemma {:induction false} StrLessTotal(a: string, b: string)
    requires a != b
    ensures StrLess(a, b) || StrLess(b, a)
  {
    if a != [] && b != [] && a[0] == b[0] {
      assert a == [a[0]] + a[1..] && b == [b[0]] + b[1..];
      StrLessTotal(a[1..], b[1..]);
    }
  }

  // Sort keys

  /** The rank `RARITY` sorts by: common 1, uncommon 2, rare 3, mythic 4, anything else 5,
      ignoring case. */
  function RarityRank(rarity: string): (rank: int)
    ensures 1 <= rank <= 5
    ensures rank == 5 <==> Lower(rarity) !in {"common", "uncommon", "rare", "mythic"}
  {
    var r := Lower(rarity);
    if r == "common" then 1
    else if r == "uncommon" then 2
    else if r == "rare" then 3
    else if r == "mythic" then 4
    else 5
  }

  datatype SortKey = Text(s: string) | Number(n: real)

  /** The key a sort option compares by. */
  function KeyOf(option: SortOption, card: ScannedCard): SortKey {
    match option
    case NAME => Text(card.name)
    case SET => Text(card.setName)
    case RARITY => Number(RarityRank(card.rarity) as real)
    case PRICE => Number(card.price)
    case DATE_ADDED => Text(card.id)
  }

  predicate Descending(option: SortOption) { option == PRICE || option == DATE_ADDED }

  predicate KeyBelow(k: SortKey, l: SortKey) {
    match (k, l)
    case (Text(a), Text(b)) => StrLess(a, b)
    case (Number(a), Number(b)) => a < b
    case _ => false
  }

  /** `a` goes strictly before `b` under the option. */
  predicate KeyLess(option: SortOption, a: ScannedCard, b: ScannedCard) {
    if Descending(option) then KeyBelow(KeyOf(option, b), KeyOf(option, a))
    else KeyBelow(KeyOf(option, a), KeyOf(option, b))
  }

  /** `KeyLess` is a strict order whose incomparable elements are exactly those with equal keys. */
  lemma KeyLessOrder(option: SortOption, a: ScannedCard, b: ScannedCard, c: ScannedCard)
    ensures !KeyLess(option, a, a)
    ensures KeyLess(option, a, b) && KeyLess(option, b, c) ==> KeyLess(option, a, c)
    ensures KeyOf(option, a) != KeyOf(option, b) <==> KeyLess(option, a, b) || KeyLess(option, b, a)
  {
    match option
    case NAME =>
      StrLessIrreflexive(a.name);
      if StrLess(a.name, b.name) && StrLess(b.name, c.name) { StrLessTransitive(a.name, b.name, c.name); }
      if a.name != b.name { StrLessTotal(a.name, b.name); } else { StrLessIrreflexive(b.name); }
    case SET =>
      StrLessIrreflexive(a.setName);
      if StrLess(a.setName, b.setName) && StrLess(b.setName, c.setName) { StrLessTransitive(a.setName, b.setName, c.setName); }
      if a.setName != b.setName { StrLessTotal(a.setName, b.setName); } else { StrLessIrreflexive(b.setName); }
    case DATE_ADDED =>
      StrLessIrreflexive(a.id);
      if StrLess(c.id, b.id) && StrLess(b.id, a.id) { StrLessTransitive(c.id, b.id, a.id); }
      if a.id != b.id { StrLessTotal(a.id, b.id); } else { StrLessIrreflexive(b.id); }
    case RARITY =>
    case PRICE =>
  }

  /** Consequence used by the sort: anything before `b` is before everything not before `b`. */
  lemma KeyLessBeforeAll(option: SortOption, a: ScannedCard, b: ScannedCard, c: ScannedCard)
    requires KeyLess(option, a, b) && !KeyLess(option, c, b)
    ensures KeyLess(option, a, c) && KeyOf(option, a) != KeyOf(option, c)
  {
    KeyLessOrder(option, b, c, c);
    KeyLessOrder(option, a, b, c);
    KeyLessOrder(option, a, c, c);
    if KeyOf(option, b) != KeyOf(option, c) {
      assert KeyLess(option, b, c);
    } else {
      KeyLessOrder(option, a, b, b);
      KeyLessOrder(option, b, a, b);
      KeyLessOrder(option, a, c, b);
      KeyLessOrder(option, c, a, c);
      if !KeyLess(option, a, c) {
        KeyLessOrder(option, c, a, b);
      }
    }
  }

  /** No element is followed by one that sorts strictly before it. */
  predicate Sorted(option: SortOption, cards: seq<ScannedCard>) {
    forall i, j :: 0 <= i < j < |cards| ==> !KeyLess(option, cards[j], cards[i])
  }

  /** What the sort orders mean for the card fields. */
  lemma SortedMeaning(option: SortOption, cards: seq<ScannedCard>, i: nat, j: nat)
    requires Sorted(option, cards) && i < j < |cards|
    ensures option == NAME ==> !StrLess(cards[j].name, cards[i].name)
    ensures option == SET ==> !StrLess(cards[j].setName, cards[i].setName)
    ensures option == RARITY ==> RarityRank(cards[i].rarity) <= RarityRank(cards[j].rarity)
    ensures option == PRICE ==> cards[i].price >= cards[j].price
    ensures option == DATE_ADDED ==> !StrLess(cards[i].id, cards[j].id)
  {
    assert !KeyLess(option, cards[j], cards[i]);
  }

  // The stable sort

  /** Inserts `x` after every element it does not sort strictly before. */
  function Insert(option: SortOption, sorted: seq<ScannedCard>, x: ScannedCard): (r: seq<ScannedCard>)
    ensures multiset(r) == multiset(sorted) + multiset{x}
    ensures |r| == |sorted| + 1
  {
    if sorted == [] then [x]
    else if KeyLess(option, x, sorted[0]) then [x] + sorted
    else
      assert sorted == [sorted[0]] + sorted[1..];
      [sorted[0]] + Insert(option, sorted[1..], x)
  }

  function SortCards(option: SortOption, cards: seq<ScannedCard>): (r: seq<ScannedCard>)
    ensures multiset(r) == multiset(cards)
    ensures |r| == |cards|
  {
    if cards == [] then []
    else
      assert cards == cards[..|cards| - 1] + [cards[|cards| - 1]];
      Insert(option, SortCards(option, cards[..|cards| - 1]), cards[|cards| - 1])
  }

  lemma {:induction false} InsertSorted(option: SortOption, sorted: seq<ScannedCard>, x: ScannedCard)
    requires Sorted(option, sorted)
    ensures Sorted(option, Insert(option, sorted, x))
  {
    if sorted == [] {
    } else if KeyLess(option, x, sorted[0]) {
      InsertSortedFront(option, sorted, x);
    } else {
      assert Sorted(option, sorted[1..]);
      InsertSorted(option, sorted[1..], x);
      InsertSortedBehind(option, sorted, x, Insert(option, sorted[1..], x));
    }
  }

  /** `x` put in front of a sorted list it sorts before keeps it sorted. */
  lemma InsertSortedFront(option: SortOption, sorted: seq<ScannedCard>, x: ScannedCard)
    requires Sorted(option, sorted) && sorted != [] && KeyLess(option, x, sorted[0])
    ensures Sorted(option, [x] + sorted)
  {
    var r := [x] + sorted;
    forall i, j | 0 <= i < j < |r| ensures !KeyLess(option, r[j], r[i]) {
      if i == 0 {
        if j > 1 {
          KeyLessBeforeAll(option, x, sorted[0], sorted[j - 1]);
        }
        KeyLessOrder(option, x, r[j], x);
      } else {
        assert r[i] == sorted[i - 1] && r[j] == sorted[j - 1];
      }
    }
  }

  /** The head of a sorted list stays in front of the rest with `x` inserted. */
  lemma InsertSortedBehind(option: SortOption, sorted: seq<ScannedCard>, x: ScannedCard, rest: seq<ScannedCard>)
    requires Sorted(option, sorted) && sorted != [] && !KeyLess(option, x, sorted[0])
    requires Sorted(option, rest) && multiset(rest) == multiset(sorted[1..]) + multiset{x}
    ensures Sorted(option, [sorted[0]] + rest)
  {
    var r := [sorted[0]] + rest;
    forall i, j | 0 <= i < j < |r| ensures !KeyLess(option, r[j], r[i]) {
      if i == 0 {
        assert r[j] == rest[j - 1];
        assert r[j] in multiset(rest);
        assert r[j] in multiset(sorted[1..]) || r[j] == x;
        if r[j] != x {
          var k :| 0 <= k < |sorted[1..]| && sorted[1..][k] == r[j];
          assert sorted[k + 1] == r[j];
        }
      } else {
        assert r[i] == rest[i - 1] && r[j] == rest[j - 1];
      }
    }
  }

  /** The sort's output is ordered. */
  lemma {:induction false} SortCardsSorted(option: SortOption, cards: seq<ScannedCard>)
    ensures Sorted(option, SortCards(option, cards))
  {
    if cards != [] {
      SortCardsSorted(option, cards[..|cards| - 1]);
      InsertSorted(option, SortCards(option, cards[..|cards| - 1]), cards[|cards| - 1]);
    }
  }

  function KeyIs(option: SortOption, key: SortKey): ScannedCard -> bool {
    c => KeyOf(option, c) == key
  }

  /** The cards whose key equals `key`, in order. */
  function WithKey(option: SortOption, key: SortKey, cards: seq<ScannedCard>): seq<ScannedCard> {
    Filter(KeyIs(option, key), cards)
  }

  /** When `x` goes before the head of a sorted list, no element of the list shares its key. */
  lemma KeyAbsentAfter(option: SortOption, sorted: seq<ScannedCard>, x: ScannedCard)
    requires Sorted(option, sorted) && sorted != [] && KeyLess(option, x, sorted[0])
    ensures WithKey(option, KeyOf(option, x), sorted) == []
  {
    forall i | 0 <= i < |sorted| ensures !KeyIs(option, KeyOf(option, x))(sorted[i]) {
      if i == 0 {
        KeyLessOrder(option, x, sorted[0], sorted[0]);
      } else {
        KeyLessBeforeAll(option, x, sorted[0], sorted[i]);
      }
    }
    FilterNone(KeyIs(option, KeyOf(option, x)), sorted);
  }

  lemma {:induction false} InsertStable(option: SortOption, key: SortKey, sorted: seq<ScannedCard>, x: ScannedCard)
    requires Sorted(option, sorted)
    ensures WithKey(option, key, Insert(option, sorted, x))
         == WithKey(option, key, sorted) + WithKey(option, key, [x])
  {
    if sorted == [] {
    } else if KeyLess(option, x, sorted[0]) {
      InsertStableFront(option, key, sorted, x);
    } else {
      assert Sorted(option, sorted[1..]);
      InsertStable(option, key, sorted[1..], x);
      assert Insert(option, sorted, x) == [sorted[0]] + Insert(option, sorted[1..], x);
      ConsStable(KeyIs(option, key), sorted[0], Insert(option, sorted[1..], x), sorted[1..], WithKey(option, key, [x]));
      assert [sorted[0]] + sorted[1..] == sorted;
    }
  }

  lemma InsertStableFront(option: SortOption, key: SortKey, sorted: seq<ScannedCard>, x: ScannedCard)
    requires Sorted(option, sorted) && sorted != [] && KeyLess(option, x, sorted[0])
    ensures WithKey(option, key, Insert(option, sorted, x))
         == WithKey(option, key, sorted) + WithKey(option, key, [x])
  {
    assert Insert(option, sorted, x) == [x] + sorted;
    FilterAppend(KeyIs(option, key), [x], sorted);
    if KeyOf(option, x) == key {
      KeyAbsentAfter(option, sorted, x);
      assert WithKey(option, key, sorted) == [];
    } else {
      assert WithKey(option, key, [x]) == [];
    }
  }

  /** The sort takes the last card and inserts it into the sorted rest. */
  lemma SortCardsSnoc(option: SortOption, init: seq<ScannedCard>, last: ScannedCard)
    ensures SortCards(option, init + [last]) == Insert(option, SortCards(option, init), last)
  {
    var cards := init + [last];
    assert cards[..|cards| - 1] == init && cards[|cards| - 1] == last;
  }

  /** The sort is stable: the cards of any one key keep their relative order. */
  lemma {:induction false} SortCardsStable(option: SortOption, key: SortKey, cards: seq<ScannedCard>)
    ensures WithKey(option, key, SortCards(option, cards)) == WithKey(option, key, cards)
  {
    if cards != [] {
      var init, last := cards[..|cards| - 1], cards[|cards| - 1];
      assert cards == init + [last];
      SortCardsSnoc(option, init, last);
      SortCardsStable(option, key, init);
      SortCardsSorted(option, init);
      InsertStable(option, key, SortCards(option, init), last);
      FilterAppend(KeyIs(option, key), init, [last]);
    }
  }

  lemma {:induction false} InsertAfterAll(option: SortOption, sorted: seq<ScannedCard>, x: ScannedCard)
    requires forall i :: 0 <= i < |sorted| ==> !KeyLess(option, x, sorted[i])
    ensures Insert(option, sorted, x) == sorted + [x]
  {
    if sorted != [] {
      InsertAfterAll(option, sorted[1..], x);
      assert sorted == [sorted[0]] + sorted[1..];
    }
  }

  /** A sorted list's prefix is sorted, and its last card sorts before none of the prefix. */
  lemma SortedInit(option: SortOption, init: seq<ScannedCard>, last: ScannedCard)
    requires Sorted(option, init + [last])
    ensures Sorted(option, init)
    ensures forall i :: 0 <= i < |init| ==> !KeyLess(option, last, init[i])
  {
    var cards := init + [last];
    assert forall i :: 0 <= i < |init| ==> cards[i] == init[i];
    assert cards[|init|] == last;
  }

  /** Sorting an already sorted list leaves it as it is. */
  lemma {:induction false} SortCardsOfSorted(option: SortOption, cards: seq<ScannedCard>)
    requires Sorted(option, cards)
    ensures SortCards(option, cards) == cards
  {
    if cards != [] {
      var init, last := cards[..|cards| - 1], cards[|cards| - 1];
      assert init + [last] == cards;
      SortedInit(option, init, last);
      SortCardsOfSorted(option, init);
      InsertAfterAll(option, init, last);
    }
  }

  // Filtering

  function HasRarity(rarity: string): ScannedCard -> bool {
    (c: ScannedCard) => EqualsIgnoreCase(c.rarity, rarity)
  }

  /** The rarity filter: with a filter, exactly the cards of that rarity ignoring case, each as
      often as it occurs, in order (`filter`). */
  function FilterRarity(cards: seq<ScannedCard>, rarity: Option<string>): (r: seq<ScannedCard>)
    ensures rarity.None? ==> r == cards
    ensures rarity.Some? ==> forall c :: c in r <==> c in cards && EqualsIgnoreCase(c.rarity, rarity.value)
    ensures rarity.Some? ==> forall c ::
      multiset(r)[c] == if EqualsIgnoreCase(c.rarity, rarity.value) then multiset(cards)[c] else 0
    ensures multiset(r) <= multiset(cards)
  {
    if rarity.None? then cards
    else
      var r := Filter(HasRarity(rarity.value), cards);
      FilterMembers(HasRarity(rarity.value), cards);
      forall c ensures multiset(r)[c] == if EqualsIgnoreCase(c.rarity, rarity.value) then multiset(cards)[c] else 0 {
        FilterCount(HasRarity(rarity.value), cards, c);
      }
      r
  }

  /** Filtering by rarity goes card by card: it distributes over concatenation and keeps a single
      card exactly when it has the selected rarity, so the kept cards stay in their input order. */
  lemma FilterRarityAppend(a: seq<ScannedCard>, b: seq<ScannedCard>, card: ScannedCard, rarity: Option<string>)
    ensures FilterRarity(a + b, rarity) == FilterRarity(a, rarity) + FilterRarity(b, rarity)
    ensures FilterRarity([card], rarity)
         == if rarity.None? || EqualsIgnoreCase(card.rarity, rarity.value) then [card] else []
  {
    if rarity.Some? {
      FilterAppend(HasRarity(rarity.value), a, b);
      FilterCons(HasRarity(rarity.value), card, []);
      assert [card] + [] == [card];
    }
  }

  lemma {:induction false} FilterRarityIdempotent(cards: seq<ScannedCard>, rarity: Option<string>)
    ensures FilterRarity(FilterRarity(cards, rarity), rarity) == FilterRarity(cards, rarity)
  {
    var once := FilterRarity(cards, rarity);
    assert rarity.Some? ==> forall i :: 0 <= i < |once| ==> EqualsIgnoreCase(once[i].rarity, rarity.value) by {
      if rarity.Some? {
        forall i | 0 <= i < |once| ensures EqualsIgnoreCase(once[i].rarity, rarity.value) {
          assert once[i] in once;
        }
      }
    }
    FilterOfSortedFiltered(once, rarity);
  }

  /** `applyFiltersAndSorting` with the state's filter and sort option. */
  function ApplyFiltersAndSorting(cards: seq<ScannedCard>, rarityFilter: Option<string>, option: SortOption)
    : (r: seq<ScannedCard>)
    ensures multiset(r) == multiset(FilterRarity(cards, rarityFilter)) && multiset(r) <= multiset(cards)
    ensures rarityFilter.Some? ==> forall c :: c in r ==> EqualsIgnoreCase(c.rarity, rarityFilter.value)
    ensures rarityFilter.None? ==> multiset(r) == multiset(cards)
  {
    var r := SortCards(option, FilterRarity(cards, rarityFilter));
    assert forall c :: c in r <==> c in multiset(r);
    r
  }

  /** The result is ordered, and cards with equal keys stay in their input order. */
  lemma ApplyFiltersAndSortingOrdered(cards: seq<ScannedCard>, rarityFilter: Option<string>,
                                      option: SortOption, key: SortKey)
    ensures Sorted(option, ApplyFiltersAndSorting(cards, rarityFilter, option))
    ensures WithKey(option, key, ApplyFiltersAndSorting(cards, rarityFilter, option))
         == WithKey(option, key, FilterRarity(cards, rarityFilter))
  {
    SortCardsSorted(option, FilterRarity(cards, rarityFilter));
    SortCardsStable(option, key, FilterRarity(cards, rarityFilter));
  }

  /** Applying filter and sort to an already filtered and sorted list changes nothing. */
  lemma ApplyFiltersAndSortingIdempotent(cards: seq<ScannedCard>, rarityFilter: Option<string>, option: SortOption)
    ensures var once := ApplyFiltersAndSorting(cards, rarityFilter, option);
      ApplyFiltersAndSorting(once, rarityFilter, option) == once
  {
    var once := ApplyFiltersAndSorting(cards, rarityFilter, option);
    ApplyFiltersAndSortingOrdered(cards, rarityFilter, option, Text(""));
    assert rarityFilter.Some? ==> forall i :: 0 <= i < |once| ==> EqualsIgnoreCase(once[i].rarity, rarityFilter.value) by {
      if rarityFilter.Some? {
        forall i | 0 <= i < |once| ensures EqualsIgnoreCase(once[i].rarity, rarityFilter.value) {
          assert once[i] in once;
        }
      }
    }
    FilterOfSortedFiltered(once, rarityFilter);
    SortCardsOfSorted(option, once);
  }

  lemma FilterOfSortedFiltered(cards: seq<ScannedCard>, rarity: Option<string>)
    requires rarity.Some? ==> forall i :: 0 <= i < |cards| ==> EqualsIgnoreCase(cards[i].rarity, rarity.value)
    ensures FilterRarity(cards, rarity) == cards
  {
    if rarity.Some? {
      FilterAll(HasRarity(rarity.value), cards);
    }
  }

  /** The collection screen's state holder. */
  class CollectionScreenModel {
    var uiState: CollectionUiState

    constructor ()
      ensures uiState == InitialState
    {
      uiState := InitialState;
    }

    /** `updateSortOption`: records the option and re-applies filter and sort to the shown cards. */
    method UpdateSortOption(sortOption: SortOption)
      modifies this
      ensures uiState == old(uiState).(selectedSortOption := sortOption,
        cards := ApplyFiltersAndSorting(old(uiState).cards, old(uiState).selectedRarityFilter, sortOption))
      ensures multiset(uiState.cards) <= multiset(old(uiState).cards)
      ensures Sorted(sortOption, uiState.cards)
    {
      uiState := uiState.(selectedSortOption := sortOption);
      var sortedCards := ApplyFiltersAndSorting(uiState.cards, uiState.selectedRarityFilter, uiState.selectedSortOption);
      uiState := uiState.(cards := sortedCards);
      ApplyFiltersAndSortingOrdered(old(uiState).cards, old(uiState).selectedRarityFilter, sortOption, Text(""));
    }

    /** `clearError`. */
    method ClearError()
      modifies this
      ensures uiState == old(uiState).(errorMessage := None)
    {
      uiState := uiState.(errorMessage := None);
    }

    /** `updateSearchQuery`, up to the reload it starts. */
    method UpdateSearchQuery(query: string)
      modifies this
      ensures uiState == old(uiState).(searchQuery := query)
    {
      uiState := uiState.(searchQuery := query);
    }
  }
}
