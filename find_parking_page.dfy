/**
 * The parking finder (Frontend/Front-end/src/pages/FindParkingPage.jsx): the
 * filter effect that derives the shown lots from the loaded ones, the feature
 * toggle, the city title-casing of the URL query, and the explicit search.
 */
module FindParkingPage {
  import opened Common
  import opened ParkingService

  const AllFeatures: seq<string> :=
    ["EV Charging", "Covered", "24/7 Security", "Mobile Pass", "Valet", "Affordable", "24/7 Access"]

  const DefaultPrice := 100

  // ------------------------------------------------------------ predicates

  /** `lot.name?.toLowerCase().includes(t) || (lot.address || "").toLowerCase().includes(t)`
      with t the lower-cased term. An absent address is "", which contains only "". */
  predicate TextMatches(term: string, lot: ParkingArea) {
    (lot.name.Some? && Contains(ToLower(lot.name.value), ToLower(term)))
    || Contains(ToLower(lot.address.GetOr("")), ToLower(term))
  }

  /** `(lot.amount || 0) <= priceFilter`. */
  predicate WithinPrice(price: int, lot: ParkingArea) {
    lot.amount.GetOr(0) <= price
  }

  /** `featuresFilter.every((f) => (lot.features || []).includes(f))`. */
  predicate HasAllFeatures(features: seq<string>, lot: ParkingArea) {
    forall f :: f in features ==> f in lot.features.GetOr([])
  }

  predicate Kept(term: string, price: int, lot: ParkingArea) {
    TextMatches(term, lot) && WithinPrice(price, lot)
  }

  /** The filter effect: text and price first, then the features when any are selected. */
  function FilterLots(lots: seq<ParkingArea>, term: string, price: int, features: seq<string>): seq<ParkingArea> {
    var results := Filter(lots, lot => Kept(term, price, lot));
    if |features| > 0 then Filter(results, lot => HasAllFeatures(features, lot)) else results
  }

  /** The shown lots are, in their loaded order, exactly the loaded lots that
      match the term by name or address, cost at most the price, and carry
      every selected feature (no constraint when none is selected). */
  lemma FilterLotsExact(lots: seq<ParkingArea>, term: string, price: int, features: seq<string>)
    ensures forall lot :: lot in FilterLots(lots, term, price, features) <==>
      lot in lots && TextMatches(term, lot) && WithinPrice(price, lot) && HasAllFeatures(features, lot)
    ensures IsSubseq(FilterLots(lots, term, price, features), lots)
  {
    var p := lot => Kept(term, price, lot);
    var q := lot => HasAllFeatures(features, lot);
    FilterIsSubseq(lots, p);
    if |features| > 0 {
      FilterIsSubseq(Filter(lots, p), q);
      SubseqTrans(Filter(Filter(lots, p), q), Filter(lots, p), lots);
    }
  }

  // --------------------------------------------------------------- toggle

  /** `handleFeatureToggle`: remove when present, otherwise append. */
  function ToggleFeature(features: seq<string>, f: string): seq<string> {
    if f in features then Filter(features, x => x != f) else features + [f]
  }

  predicate NoDuplicates(s: seq<string>) {
    forall i, j :: 0 <= i < j < |s| ==> s[i] != s[j]
  }

  /** The toggled feature flips membership; every other feature keeps it. */
  lemma ToggleFlips(features: seq<string>, f: string)
    ensures f in ToggleFeature(features, f) <==> f !in features
    ensures forall g :: g != f ==> (g in ToggleFeature(features, f) <==> g in features)
  {
  }

  lemma {:induction false} FilterAppendDropped<T>(s: seq<T>, x: T, p: T -> bool)
    requires !p(x)
    ensures Filter(s + [x], p) == Filter(s, p)
    decreases |s|
  {
    if s == [] {
      assert [x][1..] == [];
    } else {
      assert (s + [x])[1..] == s[1..] + [x];
      FilterAppendDropped(s[1..], x, p);
    }
  }

  /** Toggling an absent feature twice gives back the same list. */
  lemma ToggleTwiceRestores(features: seq<string>, f: string)
    requires f !in features
    ensures ToggleFeature(ToggleFeature(features, f), f) == features
  {
    assert f in features + [f];
    FilterAppendDropped(features, f, x => x != f);
    FilterAll(features, x => x != f);
  }

  lemma {:induction false} FilterKeepsNoDuplicates(s: seq<string>, p: string -> bool)
    requires NoDuplicates(s)
    ensures NoDuplicates(Filter(s, p))
    decreases |s|
  {
    if s != [] {
      assert NoDuplicates(s[1..]) by {
        forall i, j | 0 <= i < j < |s[1..]| ensures s[1..][i] != s[1..][j] {
          assert s[1..][i] == s[i + 1] && s[1..][j] == s[j + 1];
        }
      }
      FilterKeepsNoDuplicates(s[1..], p);
      var rest := Filter(s[1..], p);
      if p(s[0]) {
        assert s[0] !in s[1..];
        assert s[0] !in rest;
        var t := [s[0]] + rest;
        forall i, j | 0 <= i < j < |t| ensures t[i] != t[j] {
          if i == 0 {
            assert t[j] == rest[j - 1];
            assert t[j] in rest;
          } else {
            assert t[i] == rest[i - 1] && t[j] == rest[j - 1];
          }
        }
      }
    }
  }

  /** Toggling keeps a duplicate-free list duplicate-free, and toggling twice
      restores its set of features (a present feature moves to the end). */
  lemma ToggleKeepsNoDuplicates(features: seq<string>, f: string)
    requires NoDuplicates(features)
    ensures NoDuplicates(ToggleFeature(features, f))
    ensures forall g :: g in ToggleFeature(ToggleFeature(features, f), f) <==> g in features
  {
    if f in features {
      FilterKeepsNoDuplicates(features, x => x != f);
    } else {
      var t := features + [f];
      forall i, j | 0 <= i < j < |t| ensures t[i] != t[j] {
        if j == |features| {
          assert t[i] in features;
        }
      }
    }
  }

  // ------------------------------------------------------------ title case

  /** `toTitleCase`: first character upper, the rest lower; "" stays "". */
  function ToTitleCase(word: string): (r: string)
    ensures |r| == |word|
    ensures word != [] ==> r[0] == UpperChar(word[0])
    ensures forall i :: 1 <= i < |word| ==> r[i] == LowerChar(word[i])
  {
    if word == [] then [] else [UpperChar(word[0])] + ToLower(word[1..])
  }

  lemma ToTitleCaseIdempotent(word: string)
    ensures ToTitleCase(ToTitleCase(word)) == ToTitleCase(word)
  {
    var t := ToTitleCase(word);
    forall i | 0 <= i < |t| ensures ToTitleCase(t)[i] == t[i] {
    }
  }

  /** A title-cased city has no lower-case first letter and no upper-case letter after it. */
  lemma ToTitleCaseShape(word: string)
    ensures word != [] ==> !IsLower(ToTitleCase(word)[0])
    ensures forall i :: 1 <= i < |word| ==> !IsUpper(ToTitleCase(word)[i])
  {
  }

  // ------------------------------------------------------------- search

  /** The matcher of `handleSearchParking`: name or address, no price. */
  function SearchMatches(all: seq<ParkingArea>, term: string): seq<ParkingArea> {
    Filter(all, lot => TextMatches(term, lot))
  }

  /** The search keeps exactly the text matches, whatever they cost. */
  lemma SearchMatchesExact(all: seq<ParkingArea>, term: string)
    ensures forall lot :: lot in SearchMatches(all, term) <==> lot in all && TextMatches(term, lot)
    ensures IsSubseq(SearchMatches(all, term), all)
  {
    FilterIsSubseq(all, lot => TextMatches(term, lot));
  }

  /** The page's filter state. */
  class FinderView {
    var lots: seq<ParkingArea>
    var filteredLots: seq<ParkingArea>
    var searchTerm: string
    var priceFilter: int
    var featuresFilter: seq<string>
    var error: string

    constructor ()
      ensures lots == [] && filteredLots == [] && searchTerm == ""
      ensures priceFilter == DefaultPrice && featuresFilter == [] && error == ""
    {
      lots := [];
      filteredLots := [];
      searchTerm := "";
      priceFilter := DefaultPrice;
      featuresFilter := [];
      error := "";
    }

    /** The filter effect, run whenever the term, lots, price or features change. */
    method ApplyFilters()
      modifies this
      ensures filteredLots == FilterLots(lots, searchTerm, priceFilter, featuresFilter)
      ensures lots == old(lots) && searchTerm == old(searchTerm) && priceFilter == old(priceFilter)
      ensures featuresFilter == old(featuresFilter) && error == old(error)
    {
      filteredLots := FilterLots(lots, searchTerm, priceFilter, featuresFilter);
    }

    /** `handleFeatureToggle`, followed by the filter effect it triggers. */
    method HandleFeatureToggle(f: string)
      modifies this
      ensures featuresFilter == ToggleFeature(old(featuresFilter), f)
      ensures filteredLots == FilterLots(lots, searchTerm, priceFilter, featuresFilter)
      ensures lots == old(lots) && searchTerm == old(searchTerm) && priceFilter == old(priceFilter)
      ensures error == old(error)
    {
      featuresFilter := ToggleFeature(featuresFilter, f);
      ApplyFilters();
    }

    /** `handleSearchParking`: a blank term does nothing; otherwise `fetched`
        is the outcome of fetching all areas. `requested` says whether it was. */
    method HandleSearchParking(fetched: Result<seq<ParkingArea>, string>) returns (requested: bool)
      modifies this
      ensures requested <==> !IsBlank(searchTerm)
      ensures searchTerm == old(searchTerm) && priceFilter == old(priceFilter)
      ensures featuresFilter == old(featuresFilter)
      ensures !requested ==> lots == old(lots) && filteredLots == old(filteredLots) && error == old(error)
      ensures requested && fetched.Success? ==>
        lots == SearchMatches(fetched.value, searchTerm) && filteredLots == lots && error == ""
      ensures requested && fetched.Failure? ==>
        lots == old(lots) && filteredLots == old(filteredLots) && error == "Could not search parking areas."
    {
      if IsBlank(searchTerm) {
        return false;
      }
      requested := true;
      match fetched {
        case Success(all) =>
          var matching := SearchMatches(all, searchTerm);
          lots := matching;
          filteredLots := matching;
          error := "";
        case Failure(_) =>
          error := "Could not search parking areas.";
      }
    }
  }

  /** After a search, the filter effect keeps exactly the matching areas within
      the price that carry the selected features. */
  lemma SearchThenFilter(all: seq<ParkingArea>, term: string, price: int, features: seq<string>)
    ensures forall lot :: lot in FilterLots(SearchMatches(all, term), term, price, features) <==>
      lot in all && TextMatches(term, lot) && WithinPrice(price, lot) && HasAllFeatures(features, lot)
  {
    SearchMatchesExact(all, term);
    FilterLotsExact(SearchMatches(all, term), term, price, features);
  }
}
