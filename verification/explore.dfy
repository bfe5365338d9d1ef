/**
 * The destination browser (app/explore/page.tsx): a fixed catalogue, a
 * search box and a row of category buttons. The list shown keeps, in
 * catalogue order, the destinations whose lower-cased name or country
 * contains the lower-cased search text and whose category is the selected
 * one, or any category when "All" is selected.
 */
module Explore {
  import opened Js

  /** A catalogue entry; `ratingTenths` is the rating times ten (4.8 is 48). */
  datatype Destination = Destination(id: int, name: string, country: string, image: string,
                                     description: string, price: int, ratingTenths: int,
                                     category: string)

  const Destinations: seq<Destination> := [
    Destination(1, "Tokyo, Japan", "Japan",
                "https://images.unsplash.com/photo-1540959733332-eab4deabeeaf?w=800",
                "Experience the perfect blend of ancient traditions and cutting-edge technology",
                1200, 48, "Culture"),
    Destination(2, "Paris, France", "France",
                "https://images.unsplash.com/photo-1502602898657-3e91760cbb34?w=800",
                "The city of love, art, and exquisite cuisine",
                1500, 49, "Culture"),
    Destination(3, "Bali, Indonesia", "Indonesia",
                "https://images.unsplash.com/photo-1537996194471-e657df975ab4?w=800",
                "Tropical paradise with beautiful beaches and rich culture",
                800, 47, "Relaxation"),
    Destination(4, "Dubai, UAE", "United Arab Emirates",
                "https://images.unsplash.com/photo-1512453979798-5ea266f8880c?w=800",
                "Luxury shopping, ultramodern architecture, and desert adventures",
                1800, 46, "Luxury"),
    Destination(5, "New York City, USA", "United States",
                "https://images.unsplash.com/photo-1496442226666-8d4d0e62e6e9?w=800",
                "The city that never sleeps - culture, food, and entertainment",
                1400, 47, "Adventure"),
    Destination(6, "Santorini, Greece", "Greece",
                "https://images.unsplash.com/photo-1613395877344-13d4a8e0d49e?w=800",
                "Stunning sunsets, white-washed buildings, and crystal blue waters",
                1100, 49, "Relaxation"),
    Destination(7, "Machu Picchu, Peru", "Peru",
                "https://images.unsplash.com/photo-1587595431973-160d0d94add1?w=800",
                "Ancient Incan citadel set high in the Andes Mountains",
                900, 48, "Adventure"),
    Destination(8, "Bangkok, Thailand", "Thailand",
                "https://images.unsplash.com/photo-1508009603885-50cf7c579365?w=800",
                "Vibrant street life, ornate temples, and amazing food",
                700, 46, "Food")
  ]

  /** The category buttons, "All" first. */
  const Categories: seq<string> := ["All", "Adventure", "Relaxation", "Culture", "Food", "Luxury"]

  /** The lower-cased name or country contains the lower-cased search text. */
  predicate MatchesSearch(d: Destination, searchTerm: string) {
    Includes(ToLowerCase(d.name), ToLowerCase(searchTerm))
    || Includes(ToLowerCase(d.country), ToLowerCase(searchTerm))
  }

  predicate MatchesCategory(d: Destination, selectedCategory: string) {
    selectedCategory == "All" || d.category == selectedCategory
  }

  predicate Shown(d: Destination, searchTerm: string, selectedCategory: string) {
    MatchesSearch(d, searchTerm) && MatchesCategory(d, selectedCategory)
  }

  /** `destinations.filter(...)`: a destination is kept exactly when it is shown. */
  function FilterDestinations(ds: seq<Destination>, searchTerm: string, selectedCategory: string)
    : (r: seq<Destination>)
    ensures |r| <= |ds|
    ensures forall d :: d in r <==> d in ds && Shown(d, searchTerm, selectedCategory)
  {
    if ds == [] then []
    else
      var rest := FilterDestinations(ds[1..], searchTerm, selectedCategory);
      if Shown(ds[0], searchTerm, selectedCategory) then [ds[0]] + rest else rest
  }

  /** `r` is `s` with some entries dropped and the rest in their order. */
  predicate SubsequenceOf<T(==)>(r: seq<T>, s: seq<T>)
    decreases |s|
  {
    r == [] || (s != [] && ((r[0] == s[0] && SubsequenceOf(r[1..], s[1..])) || SubsequenceOf(r, s[1..])))
  }

  // ---------------------------------------------------------------------------
  // Properties
  // ---------------------------------------------------------------------------

  /** The list shown keeps the catalogue's order. */
  lemma {:induction false} FilterKeepsOrder(ds: seq<Destination>, searchTerm: string, selectedCategory: string)
    ensures SubsequenceOf(FilterDestinations(ds, searchTerm, selectedCategory), ds)
  {
    if ds != [] {
      FilterKeepsOrder(ds[1..], searchTerm, selectedCategory);
    }
  }

  /** Filtering a concatenation filters each part: an entry never moves past another. */
  lemma {:induction false} FilterConcat(a: seq<Destination>, b: seq<Destination>, searchTerm: string,
                                        selectedCategory: string)
    ensures FilterDestinations(a + b, searchTerm, selectedCategory)
         == FilterDestinations(a, searchTerm, selectedCategory) + FilterDestinations(b, searchTerm, selectedCategory)
  {
    if a != [] {
      assert (a + b)[1..] == a[1..] + b;
      FilterConcat(a[1..], b, searchTerm, selectedCategory);
    } else {
      assert a + b == b;
    }
  }

  /** Every entry shown contains the search text in its name or country, ignoring case,
      and has the selected category unless "All" is selected. */
  lemma ShownEntriesMatch(ds: seq<Destination>, searchTerm: string, selectedCategory: string)
    ensures forall d :: d in FilterDestinations(ds, searchTerm, selectedCategory) ==>
      && ((exists i :: OccursAt(ToLowerCase(d.name), ToLowerCase(searchTerm), i))
          || (exists i :: OccursAt(ToLowerCase(d.country), ToLowerCase(searchTerm), i)))
      && (selectedCategory != "All" ==> d.category == selectedCategory)
  {
  }

  /** With no search text and "All" selected, the whole catalogue is shown. */
  lemma {:induction false} NoFilterShowsEverything(ds: seq<Destination>)
    ensures FilterDestinations(ds, "", "All") == ds
  {
    if ds != [] {
      IncludesInfix(ToLowerCase(ds[0].name), "", "");
      NoFilterShowsEverything(ds[1..]);
    }
  }

  /** The search ignores the case of the search text. */
  lemma {:induction false} SearchIgnoresCase(ds: seq<Destination>, term1: string, term2: string,
                                             selectedCategory: string)
    requires ToLowerCase(term1) == ToLowerCase(term2)
    ensures FilterDestinations(ds, term1, selectedCategory) == FilterDestinations(ds, term2, selectedCategory)
  {
    if ds != [] {
      SearchIgnoresCase(ds[1..], term1, term2, selectedCategory);
    }
  }

  /** Narrowing by a category other than "All" never shows more than "All" does. */
  lemma {:induction false} CategoryNarrows(ds: seq<Destination>, searchTerm: string, selectedCategory: string)
    ensures SubsequenceOf(FilterDestinations(ds, searchTerm, selectedCategory),
                          FilterDestinations(ds, searchTerm, "All"))
  {
    if ds != [] {
      CategoryNarrows(ds[1..], searchTerm, selectedCategory);
      var r := FilterDestinations(ds, searchTerm, selectedCategory);
      var rest := FilterDestinations(ds[1..], searchTerm, selectedCategory);
      var all := FilterDestinations(ds, searchTerm, "All");
      var allRest := FilterDestinations(ds[1..], searchTerm, "All");
      if Shown(ds[0], searchTerm, "All") {
        assert all == [ds[0]] + allRest && all[1..] == allRest;
        if Shown(ds[0], searchTerm, selectedCategory) {
          assert r == [ds[0]] + rest && r[1..] == rest;
        } else {
          assert r == rest;
          SubsequenceSkip(rest, allRest, ds[0]);
        }
      } else {
        assert !Shown(ds[0], searchTerm, selectedCategory);
      }
    }
  }

  lemma SubsequenceSkip<T>(r: seq<T>, s: seq<T>, x: T)
    requires SubsequenceOf(r, s)
    ensures SubsequenceOf(r, [x] + s)
  {
    assert ([x] + s)[1..] == s;
  }

  /** With no search text, the category alone decides: every entry of the category is shown. */
  lemma EmptySearchFiltersByCategory(ds: seq<Destination>, selectedCategory: string)
    ensures forall d :: d in FilterDestinations(ds, "", selectedCategory) <==>
      d in ds && (selectedCategory == "All" || d.category == selectedCategory)
  {
    forall d | d in ds
      ensures MatchesSearch(d, "")
    {
      IncludesInfix(ToLowerCase(d.name), "", "");
    }
  }

  /** Each category button shows at least one destination when nothing is searched, and every
      destination's category has its button. */
  lemma EveryCategoryHasDestinations()
    ensures forall i :: 0 <= i < |Categories| ==> FilterDestinations(Destinations, "", Categories[i]) != []
    ensures forall j :: 0 <= j < |Destinations| ==> Destinations[j].category in Categories
  {
    var ds := Destinations;
    forall i | 0 <= i < |Categories|
      ensures FilterDestinations(ds, "", Categories[i]) != []
    {
      var j := [0, 4, 2, 0, 7, 3][i];
      assert MatchesCategory(ds[j], Categories[i]);
      EmptySearchFiltersByCategory(ds, Categories[i]);
      assert ds[j] in FilterDestinations(ds, "", Categories[i]);
    }
  }

  /** In the catalogue, "Culture" with no search text shows Tokyo, then Paris, and nothing else. */
  lemma CultureShowsTokyoThenParis()
    ensures FilterDestinations(Destinations, "", "Culture") == [Destinations[0], Destinations[1]]
  {
    var ds := Destinations;
    assert ds == [ds[0]] + ([ds[1]] + ([ds[2]] + ([ds[3]] + ([ds[4]] + ([ds[5]] + ([ds[6]] + [ds[7]]))))));
    OnlyFirstTwoInCategory(ds[0], ds[1], ds[2], ds[3], ds[4], ds[5], ds[6], ds[7], "Culture");
  }

  lemma OnlyFirstTwoInCategory(a: Destination, b: Destination, c: Destination, d: Destination,
                               e: Destination, f: Destination, g: Destination, h: Destination,
                               category: string)
    requires category != "All" && a.category == category && b.category == category
    requires c.category != category && d.category != category && e.category != category
    requires f.category != category && g.category != category && h.category != category
    ensures FilterDestinations([a] + ([b] + ([c] + ([d] + ([e] + ([f] + ([g] + [h])))))), "", category) == [a, b]
  {
    var s7: seq<Destination> := [h];
    var s6 := [g] + s7;
    var s5 := [f] + s6;
    var s4 := [e] + s5;
    var s3 := [d] + s4;
    var s2 := [c] + s3;
    var s1 := [b] + s2;
    var s0 := [a] + s1;
    assert [h] + [] == s7;
    OtherCategoryHidden(h, [], category);
    OtherCategoryHidden(g, s7, category);
    OtherCategoryHidden(f, s6, category);
    OtherCategoryHidden(e, s5, category);
    OtherCategoryHidden(d, s4, category);
    OtherCategoryHidden(c, s3, category);
    assert FilterDestinations(s2, "", category) == [];
    SameCategoryShown(b, s2, category);
    SameCategoryShown(a, s1, category);
  }

  /** With no search text, an entry of the selected category is shown. */
  lemma SameCategoryShown(x: Destination, rest: seq<Destination>, category: string)
    requires x.category == category
    ensures FilterDestinations([x] + rest, "", category) == [x] + FilterDestinations(rest, "", category)
  {
    IncludesInfix(ToLowerCase(x.name), "", "");
    assert ([x] + rest)[1..] == rest;
  }

  /** An entry of another category than the selected one is not shown. */
  lemma OtherCategoryHidden(x: Destination, rest: seq<Destination>, category: string)
    requires category != "All" && x.category != category
    ensures FilterDestinations([x] + rest, "", category) == FilterDestinations(rest, "", category)
  {
    assert ([x] + rest)[1..] == rest;
  }
}
