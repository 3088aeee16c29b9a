/** The salon search page: a case-insensitive substring search over the mock
    salons' name, location and services, followed by a sort chosen by the
    "sort by" control. The page keeps the result in its `salons` state. */
module SalonsPage {
  import opened JsValues
  import opened JsStrings

  datatype Coordinates = Coordinates(latitude: real, longitude: real)

  datatype Salon = Salon(
    id: string,
    name: string,
    image: string,
    rating: real,
    location: string,
    services: seq<string>,
    coordinates: Option<Coordinates>)

  /** `MOCK_SALONS`: the page's data source. */
  const MockSalons: seq<Salon> := [
    Salon("1", "Style Studio Hyderabad",
          "https://images.unsplash.com/photo-1560066984-138dadb4c035?auto=format&fit=crop&w=800&q=80",
          4.8, "Banjara Hills, Hyderabad", ["Haircut", "Color", "Styling"],
          Some(Coordinates(17.4256, 78.4539))),
    Salon("2", "Bangalore Beauty Lounge",
          "https://images.unsplash.com/photo-1522337360788-8b13dee7a37e?auto=format&fit=crop&w=800&q=80",
          4.9, "Indiranagar, Bangalore", ["Facial", "Massage", "Nails"],
          Some(Coordinates(12.9716, 77.6441)))
  ]

  // ---------------------------------------------------------------- search

  /** `services.some(s => s.toLowerCase().includes(term.toLowerCase()))` */
  predicate SomeServiceMatches(services: seq<string>, term: string)
  {
    exists k :: 0 <= k < |services| && Contains(Lower(services[k]), Lower(term))
  }

  /** The search predicate applied to each salon. */
  predicate Matches(salon: Salon, term: string)
  {
    || Contains(Lower(salon.name), Lower(term))
    || Contains(Lower(salon.location), Lower(term))
    || SomeServiceMatches(salon.services, term)
  }

  /** `salons.filter(salon => Matches(salon, term))`: the matching salons, each
      as often as in the input, in input order. */
  function Filter(xs: seq<Salon>, term: string): (r: seq<Salon>)
    ensures forall k :: 0 <= k < |r| ==> Matches(r[k], term)
    ensures forall x :: multiset(r)[x] == if Matches(x, term) then multiset(xs)[x] else 0
  {
    if xs == [] then []
    else
      assert xs == [xs[0]] + xs[1..];
      (if Matches(xs[0], term) then [xs[0]] else []) + Filter(xs[1..], term)
  }

  /** Every salon matches the empty term, so skipping the filter when the
      search box is empty changes nothing. */
  lemma {:induction false} FilterEmptyTerm(xs: seq<Salon>)
    ensures Filter(xs, "") == xs
  {
    if xs != [] {
      ContainsEmpty(Lower(xs[0].name));
      FilterEmptyTerm(xs[1..]);
    }
  }

  /** The filter works salon by salon: it distributes over concatenation, ... */
  lemma {:induction false} FilterAppend(a: seq<Salon>, b: seq<Salon>, term: string)
    ensures Filter(a + b, term) == Filter(a, term) + Filter(b, term)
  {
    if a == [] {
      assert a + b == b;
    } else {
      var x, t := a[0], a[1..];
      assert a == [x] + t && a + b == [x] + (t + b);
      FilterCons(x, t, term);
      FilterCons(x, t + b, term);
      FilterAppend(t, b, term);
      var h := if Matches(x, term) then [x] else [];
      Regroup(h, Filter(t, term), Filter(b, term));
    }
  }

  lemma FilterCons(x: Salon, t: seq<Salon>, term: string)
    ensures Filter([x] + t, term) == (if Matches(x, term) then [x] else []) + Filter(t, term)
  {
    assert ([x] + t)[0] == x && ([x] + t)[1..] == t;
  }

  /** ... and on one salon keeps it exactly when it matches. */
  lemma FilterSingle(x: Salon, term: string)
    ensures Filter([x], term) == if Matches(x, term) then [x] else []
  {
  }

  // ---------------------------------------------------------------- order

  /** Code-point lexicographic order, standing in for `localeCompare(...) < 0`. */
  predicate LexLess(a: string, b: string)
  {
    if a == [] then b != []
    else if b == [] then false
    else if a[0] < b[0] then true
    else if a[0] == b[0] then LexLess(a[1..], b[1..])
    else false
  }

  lemma {:induction false} LexTrichotomy(a: string, b: string)
    ensures LexLess(a, b) || a == b || LexLess(b, a)
    ensures !(LexLess(a, b) && LexLess(b, a))
    ensures !(LexLess(a, b) && a == b)
  {
    if a != [] && b != [] && a[0] == b[0] {
      LexTrichotomy(a[1..], b[1..]);
      if a[1..] == b[1..] {
        assert a == [a[0]] + a[1..] && b == [b[0]] + b[1..];
      }
    }
  }

  lemma {:induction false} LexTransitive(a: string, b: string, c: string)
    requires LexLess(a, b) && LexLess(b, c)
    ensures LexLess(a, c)
  {
    if a != [] && b != [] && c != [] && a[0] == b[0] == c[0] {
      LexTransitive(a[1..], b[1..], c[1..]);
    }
  }

  /** What the "sort by" control selects; the distance order carries the
      user's location (if known) and the distance function it uses. */
  datatype Order =
    | ByName
    | ByRating
    | ByDistance(from: Option<Coordinates>, distance: (Coordinates, Coordinates) -> real)
    | Unordered

  function OrderOf(sortBy: string, userLocation: Option<Coordinates>,
                   distance: (Coordinates, Coordinates) -> real): Order
  {
    if sortBy == "name" then ByName
    else if sortBy == "rating" then ByRating
    else if sortBy == "distance" then ByDistance(userLocation, distance)
    else Unordered
  }

  /** The comparator of the page returns a negative number for `a`, `b`. */
  predicate Before(order: Order, a: Salon, b: Salon)
  {
    match order
    case ByName => LexLess(a.name, b.name)
    case ByRating => b.rating - a.rating < 0.0
    case ByDistance(from, distance) =>
      && from.Some? && a.coordinates.Some? && b.coordinates.Some?
      && distance(from.value, a.coordinates.value) - distance(from.value, b.coordinates.value) < 0.0
    case Unordered => false
  }

  /** The comparator returns 0 for every pair. */
  predicate NeverBefore(order: Order)
  {
    order.Unordered? || (order.ByDistance? && order.from.None?)
  }

  /** A salon the comparator can rank: for the distance order with a known
      location, one with coordinates. */
  predicate Ranked(order: Order, x: Salon)
  {
    order.ByDistance? && order.from.Some? ==> x.coordinates.Some?
  }

  lemma BeforeAsymmetric(order: Order, a: Salon, b: Salon)
    ensures !(Before(order, a, b) && Before(order, b, a))
  {
    if order.ByName? {
      LexTrichotomy(a.name, b.name);
    }
  }

  /** "Not before" is transitive among ranked salons: the comparator is a weak order. */
  lemma NotBeforeTransitive(order: Order, a: Salon, b: Salon, c: Salon)
    requires Ranked(order, a) && Ranked(order, b) && Ranked(order, c)
    requires !Before(order, a, b) && !Before(order, b, c)
    ensures !Before(order, a, c)
  {
    if order.ByName? {
      LexTrichotomy(a.name, b.name);
      LexTrichotomy(b.name, c.name);
      LexTrichotomy(a.name, c.name);
      if LexLess(a.name, c.name) {
        if LexLess(c.name, b.name) {
          LexTransitive(a.name, c.name, b.name);
        }
      }
    }
  }

  // ---------------------------------------------------------------- sort

  /** Insert `x` ahead of the first element it does not come after. */
  function Insert(order: Order, x: Salon, r: seq<Salon>): (q: seq<Salon>)
    ensures multiset(q) == multiset(r) + multiset{x}
  {
    if r == [] then [x]
    else if !Before(order, r[0], x) then [x] + r
    else
      assert r == [r[0]] + r[1..];
      [r[0]] + Insert(order, x, r[1..])
  }

  /** `Array.prototype.sort` with the page's comparator: a stable sort, here an
      insertion sort that keeps equal elements in their input order. */
  function Sort(order: Order, s: seq<Salon>): (r: seq<Salon>)
    ensures multiset(r) == multiset(s)
  {
    if s == [] then []
    else
      assert s == [s[0]] + s[1..];
      Insert(order, s[0], Sort(order, s[1..]))
  }

  predicate Sorted(order: Order, r: seq<Salon>)
  {
    forall i, j :: 0 <= i < j < |r| ==> !Before(order, r[j], r[i])
  }

  /** A salon that no later one comes before can head a sorted list. */
  lemma ConsSorted(order: Order, h: Salon, t: seq<Salon>)
    requires Sorted(order, t)
    requires forall k :: 0 <= k < |t| ==> !Before(order, t[k], h)
    ensures Sorted(order, [h] + t)
  {
    var q := [h] + t;
    forall i, j | 0 <= i < j < |q| ensures !Before(order, q[j], q[i]) {
      assert q[j] == t[j - 1];
      if i > 0 {
        assert q[i] == t[i - 1];
      }
    }
  }

  /** Every element of an insertion is the inserted salon or one of the list's. */
  lemma InsertFrom(order: Order, x: Salon, r: seq<Salon>, k: int)
    requires 0 <= k < |Insert(order, x, r)|
    ensures Insert(order, x, r)[k] == x || Insert(order, x, r)[k] in r
  {
    var q := Insert(order, x, r);
    assert q[k] in multiset(q);
    assert q[k] in multiset(r) + multiset{x};
  }

  lemma {:induction false} InsertSorted(order: Order, x: Salon, r: seq<Salon>)
    requires Ranked(order, x) && forall k :: 0 <= k < |r| ==> Ranked(order, r[k])
    requires Sorted(order, r)
    ensures Sorted(order, Insert(order, x, r))
  {
    if r == [] {
    } else if !Before(order, r[0], x) {
      forall k | 0 <= k < |r| ensures !Before(order, r[k], x) {
        if k > 0 {
          NotBeforeTransitive(order, r[k], r[0], x);
        }
      }
      ConsSorted(order, x, r);
    } else {
      assert Sorted(order, r[1..]);
      InsertSorted(order, x, r[1..]);
      var t := Insert(order, x, r[1..]);
      forall k | 0 <= k < |t| ensures !Before(order, t[k], r[0]) {
        InsertFrom(order, x, r[1..], k);
        if t[k] == x {
          BeforeAsymmetric(order, x, r[0]);
        } else {
          var m :| 0 <= m < |r[1..]| && r[1..][m] == t[k];
          assert r[m + 1] == t[k];
        }
      }
      ConsSorted(order, r[0], t);
    }
  }

  /** Sorting ranked salons leaves no pair out of order. */
  lemma {:induction false} SortSorted(order: Order, s: seq<Salon>)
    requires forall k :: 0 <= k < |s| ==> Ranked(order, s[k])
    ensures Sorted(order, Sort(order, s))
  {
    if s != [] {
      SortSorted(order, s[1..]);
      var t := Sort(order, s[1..]);
      forall k | 0 <= k < |t| ensures Ranked(order, t[k]) {
        assert t[k] in multiset(s[1..]);
        assert t[k] in s[1..];
      }
      InsertSorted(order, s[0], t);
    }
  }

  /** A comparator that always returns 0 leaves the order untouched. */
  lemma {:induction false} SortNeverBefore(order: Order, s: seq<Salon>)
    requires NeverBefore(order)
    ensures Sort(order, s) == s
  {
    if s != [] {
      SortNeverBefore(order, s[1..]);
      assert [s[0]] + s[1..] == s;
    }
  }

  /** Neither salon comes before the other: the comparator returns 0. */
  predicate Tied(order: Order, a: Salon, b: Salon)
  {
    !Before(order, a, b) && !Before(order, b, a)
  }

  /** The salons of a list tied with `e`, in list order. */
  function TiedWith(order: Order, e: Salon, s: seq<Salon>): seq<Salon>
  {
    if s == [] then []
    else (if Tied(order, s[0], e) then [s[0]] else []) + TiedWith(order, e, s[1..])
  }

  lemma TiedWithCons(order: Order, e: Salon, y: Salon, t: seq<Salon>)
    ensures TiedWith(order, e, [y] + t) == (if Tied(order, y, e) then [y] else []) + TiedWith(order, e, t)
  {
    assert ([y] + t)[0] == y && ([y] + t)[1..] == t;
  }

  /** Two salons tied with a third are not ordered against each other. */
  lemma TiedNotBefore(order: Order, e: Salon, a: Salon, b: Salon)
    requires Ranked(order, e) && Ranked(order, a) && Ranked(order, b)
    requires Tied(order, a, e) && Tied(order, b, e)
    ensures !Before(order, a, b)
  {
    NotBeforeTransitive(order, a, e, b);
  }

  lemma SwapHeads(p: seq<Salon>, q: seq<Salon>, t: seq<Salon>)
    requires p == [] || q == []
    ensures p + (q + t) == q + (p + t)
  {
  }

  /** An inserted salon goes ahead of every salon it is tied with. */
  lemma {:induction false} InsertTiedWith(order: Order, e: Salon, x: Salon, r: seq<Salon>)
    requires Ranked(order, e) && Ranked(order, x) && forall k :: 0 <= k < |r| ==> Ranked(order, r[k])
    ensures TiedWith(order, e, Insert(order, x, r)) ==
      (if Tied(order, x, e) then [x] else []) + TiedWith(order, e, r)
  {
    if r == [] || !Before(order, r[0], x) {
      assert Insert(order, x, r) == [x] + r;
      TiedWithCons(order, e, x, r);
    } else {
      var y, rest := r[0], r[1..];
      assert r == [y] + rest;
      assert Insert(order, x, r) == [y] + Insert(order, x, rest);
      InsertTiedWith(order, e, x, rest);
      TiedWithCons(order, e, y, Insert(order, x, rest));
      TiedWithCons(order, e, y, rest);
      if Tied(order, x, e) && Tied(order, y, e) {
        TiedNotBefore(order, e, y, x);
      }
      SwapHeads(if Tied(order, y, e) then [y] else [], if Tied(order, x, e) then [x] else [],
                TiedWith(order, e, rest));
    }
  }

  /** The sort is stable: salons the comparator ties keep their input order. */
  lemma {:induction false} SortStable(order: Order, e: Salon, s: seq<Salon>)
    requires Ranked(order, e) && forall k :: 0 <= k < |s| ==> Ranked(order, s[k])
    ensures TiedWith(order, e, Sort(order, s)) == TiedWith(order, e, s)
  {
    if s != [] {
      SortStable(order, e, s[1..]);
      var t := Sort(order, s[1..]);
      forall k | 0 <= k < |t| ensures Ranked(order, t[k]) {
        assert t[k] in multiset(s[1..]);
        assert t[k] in s[1..];
      }
      InsertTiedWith(order, e, s[0], t);
    }
  }

  // ---------------------------------------------------------------- page

  /** The list the filter-and-sort effect computes from the mock salons. */
  function Listing(searchTerm: string, order: Order): seq<Salon>
  {
    var found := if searchTerm != "" then Filter(MockSalons, searchTerm) else MockSalons;
    Sort(order, found)
  }

  /** The listing holds exactly the matching mock salons, none dropped or repeated. */
  lemma ListingContents(searchTerm: string, order: Order)
    ensures forall x :: multiset(Listing(searchTerm, order))[x] ==
                        (if Matches(x, searchTerm) then multiset(MockSalons)[x] else 0)
  {
    if searchTerm == "" {
      FilterEmptyTerm(MockSalons);
    }
  }

  /** An empty search keeps every mock salon. */
  lemma ListingEmptyTerm(order: Order)
    ensures multiset(Listing("", order)) == multiset(MockSalons)
  {
  }

  /** By name the listing ascends; by rating it never increases. */
  lemma ListingOrdered(searchTerm: string, order: Order)
    requires order.ByName? || order.ByRating?
    ensures order.ByName? ==> forall i, j :: 0 <= i < j < |Listing(searchTerm, order)| ==>
      !LexLess(Listing(searchTerm, order)[j].name, Listing(searchTerm, order)[i].name)
    ensures order.ByRating? ==> forall i, j :: 0 <= i < j < |Listing(searchTerm, order)| ==>
      Listing(searchTerm, order)[i].rating >= Listing(searchTerm, order)[j].rating
  {
    var found := if searchTerm != "" then Filter(MockSalons, searchTerm) else MockSalons;
    var listing := Listing(searchTerm, order);
    SortSorted(order, found);
    assert Sorted(order, listing);
  }

  /** With a comparator that always answers 0 (an unknown sort key, or the
      distance sort before the user's location is known) the filtered order stays. */
  lemma ListingUnsorted(searchTerm: string, order: Order)
    requires NeverBefore(order)
    ensures Listing(searchTerm, order) == if searchTerm != "" then Filter(MockSalons, searchTerm) else MockSalons
  {
    var found := if searchTerm != "" then Filter(MockSalons, searchTerm) else MockSalons;
    SortNeverBefore(order, found);
  }

  /** Every mock salon has coordinates, so the distance sort ranks the whole listing. */
  lemma ListingByDistanceOrdered(searchTerm: string, from: Coordinates,
                                 distance: (Coordinates, Coordinates) -> real)
    ensures Sorted(ByDistance(Some(from), distance), Listing(searchTerm, ByDistance(Some(from), distance)))
  {
    var order := ByDistance(Some(from), distance);
    var found := if searchTerm != "" then Filter(MockSalons, searchTerm) else MockSalons;
    forall k | 0 <= k < |found| ensures Ranked(order, found[k]) {
      assert found[k] in multiset(MockSalons);
    }
    SortSorted(order, found);
  }

  /** The page component's state. */
  class SalonsPageState {
    var searchTerm: string
    var sortBy: string
    var userLocation: Option<Coordinates>
    var salons: seq<Salon>

    constructor ()
      ensures searchTerm == "" && sortBy == "name" && userLocation == None
      ensures salons == MockSalons
    {
      searchTerm, sortBy, userLocation := "", "name", None;
      salons := MockSalons;
    }

    /** The filter-and-sort effect: copy the mock salons, filter them when the
        search box is not empty, sort the copy, and store it. */
    method RefreshListing(distance: (Coordinates, Coordinates) -> real)
      modifies this`salons
      ensures salons == Listing(searchTerm, OrderOf(sortBy, userLocation, distance))
      ensures forall x :: multiset(salons)[x] ==
                          (if Matches(x, searchTerm) then multiset(MockSalons)[x] else 0)
    {
      var order := OrderOf(sortBy, userLocation, distance);
      var filtered := MockSalons;
      if searchTerm != "" {
        filtered := Filter(filtered, searchTerm);
      }
      filtered := Sort(order, filtered);
      assert filtered == Listing(searchTerm, order);
      ListingContents(searchTerm, order);
      salons := filtered;
    }
  }
}
