/** The featured-salons strip of the home page: which salons the fetch hands
    back (the backend's answer is an input), what the strip shows for them,
    and the defaults each card falls back to. */
module FeaturedSalons {
  import opened JsValues

  /** A row of the `salons` table as the strip reads it. `image_url`,
      `rating` and `services` may be null in the table. */
  datatype SalonRow = SalonRow(
    id: string,
    name: string,
    imageUrl: Nullable<string>,
    rating: Nullable<real>,
    location: string,
    services: Nullable<seq<string>>,
    description: string,
    createdAt: string,
    updatedAt: string)

  /** The card's fallback image, which is also the first default salon's image. */
  const FallbackImage: string :=
    "https://images.unsplash.com/photo-1560066984-138dadb4c035?auto=format&fit=crop&w=800&q=80"
  const GlamourZoneImage: string :=
    "https://images.unsplash.com/photo-1522337360788-8b13dee7a37e?auto=format&fit=crop&w=800&q=80"
  const EliteCutsImage: string :=
    "https://images.unsplash.com/photo-1633681926022-84c23e8cb2d6?auto=format&fit=crop&w=800&q=80"

  /** `DEFAULT_SALONS`; `now` is the ISO timestamp taken when the module loads. */
  function DefaultSalons(now: string): (r: seq<SalonRow>)
    ensures |r| == 3
  {
    [ SalonRow("1", "Style Studio", Defined(FallbackImage), Defined(4.8), "Banjara Hills, Hyderabad",
               Defined(["Haircut", "Color", "Styling"]), "Premium salon services", now, now),
      SalonRow("2", "Glamour Zone",
               Defined(GlamourZoneImage),
               Defined(4.9), "Jubilee Hills, Hyderabad",
               Defined(["Facial", "Massage", "Nails"]), "Luxury beauty services", now, now),
      SalonRow("3", "Elite Cuts",
               Defined(EliteCutsImage),
               Defined(4.7), "Indiranagar, Bangalore",
               Defined(["Haircut", "Beard Trim", "Facial"]), "Premium grooming services", now, now) ]
  }

  /** The default salons carry distinct ids, the load time as both timestamps,
      an image, a rating above the card's 4.5 fallback, and three services each. */
  lemma DefaultSalonsComplete(now: string, k: int)
    requires 0 <= k < 3
    ensures DefaultSalons(now)[k].createdAt == now && DefaultSalons(now)[k].updatedAt == now
    ensures TruthyString(DefaultSalons(now)[k].imageUrl)
    ensures DefaultSalons(now)[k].rating.Defined? && 4.5 < DefaultSalons(now)[k].rating.value <= 5.0
    ensures DefaultSalons(now)[k].services.Defined? && |DefaultSalons(now)[k].services.value| == 3
    ensures forall m :: 0 <= m < 3 && m != k ==> DefaultSalons(now)[m].id != DefaultSalons(now)[k].id
  {
    var d := DefaultSalons(now);
    assert d[0].id == "1" && d[1].id == "2" && d[2].id == "3";
  }

  /** `fetchFeaturedSalons` given the query's answer: an error, or no rows,
      gives the defaults; any other answer is passed on as it came. */
  function FetchFeatured(error: bool, data: Option<seq<SalonRow>>, now: string): (r: seq<SalonRow>)
    ensures error ==> r == DefaultSalons(now)
    ensures !error && (data.None? || data.value == []) ==> r == DefaultSalons(now)
    ensures !error && data.Some? && data.value != [] ==> r == data.value
  {
    if error then DefaultSalons(now)
    else if data.None? || |data.value| == 0 then DefaultSalons(now)
    else data.value
  }

  /** Whatever the backend answers, the fetch yields at least one salon, and
      at most the six rows the query asks for. */
  lemma FetchNeverEmpty(error: bool, data: Option<seq<SalonRow>>, now: string)
    requires data.Some? ==> |data.value| <= 6
    ensures 1 <= |FetchFeatured(error, data, now)| <= 6
  {
  }

  /** What a card receives. */
  datatype Card = Card(id: string, name: string, image: string, rating: real, location: string,
                       services: seq<string>)

  /** The card for one row: `image_url || fallback`, `rating || 4.5`,
      `services || []`; the rest copied. */
  function CardOf(row: SalonRow): (c: Card)
    ensures c.id == row.id && c.name == row.name && c.location == row.location
    ensures c.image != ""
    ensures c.image == (if TruthyString(row.imageUrl) then row.imageUrl.value else FallbackImage)
    ensures c.rating != 0.0
    ensures (row.rating.Defined? && row.rating.value != 0.0) ==> c.rating == row.rating.value
    ensures !(row.rating.Defined? && row.rating.value != 0.0) ==> c.rating == 4.5
    ensures c.services == (if row.services.Defined? then row.services.value else [])
  {
    Card(row.id, row.name, OrString(row.imageUrl, FallbackImage), OrReal(row.rating, 4.5),
         row.location, OrSeq(row.services, []))
  }

  /** What the strip renders. */
  datatype View = Skeleton | NoSalons | Cards(cards: seq<Card>)

  /** The strip for the query's state: skeletons while loading, the "no
      salons" alert for a missing or empty list, otherwise one card per row. */
  function Render(isLoading: bool, salons: Option<seq<SalonRow>>): (v: View)
    ensures isLoading <==> v.Skeleton?
    ensures v.NoSalons? <==> !isLoading && (salons.None? || salons.value == [])
    ensures v.Cards? ==> salons.Some? && |v.cards| == |salons.value|
    ensures v.Cards? ==> forall k :: 0 <= k < |v.cards| ==> v.cards[k] == CardOf(salons.value[k])
  {
    if isLoading then Skeleton
    else if salons.None? || |salons.value| == 0 then NoSalons
    else Cards(seq(|salons.value|, k requires 0 <= k < |salons.value| => CardOf(salons.value[k])))
  }

  /** Once the fetch has answered, the alert is never shown: there is a card
      for every returned row, and none of them lacks an image or a rating. */
  lemma LoadedStripShowsCards(error: bool, data: Option<seq<SalonRow>>, now: string)
    ensures Render(false, Some(FetchFeatured(error, data, now))).Cards?
    ensures forall k :: 0 <= k < |Render(false, Some(FetchFeatured(error, data, now))).cards| ==>
      Render(false, Some(FetchFeatured(error, data, now))).cards[k].image != "" &&
      Render(false, Some(FetchFeatured(error, data, now))).cards[k].rating != 0.0
  {
    var rows := FetchFeatured(error, data, now);
    assert |rows| > 0;
    var v := Render(false, Some(rows));
    forall k | 0 <= k < |v.cards| ensures v.cards[k].image != "" && v.cards[k].rating != 0.0 {
      assert v.cards[k] == CardOf(rows[k]);
    }
  }

  /** The default salons render with their own images and ratings. */
  lemma DefaultCardsKeepTheirValues(now: string, k: int)
    requires 0 <= k < 3
    ensures CardOf(DefaultSalons(now)[k]).image == DefaultSalons(now)[k].imageUrl.value
    ensures CardOf(DefaultSalons(now)[k]).rating == DefaultSalons(now)[k].rating.value
  {
    DefaultSalonsComplete(now, k);
  }
}
