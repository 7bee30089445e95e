/**
 * The restaurant record as fetched from the aggregator. Only `id` is
 * required; every other field may be absent. Numbers (ratings, costs,
 * minutes, coordinates) are reals: the core only compares them.
 */
module Restaurants {
  import opened Wrappers

  /** A GeoJSON point: `coordinates` is `[longitude, latitude]`. */
  datatype Location = Location(longitude: real, latitude: real)

  datatype Address = Address(
    firstLine: Option<string>,
    city: Option<string>,
    postalCode: Option<string>,
    location: Option<Location>)

  datatype Rating = Rating(starRating: Option<real>, count: Option<real>)

  datatype Cuisine = Cuisine(name: string)

  datatype DeliveryEta = DeliveryEta(rangeLower: Option<real>, rangeUpper: Option<real>)

  datatype Restaurant = Restaurant(
    id: string,
    name: Option<string>,
    address: Option<Address>,
    rating: Option<Rating>,
    cuisines: Option<seq<Cuisine>>,
    deliveryEtaMinutes: Option<DeliveryEta>,
    deliveryCost: Option<real>,
    logoUrl: Option<string>,
    minimumDeliveryValue: Option<real>,
    isOpenNowForDelivery: Option<bool>,
    isNew: Option<bool>)

  /** A record with only its `id`. */
  function WithId(id: string): Restaurant {
    Restaurant(id, None, None, None, None, None, None, None, None, None, None)
  }

  function Ids(rs: seq<Restaurant>): (ids: seq<string>)
    ensures |ids| == |rs| && forall i :: 0 <= i < |rs| ==> ids[i] == rs[i].id
  {
    if rs == [] then [] else [rs[0].id] + Ids(rs[1..])
  }
}
