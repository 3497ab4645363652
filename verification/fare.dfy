/**
 * Fare quoting of the home screen (app/home.jsx): a per-kilometre rate per
 * vehicle type and `price = km * rate` shown with two decimals.
 *
 * Units: distances are whole hundredths of a kilometre (the two decimals that
 * `toFixed(2)` keeps) and money is whole paisa (hundredths of a rupee), so
 * `hundredths * rate` is the two-decimal price exactly.
 */
module Fare {

  /** Rupees per kilometre for the three vehicle buttons of the home screen. */
  const BikeRate: nat := 30
  const ComfortRate: nat := 80
  const CarRate: nat := 60

  /** `priceRates[vehicleType] || 0`: an unknown vehicle type prices at rate 0. */
  function Rate(vehicleType: string): (r: nat)
    ensures r > 0 <==> vehicleType in {"Bike", "Comfort", "Car"}
  {
    if vehicleType == "Bike" then BikeRate
    else if vehicleType == "Comfort" then ComfortRate
    else if vehicleType == "Car" then CarRate
    else 0
  }

  /** The quoted price in paisa for a distance in hundredths of a kilometre. */
  function Price(hundredths: nat, vehicleType: string): (paisa: nat)
    ensures hundredths == 0 ==> paisa == 0
    ensures Rate(vehicleType) == 0 ==> paisa == 0
    ensures paisa >= hundredths <==> (hundredths == 0 || Rate(vehicleType) >= 1)
  {
    hundredths * Rate(vehicleType)
  }

  /**
   * `(distance / 1000).toFixed(2)` for an OSRM distance in whole metres (the
   * floor of the reported metres, which rounds to the same hundredth): the
   * hundredth of a kilometre nearest to the distance (ties rounded up).
   */
  function KmHundredths(meters: nat): (h: nat)
    ensures 10 * h <= meters + 5 && meters < 10 * h + 5
  {
    (meters + 5) / 10
  }

  /** Rounding to hundredths never decreases when the distance grows. */
  lemma KmHundredthsMonotone(m1: nat, m2: nat)
    requires m1 <= m2
    ensures KmHundredths(m1) <= KmHundredths(m2)
  {
  }

  /** A longer trip never costs less with the same vehicle. */
  lemma PriceMonotone(d1: nat, d2: nat, vehicleType: string)
    requires d1 <= d2
    ensures Price(d1, vehicleType) <= Price(d2, vehicleType)
  {
    var r := Rate(vehicleType);
    assert d1 * r <= d2 * r by {
      assert (d2 - d1) * r >= 0;
    }
  }

  /** For the same distance, Comfort costs at least as much as Car, which costs at least as much as Bike. */
  lemma PriceVehicleOrder(d: nat)
    ensures Price(d, "Comfort") >= Price(d, "Car") >= Price(d, "Bike")
    ensures d > 0 ==> Price(d, "Comfort") > Price(d, "Car") > Price(d, "Bike") > 0
  {
  }

  /** Every known vehicle type costs at least as much as an unknown one. */
  lemma PriceUnknownIsFloor(d: nat, known: string, unknown: string)
    requires known in {"Bike", "Comfort", "Car"}
    requires unknown !in {"Bike", "Comfort", "Car"}
    ensures Price(d, unknown) == 0 <= Price(d, known)
  {
  }

  /**
   * A route of a whole number of kilometres shows that number with ".00" and
   * costs exactly kilometres times the rate, in rupees (so 2000 m by Bike is
   * 2.00 km and Rs 60.00).
   */
  lemma WholeKilometreQuote(km: nat, vehicleType: string)
    ensures KmHundredths(1000 * km) == 100 * km
    ensures Price(KmHundredths(1000 * km), vehicleType) == 100 * (km * Rate(vehicleType))
  {
    var h := KmHundredths(1000 * km);
    assert 10 * h <= 10 * (100 * km) + 5 && 10 * (100 * km) < 10 * h + 5;
    assert h == 100 * km;
  }
}
