/** The content the detail modal renders for a place (script.js:200-235):
    the static location table, the clamped disability ratings, and the
    rendered view with its three rating rows in a fixed order. */
module Detail {

  /** One entry of `locationsData`. */
  datatype Location = Location(title: string, description: string, services: seq<string>, mapUrl: string)

  /** A rating as the card hands it over: a parsed integer, `NaN`, or absent. */
  datatype RatingInput = Value(n: int) | NaN | Missing

  /** The `ratings` argument of `openDetailModal`. */
  datatype Ratings = Ratings(blind: RatingInput, hearing: RatingInput, mobility: RatingInput)

  /** One rendered `.rating-line`: its label and the number shown in the bar. */
  datatype RatingRow = RatingRow(name: string, value: int)

  /** What the detail modal displays once filled in. */
  datatype View = View(title: string, description: string, services: seq<string>, mapUrl: string, rows: seq<RatingRow>)

  /** The page's built-in location table. */
  const LocationsData: map<string, Location> := map[
    "pho24" := Location(
      "Phở 24 Restaurant",
      "Traditional phở restaurant chain. Fast service, modern ambiance, disability-friendly.",
      ["Sign language support", "Guide dog area", "Disability-friendly delivery"],
      "https://www.google.com/maps/dir/?api=1&destination=Ph%E1%BB%9F+24,+H%C3%A0+N%E1%BB%99i,+Vi%E1%BB%87t+Nam"),
    "vietduc" := Location(
      "Việt Đức Hospital",
      "Leading surgical hospital with wide pathways, multi-floor elevators, serving large patient volumes.",
      ["Sign language interpreter", "Wheelchairs at entrance", "Priority for people with disabilities"],
      "https://www.google.com/maps/dir/?api=1&destination=B%E1%BB%87nh+vi%E1%BB%87n+Vi%E1%BB%87t+%C4%90%E1%BB%A9c,+H%C3%A0+N%E1%BB%99i,+Vi%E1%BB%87t+Nam")
  ]

  /** `Math.max(0, Math.min(100, Number(value) || 0))`: a missing value or
      `NaN` is falsy and becomes 0; everything else is pinned into 0..100. */
  function Clamp(v: RatingInput): (r: int)
    ensures 0 <= r <= 100
    ensures !v.Value? ==> r == 0
    ensures v.Value? && 0 <= v.n <= 100 ==> r == v.n
    ensures v.Value? && v.n < 0 ==> r == 0
    ensures v.Value? && v.n > 100 ==> r == 100
  {
    match v
    case Value(n) => if n < 0 then 0 else if n > 100 then 100 else n
    case _ => 0
  }

  /** Clamping a value that is already displayed leaves it as it is. */
  lemma ClampIdempotent(v: RatingInput)
    ensures Clamp(Value(Clamp(v))) == Clamp(v)
  {
  }

  /** The closest value in 0..100 to `v`, `NaN` and absent counting as 0:
      an independent reading of `Clamp`. */
  lemma ClampIsNearest(v: RatingInput, x: int)
    requires 0 <= x <= 100
    ensures var n := if v.Value? then v.n else 0;
            Dist(Clamp(v), n) <= Dist(x, n)
  {
  }

  function Dist(a: int, b: int): nat {
    if a < b then b - a else a - b
  }

  const BlindLabel: string := "Blind"
  const HearingLabel: string := "Hearing"
  const MobilityLabel: string := "Mobility"

  /** The three rating rows, in the order the markup concatenates them. */
  function Rows(r: Ratings): (rows: seq<RatingRow>)
    ensures |rows| == 3
    ensures rows[0].name == BlindLabel && rows[1].name == HearingLabel && rows[2].name == MobilityLabel
    ensures rows[0].value == Clamp(r.blind)
    ensures rows[1].value == Clamp(r.hearing)
    ensures rows[2].value == Clamp(r.mobility)
    ensures forall i :: 0 <= i < |rows| ==> 0 <= rows[i].value <= 100
  {
    [RatingRow(BlindLabel, Clamp(r.blind)),
     RatingRow(HearingLabel, Clamp(r.hearing)),
     RatingRow(MobilityLabel, Clamp(r.mobility))]
  }

  /** Everything the modal shows for `loc`: its texts, its services replaced
      wholesale in order, its map link and the rating rows. */
  function Render(loc: Location, r: Ratings): (v: View)
    ensures v.title == loc.title && v.description == loc.description && v.mapUrl == loc.mapUrl
    ensures v.services == loc.services
    ensures v.rows == Rows(r)
  {
    View(loc.title, loc.description, loc.services, loc.mapUrl, Rows(r))
  }

  /** The scenario of ratings 80, 60 and 40: the bars show exactly those numbers. */
  lemma InRangeRatingsShownAsGiven()
    ensures var rows := Rows(Ratings(Value(80), Value(60), Value(40)));
            rows[0].value == 80 && rows[1].value == 60 && rows[2].value == 40
  {
  }

  /** Out-of-range and unparsable values are pinned before display. */
  lemma OutOfRangeRatingsPinned()
    ensures var rows := Rows(Ratings(Value(-5), Value(150), NaN));
            rows[0].value == 0 && rows[1].value == 100 && rows[2].value == 0
  {
  }
}
