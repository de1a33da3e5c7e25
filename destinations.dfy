/**
 * `formatDestinations`, written identically in the header and on the
 * dashboard: each destination as its cities joined by ", " followed by the
 * country in parentheses, or as the country alone when the cities join to
 * nothing, and the destinations joined by " • ".
 *
 * A trip stores its destinations as an array of `{country, cities}`
 * objects; `Encode` and `Decode` move between that value and the typed list.
 */
module Destinations {
  import opened Values

  datatype Destination = Destination(country: string, cities: seq<string>)

  const CitySeparator := ", "
  const DestinationSeparator := " • "

  /** One destination: `cities ? \`${cities} (${country})\` : country`. */
  function FormatOne(d: Destination): (r: string)
    ensures Join(d.cities, CitySeparator) == "" ==> r == d.country
    ensures Join(d.cities, CitySeparator) != "" ==> r == Join(d.cities, CitySeparator) + " (" + d.country + ")"
  {
    var cities := Join(d.cities, CitySeparator);
    if cities != "" then cities + " (" + d.country + ")" else d.country
  }

  /** `destinations.map(...)`: each destination formatted, in order. */
  function FormatEach(ds: seq<Destination>): (r: seq<string>)
    ensures |r| == |ds|
    ensures forall i | 0 <= i < |ds| :: r[i] == FormatOne(ds[i])
  {
    seq(|ds|, i requires 0 <= i < |ds| => FormatOne(ds[i]))
  }

  /** `formatDestinations(destinations)`: empty for a missing or empty list. */
  function Format(destinations: Option<seq<Destination>>): (r: string)
    ensures destinations.None? || |destinations.value| == 0 ==> r == ""
  {
    if destinations.None? || |destinations.value| == 0 then ""
    else Join(FormatEach(destinations.value), DestinationSeparator)
  }

  /** A destination shows its country alone exactly when it has no city, or only one city and that one empty. */
  lemma CountryAlone(d: Destination)
    ensures FormatOne(d) == d.country <==> (|d.cities| <= 1 && forall i | 0 <= i < |d.cities| :: d.cities[i] == "")
  {
    JoinEmpty(d.cities, CitySeparator);
    if Join(d.cities, CitySeparator) != "" {
      var cities := Join(d.cities, CitySeparator);
      assert |FormatOne(d)| == |cities| + 2 + |d.country| + 1;
    }
  }

  /** n destinations are separated by exactly n - 1 separators. */
  lemma FormatLength(ds: seq<Destination>)
    requires |ds| > 0
    ensures |Format(Some(ds))| == TotalLength(FormatEach(ds)) + (|ds| - 1) * |DestinationSeparator|
  {
    JoinLength(FormatEach(ds), DestinationSeparator);
  }

  /** Destinations keep their order: one more destination adds a separator and its text at the end. */
  lemma {:induction false} FormatAppend(ds: seq<Destination>, d: Destination)
    requires |ds| > 0
    ensures Format(Some(ds + [d])) == Format(Some(ds)) + DestinationSeparator + FormatOne(d)
  {
    JoinAppend(FormatEach(ds), FormatOne(d), DestinationSeparator);
    assert FormatEach(ds + [d]) == FormatEach(ds) + [FormatOne(d)];
  }

  lemma {:induction false} JoinAppend(parts: seq<string>, last: string, sep: string)
    requires |parts| > 0
    ensures Join(parts + [last], sep) == Join(parts, sep) + sep + last
  {
    if |parts| > 1 {
      assert (parts + [last])[1..] == parts[1..] + [last];
      JoinAppend(parts[1..], last, sep);
    }
  }

  // ---------------------------------------------------------------------
  // Stored form

  function EncodeOne(d: Destination): Value
  {
    Obj(map["country" := Str(d.country), "cities" := Arr(EncodeStrings(d.cities))])
  }

  /** The destinations as a trip record holds them. */
  function Encode(ds: seq<Destination>): (r: Value)
    ensures r.Arr? && |r.items| == |ds|
  {
    if ds == [] then Arr([]) else Arr([EncodeOne(ds[0])] + Encode(ds[1..]).items)
  }

  function DecodeOne(v: Value): Option<Destination>
  {
    if !v.Obj? || "country" !in v.fields || "cities" !in v.fields then None
    else if !v.fields["country"].Str? || !v.fields["cities"].Arr? then None
    else
      var cities := DecodeStrings(v.fields["cities"].items);
      if cities.None? then None else Some(Destination(v.fields["country"].s, cities.value))
  }

  /** The typed list a stored destinations value stands for; `None` when it is not such a list. */
  function Decode(v: Value): Option<seq<Destination>>
  {
    if !v.Arr? then None else DecodeList(v.items)
  }

  function DecodeList(vs: seq<Value>): Option<seq<Destination>>
  {
    if vs == [] then Some([])
    else
      var d := DecodeOne(vs[0]);
      var rest := DecodeList(vs[1..]);
      if d.None? || rest.None? then None else Some([d.value] + rest.value)
  }

  /** What the trip form stores is exactly what the header and the dashboard format. */
  lemma {:induction false} RoundTrip(ds: seq<Destination>)
    ensures Decode(Encode(ds)) == Some(ds)
  {
    if ds != [] {
      StringsRoundTrip(ds[0].cities);
      assert DecodeOne(EncodeOne(ds[0])) == Some(ds[0]);
      var items := Encode(ds).items;
      assert items[0] == EncodeOne(ds[0]);
      assert items[1..] == Encode(ds[1..]).items;
      RoundTrip(ds[1..]);
      assert DecodeList(items[1..]) == Some(ds[1..]);
      assert ds == [ds[0]] + ds[1..];
    }
  }
}
