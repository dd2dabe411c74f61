/** Turning the submitted service-address field (a base64-encoded Google
    geocoding result) into the serviceable-address record that Sonar's
    createServiceableAddress mutation takes. */
module AddressExtraction {
  import opened Php

  /** One entry of the geocoding result's `address_components`. */
  datatype Component = Component(types: seq<string>, longName: string, shortName: string)

  /** The decoded geocoding result: its components and its location. The
      coordinates are the source's `(string)` casts of floats, kept opaque. */
  datatype Geocode = Geocode(components: seq<Component>, latitude: string, longitude: string)

  /** A value in the address array: a string, or a list of strings
      (`network_site_ids`). */
  datatype Value = Text(text: string) | List(items: seq<string>)

  /** A PHP associative array of address parts, keyed by Sonar's field names. */
  type Address = map<string, Value>

  const AddressKeys: set<string> :=
    {"line1", "city", "subdivision", "zip", "country", "latitude", "longitude",
     "address_status_id", "network_site_ids"}

  /** `address_status_id` '1' means "ready for service". */
  const ReadyForService := "1"

  predicate HasType(c: Component, t: string) {
    t in c.types
  }

  /** What one component adds to `line1`: a street number followed by a
      space, then a route. */
  function Line1Part(c: Component): string {
    (if HasType(c, "street_number") then c.longName + " " else "")
    + (if HasType(c, "route") then c.longName else "")
  }

  /** `line1` after folding the given components in order. */
  function Line1(cs: seq<Component>): string {
    if |cs| == 0 then "" else Line1(cs[..|cs| - 1]) + Line1Part(cs[|cs| - 1])
  }

  /** The last component carrying type t: later components overwrite. */
  function LastWithType(cs: seq<Component>, t: string): Option<Component> {
    if |cs| == 0 then None
    else if HasType(cs[|cs| - 1], t) then Some(cs[|cs| - 1])
    else LastWithType(cs[..|cs| - 1], t)
  }

  function LongName(c: Option<Component>): string {
    if c.Some? then c.value.longName else ""
  }

  function ShortName(c: Option<Component>): string {
    if c.Some? then c.value.shortName else ""
  }

  /** `$decoded['full']['address_components']`: a value that did not decode
      to a geocoding result has none, and `foreach` over null runs no
      iteration. */
  function ComponentsOf(g: Option<Geocode>): seq<Component> {
    if g.Some? then g.value.components else []
  }

  function LatitudeOf(g: Option<Geocode>): string {
    if g.Some? then g.value.latitude else ""
  }

  function LongitudeOf(g: Option<Geocode>): string {
    if g.Some? then g.value.longitude else ""
  }

  /** The address record processAddressField returns for a decoded value. */
  function ExtractedAddress(g: Option<Geocode>): Address {
    var cs := ComponentsOf(g);
    var country := ShortName(LastWithType(cs, "country"));
    var state := ShortName(LastWithType(cs, "administrative_area_level_1"));
    map[
      "line1" := Text(Line1(cs)),
      "city" := Text(LongName(LastWithType(cs, "locality"))),
      "subdivision" := Text(country + "_" + state),
      "zip" := Text(LongName(LastWithType(cs, "postal_code"))),
      "country" := Text(country),
      "latitude" := Text(LatitudeOf(g)),
      "longitude" := Text(LongitudeOf(g)),
      "address_status_id" := Text(ReadyForService),
      "network_site_ids" := List([])
    ]
  }

  /** processAddressField: decode the field's value (an oracle standing for
      `json_decode(base64_decode(...))`), then fold the components into
      line1, city, country, state and postcode. */
  method ProcessAddressField(value: Option<string>, decode: string -> Option<Geocode>)
    returns (address: Address)
    ensures address == ExtractedAddress(decode(ToStr(value)))
  {
    var decoded := decode(ToStr(value));
    var components := ComponentsOf(decoded);
    var line1, state, country, city, postcode := "", "", "", "", "";
    var i := 0;
    while i < |components|
      invariant 0 <= i <= |components|
      invariant line1 == Line1(components[..i])
      invariant city == LongName(LastWithType(components[..i], "locality"))
      invariant country == ShortName(LastWithType(components[..i], "country"))
      invariant state == ShortName(LastWithType(components[..i], "administrative_area_level_1"))
      invariant postcode == LongName(LastWithType(components[..i], "postal_code"))
    {
      var component := components[i];
      if HasType(component, "street_number") {
        line1 := line1 + component.longName + " ";
      }
      if HasType(component, "route") {
        line1 := line1 + component.longName;
      }
      if HasType(component, "locality") {
        city := component.longName;
      }
      if HasType(component, "country") {
        country := component.shortName;
      }
      if HasType(component, "administrative_area_level_1") {
        state := component.shortName;
      }
      if HasType(component, "postal_code") {
        postcode := component.longName;
      }
      assert components[..i + 1][..i] == components[..i];
      i := i + 1;
    }
    assert components[..i] == components;
    address := map[
      "line1" := Text(line1),
      "city" := Text(city),
      "subdivision" := Text(country + "_" + state),
      "zip" := Text(postcode),
      "country" := Text(country),
      "latitude" := Text(LatitudeOf(decoded)),
      "longitude" := Text(LongitudeOf(decoded)),
      "address_status_id" := Text(ReadyForService),
      "network_site_ids" := List([])
    ];
  }

  /** The extracted record has exactly the nine keys Sonar expects and no
      `line2`; the subdivision is always country, "_", state; the status and
      site list are the fixed placeholders. */
  lemma ExtractedAddressShape(g: Option<Geocode>)
    ensures var a := ExtractedAddress(g);
      && a.Keys == AddressKeys
      && "line2" !in a
      && a["subdivision"] == Text(a["country"].text + "_"
           + ShortName(LastWithType(ComponentsOf(g), "administrative_area_level_1")))
      && a["address_status_id"] == Text(ReadyForService)
      && a["network_site_ids"] == List([])
  {
  }

  /** A value that does not decode has no components: foreach over null runs
      no iteration and nothing throws, so the record is made of empty parts
      with the fixed subdivision separator, status and site list. */
  lemma UndecodedAddress()
    ensures var a := ExtractedAddress(None);
      && a["line1"] == Text("") && a["city"] == Text("") && a["zip"] == Text("")
      && a["country"] == Text("") && a["subdivision"] == Text("_")
      && a["latitude"] == Text("") && a["longitude"] == Text("")
      && a["address_status_id"] == Text(ReadyForService)
      && a["network_site_ids"] == List([])
  {
  }

  /** The last-wins rule: the chosen component carries the type and no later
      component does; nothing is chosen exactly when no component carries
      it, in which case the address field is "". */
  lemma {:induction false} LastWithTypeIsLast(cs: seq<Component>, t: string)
    ensures LastWithType(cs, t).None? <==> forall j :: 0 <= j < |cs| ==> !HasType(cs[j], t)
    ensures LastWithType(cs, t).None? ==>
              LongName(LastWithType(cs, t)) == "" && ShortName(LastWithType(cs, t)) == ""
    ensures LastWithType(cs, t).Some? ==>
              exists j :: 0 <= j < |cs| && cs[j] == LastWithType(cs, t).value && HasType(cs[j], t)
                          && forall k :: j < k < |cs| ==> !HasType(cs[k], t)
  {
    if |cs| > 0 {
      var init := cs[..|cs| - 1];
      LastWithTypeIsLast(init, t);
      if !HasType(cs[|cs| - 1], t) {
        assert forall j :: 0 <= j < |init| ==> init[j] == cs[j];
        if LastWithType(init, t).Some? {
          var j :| 0 <= j < |init| && init[j] == LastWithType(init, t).value && HasType(init[j], t)
                   && forall k :: j < k < |init| ==> !HasType(init[k], t);
          assert cs[j] == LastWithType(cs, t).value;
          assert forall k :: j < k < |cs| ==> !HasType(cs[k], t);
        }
      }
    }
  }

  /** line1 is built in component order: the fold over a concatenation is
      the concatenation of the folds. */
  lemma {:induction false} Line1Append(a: seq<Component>, b: seq<Component>)
    ensures Line1(a + b) == Line1(a) + Line1(b)
    decreases |b|
  {
    if |b| == 0 {
      assert a + b == a;
    } else {
      var b' := b[..|b| - 1];
      Line1Append(a, b');
      assert (a + b)[..|a + b| - 1] == a + b';
    }
  }

  /** The first component's contribution comes first in line1. */
  lemma Line1Cons(c: Component, rest: seq<Component>)
    ensures Line1([c] + rest) == Line1Part(c) + Line1(rest)
  {
    Line1Append([c], rest);
    assert [c][..0] == [];
  }

  /** Components carrying neither street_number nor route leave line1 "". */
  lemma {:induction false} Line1WithoutStreetParts(cs: seq<Component>)
    requires forall j :: 0 <= j < |cs| ==> !HasType(cs[j], "street_number") && !HasType(cs[j], "route")
    ensures Line1(cs) == ""
  {
    if |cs| > 0 {
      Line1WithoutStreetParts(cs[..|cs| - 1]);
    }
  }
}
