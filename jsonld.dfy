/** `parseJsonLd`: the reduction of a page's embedded structured data
    (schema.org JSON-LD blocks, already parsed) to the fields of a listing.
    Strings stand for JavaScript values coerced with `String`; the empty
    string stands for a missing or falsy value, which every test in the
    reduction treats alike. */
module JsonLd {
  import opened Seqs
  import opened JsText
  import JsNumber

  // -------------------------------------------------------------- data

  /** A JSON leaf: missing (`undefined`/`null`), a number, or a string. */
  datatype Leaf = Absent | Num(x: real) | Str(s: string)

  /** A bedroom or bathroom field: a leaf, or an object such as a
      `QuantitativeValue` with `value` and `minValue`. */
  datatype Field = Plain(leaf: Leaf) | Obj(value: Leaf, minValue: Leaf)

  datatype Address = Address(street: string, locality: string, region: string, postalCode: string)

  /** An `amenityFeature` item: its `name`, `propertyID` and `value`. */
  datatype AmenityItem = AmenityItem(name: string, propertyID: string, value: string)

  /** A property the reduction calls `.trim()` on: a string (the empty
      string for a missing or falsy value), or a truthy value that is not a
      string (a number, an object, an array, `true`), which has no `trim`. */
  datatype Prop = Text(s: string) | NonText

  predicate TruthyProp(p: Prop) {
    p.NonText? || p.s != ""
  }

  function TextOf(p: Prop): string {
    match p case Text(s) => s case NonText => ""
  }

  /** A JSON object of the data. `typeName` is `e['@type'] || ''` as the
      regular expressions see it; `address` is present when `e.address` is
      truthy (a string address has no parts); `priceSpec` is the `price` of
      a present `priceSpecification`; `numbers` holds the fields by name;
      `amenityFeature` is present when it is an array. */
  datatype Entity = Entity(
    typeName: string,
    address: Option<Address>,
    description: Prop,
    name: Prop,
    price: string,
    priceSpec: Option<string>,
    numbers: map<string, Field>,
    amenityFeature: Option<seq<AmenityItem>>,
    itemListElement: seq<Value>)

  /** An array element: an object, `null`, or any other value (a number, a
      string, a boolean). No step of the reduction picks up a non-object,
      but a search predicate that reads a property of `null` throws. */
  datatype Value = Object(e: Entity) | Null | Scalar

  /** One `<script type="application/ld+json">` after `JSON.parse`: an
      array, an object whose `@graph` is an array, another object, or
      anything else (including text that does not parse). */
  datatype Block = ArrayBlock(elems: seq<Value>) | GraphBlock(graph: seq<Value>) | ObjectBlock(e: Entity) | OtherBlock

  /** `results`; the empty string stands for `null`. */
  datatype Structured = Structured(
    address: string,
    beds: Option<real>,
    baths: Option<real>,
    price: string,
    description: string,
    amenities: seq<string>,
    zip: string)

  predicate NonEmpty(s: string) { s != [] }

  // ---------------------------------------------------------- entities

  /** What one block pushes into `entities`. */
  function BlockEntities(b: Block): seq<Value> {
    match b
    case ArrayBlock(elems) => elems
    case GraphBlock(graph) => graph
    case ObjectBlock(e) => [Object(e)]
    case OtherBlock => []
  }

  function Entities(blocks: seq<Block>): seq<Value> {
    if blocks == [] then []
    else Entities(blocks[..|blocks| - 1]) + BlockEntities(blocks[|blocks| - 1])
  }

  /** `entities.flatMap(...)`: each object followed by the items of its
      `itemListElement`; non-objects are dropped. */
  function Flat(values: seq<Value>): (r: seq<Value>)
    ensures forall v :: v in r <==> (v in values && v.Object?) || exists e :: Object(e) in values && v in e.itemListElement
  {
    if values == [] then []
    else
      var first := match values[0] case Object(e) => [values[0]] + e.itemListElement case _ => [];
      assert forall e :: Object(e) in values <==> Object(e) == values[0] || Object(e) in values[1..];
      first + Flat(values[1..])
  }

  /** The objects of a sequence of values, in order. */
  function Objects(values: seq<Value>): (r: seq<Entity>)
    ensures forall e :: e in r <==> Object(e) in values
  {
    if values == [] then []
    else (match values[0] case Object(e) => [e] case _ => []) + Objects(values[1..])
  }

  // ------------------------------------------------------ place, offer

  const PlaceTypes: set<string> :=
    {"apartment", "house", "residence", "accommodation", "singlefamilyresidence", "place", "organization"}

  /** `/^(Apartment|House|Residence|Accommodation|SingleFamilyResidence|Place|Organization)$/i` */
  predicate IsPlaceType(v: Value) {
    v.Object? && Lower(v.e.typeName) in PlaceTypes
  }

  predicate HasAddress(v: Value) {
    v.Object? && v.e.address.Some?
  }

  /** The first object of a place type, else the first object with an
      address. */
  function FindPlace(flat: seq<Value>): (r: Option<Entity>)
    ensures r.Some? ==> exists i :: 0 <= i < |flat| && flat[i] == Object(r.value) && (IsPlaceType(flat[i]) || HasAddress(flat[i]))
    ensures r.None? <==> forall v :: v in flat ==> !IsPlaceType(v) && !HasAddress(v)
    ensures (exists v :: v in flat && IsPlaceType(v)) ==> r.Some? && Lower(r.value.typeName) in PlaceTypes
    ensures (exists v :: v in flat && IsPlaceType(v)) ==>
              exists i :: 0 <= i < |flat| && IsPlaceType(flat[i]) && r == Some(flat[i].e)
                          && forall j :: 0 <= j < i ==> !IsPlaceType(flat[j])
    ensures (forall v :: v in flat ==> !IsPlaceType(v)) && r.Some? ==>
              exists i :: 0 <= i < |flat| && HasAddress(flat[i]) && r == Some(flat[i].e)
                          && forall j :: 0 <= j < i ==> !HasAddress(flat[j])
  {
    match FindIndex(flat, IsPlaceType)
    case Some(i) => Some(flat[i].e)
    case None =>
      match FindIndex(flat, HasAddress)
      case Some(i) => Some(flat[i].e)
      case None => None
  }

  predicate IsNull(v: Value) { v.Null? }

  /** `flat.find(p)` with a predicate that reads a property of its argument
      throws a `TypeError` when it reaches a `null` before an element that
      satisfies it. */
  predicate FindThrows(flat: seq<Value>, p: Value -> bool) {
    var k := FindIndex(flat, (v: Value) => v.Null? || p(v));
    k.Some? && flat[k.value].Null?
  }

  /** `find` throws exactly when a `null` comes before every element that
      satisfies the predicate. */
  lemma FindThrowsSpec(flat: seq<Value>, p: Value -> bool)
    requires forall v :: p(v) ==> v.Object?
    ensures FindThrows(flat, p) <==>
              exists n :: 0 <= n < |flat| && flat[n].Null? && forall j :: 0 <= j < n ==> !p(flat[j])
  {
    var q := (v: Value) => v.Null? || p(v);
    var k := FindIndex(flat, q);
    if k.Some? && flat[k.value].Null? {
      assert forall j :: 0 <= j < k.value ==> !q(flat[j]);
    }
    if !FindThrows(flat, p) {
      forall n | 0 <= n < |flat| && flat[n].Null?
        ensures exists j :: 0 <= j < n && p(flat[j])
      {
        assert q(flat[n]);
        var i := k.value;
        assert i <= n && !flat[i].Null? && q(flat[i]);
        assert p(flat[i]);
        assert i != n;
      }
    }
  }

  /** `e.price || e.priceSpecification?.price` */
  function OfferPrice(e: Entity): string {
    if e.price != "" then e.price
    else match e.priceSpec case Some(p) => p case None => ""
  }

  /** `/Offer/i.test(e['@type'] || '') && (e.price || (e.priceSpecification && e.priceSpecification.price))` */
  predicate IsOffer(v: Value) {
    v.Object? && ContainsCI(v.e.typeName, "offer") && OfferPrice(v.e) != ""
  }

  /** The structured price: the first offer's price with thousands commas
      inserted by `replace(/\B(?=(\d{3})+(?!\d))/g, ',')`, after a "$". */
  function OfferPriceText(flat: seq<Value>): (r: string)
    ensures r != "" <==> exists v :: v in flat && IsOffer(v)
  {
    match FindIndex(flat, IsOffer)
    case Some(i) => "$" + GroupThousands(OfferPrice(flat[i].e))
    case None => ""
  }

  // ------------------------------------------------------ bed and bath

  const BedFields: seq<string> := ["numberOfBedrooms", "bedroomCount", "bedrooms", "numberOfRooms"]
  const BathFields: seq<string> := ["numberOfBathroomsTotal", "numberOfBathrooms", "bathroomCount", "bathrooms"]

  function Lookup(e: Entity, k: string): Field {
    if k in e.numbers then e.numbers[k] else Plain(Absent)
  }

  predicate Truthy(l: Leaf) {
    match l
    case Absent => false
    case Num(x) => x != 0.0
    case Str(s) => s != ""
  }

  /** `parseFloat` of a leaf, `None` for a missing leaf or NaN. */
  function LeafNumber(l: Leaf): Option<real> {
    match l
    case Absent => None
    case Num(x) => Some(x)
    case Str(s) => JsNumber.ParseFloat(s)
  }

  /** `n = typeof v === 'object' ? v?.value || v?.minValue : v`, then
      `n != null && !Number.isNaN(parseFloat(n))`. */
  function FieldNumber(f: Field): Option<real> {
    match f
    case Plain(l) => LeafNumber(l)
    case Obj(value, minValue) => LeafNumber(if Truthy(value) then value else minValue)
  }

  /** The inner `for (const k of fields) ... break`: the number of the first
      field in the priority list that has one. */
  function FirstNumber(e: Entity, fields: seq<string>): Option<real>
  {
    if fields == [] then None
    else
      var n := FieldNumber(Lookup(e, fields[0]));
      if n.Some? then n else FirstNumber(e, fields[1..])
  }

  /** The field priority: the result is `None` exactly when no field has a
      number, and otherwise the number of a field no earlier one has. */
  lemma {:induction false} FirstNumberSpec(e: Entity, fields: seq<string>)
    ensures var r := FirstNumber(e, fields);
            r.None? <==> forall i :: 0 <= i < |fields| ==> FieldNumber(Lookup(e, fields[i])).None?
    ensures var r := FirstNumber(e, fields);
            r.Some? ==> exists i :: 0 <= i < |fields| && FieldNumber(Lookup(e, fields[i])) == r
                          && forall j :: 0 <= j < i ==> FieldNumber(Lookup(e, fields[j])).None?
  {
    if fields != [] && FieldNumber(Lookup(e, fields[0])).None? {
      FirstNumberSpec(e, fields[1..]);
      assert forall i :: 1 <= i < |fields| ==> fields[i] == fields[1..][i - 1];
      var r := FirstNumber(e, fields[1..]);
      if r.Some? {
        var i :| 0 <= i < |fields[1..]| && FieldNumber(Lookup(e, fields[1..][i])) == r
               && forall j :: 0 <= j < i ==> FieldNumber(Lookup(e, fields[1..][j])).None?;
        assert FieldNumber(Lookup(e, fields[i + 1])) == r;
      }
    }
  }

  /** The value the outer loop leaves: every entity with a number
      overwrites the previous one, so the last such entity wins. */
  function LastNumber(cands: seq<Entity>, fields: seq<string>): Option<real>
  {
    if cands == [] then None
    else
      var n := FirstNumber(cands[|cands| - 1], fields);
      if n.Some? then n else LastNumber(cands[..|cands| - 1], fields)
  }

  /** Last entity wins: the result is `None` exactly when no candidate has
      a number, and otherwise the number of a candidate no later one has. */
  lemma {:induction false} LastNumberSpec(cands: seq<Entity>, fields: seq<string>)
    ensures var r := LastNumber(cands, fields);
            r.None? <==> forall i :: 0 <= i < |cands| ==> FirstNumber(cands[i], fields).None?
    ensures var r := LastNumber(cands, fields);
            r.Some? ==> exists i :: 0 <= i < |cands| && FirstNumber(cands[i], fields) == r
                          && forall j :: i < j < |cands| ==> FirstNumber(cands[j], fields).None?
  {
    if cands != [] {
      var front := cands[..|cands| - 1];
      if FirstNumber(cands[|cands| - 1], fields).None? {
        LastNumberSpec(front, fields);
        assert forall i :: 0 <= i < |front| ==> cands[i] == front[i];
        var r := LastNumber(front, fields);
        if r.Some? {
          var i :| 0 <= i < |front| && FirstNumber(front[i], fields) == r
                 && forall j :: i < j < |front| ==> FirstNumber(front[j], fields).None?;
          assert FirstNumber(cands[i], fields) == r;
        }
      }
    }
  }

  // --------------------------------------------------------- amenities

  /** `af?.name || af?.propertyID || af?.value` */
  function AmenityName(af: AmenityItem): string {
    if af.name != "" then af.name else if af.propertyID != "" then af.propertyID else af.value
  }

  /** What one `amenityFeature` array pushes: the trimmed name of every item
      that has one. */
  function ItemNames(items: seq<AmenityItem>): seq<string>
  {
    if items == [] then []
    else
      var af := items[|items| - 1];
      ItemNames(items[..|items| - 1]) + ItemName(af)
  }

  /** What one item pushes: `if (name) push(String(name).trim())`. */
  function ItemName(af: AmenityItem): seq<string> {
    var name := AmenityName(af);
    if name != "" then [Trim(name)] else []
  }

  lemma {:induction false} ItemNamesSource(items: seq<AmenityItem>, x: string)
    requires x in ItemNames(items)
    ensures exists af :: af in items && AmenityName(af) != "" && x == Trim(AmenityName(af))
  {
    var front := items[..|items| - 1];
    var af := items[|items| - 1];
    if x in ItemNames(front) {
      ItemNamesSource(front, x);
      var a :| a in front && AmenityName(a) != "" && x == Trim(AmenityName(a));
      assert a in items;
    } else {
      assert af in items;
    }
  }

  function EntityAmenities(e: Entity): seq<string> {
    match e.amenityFeature case Some(items) => ItemNames(items) case None => []
  }

  /** Every name the outer loop pushes, in push order. */
  function RawAmenities(cands: seq<Entity>): seq<string>
  {
    if cands == [] then []
    else RawAmenities(cands[..|cands| - 1]) + EntityAmenities(cands[|cands| - 1])
  }

  /** Every raw name is the trimmed name of an `amenityFeature` item of a
      candidate. */
  lemma {:induction false} RawAmenitySource(cands: seq<Entity>, x: string)
    requires x in RawAmenities(cands)
    ensures exists e, af :: e in cands && e.amenityFeature.Some? && af in e.amenityFeature.value
                            && AmenityName(af) != "" && x == Trim(AmenityName(af))
  {
    var front := cands[..|cands| - 1];
    var e := cands[|cands| - 1];
    if x in RawAmenities(front) {
      RawAmenitySource(front, x);
      var e', af :| e' in front && e'.amenityFeature.Some? && af in e'.amenityFeature.value
                    && AmenityName(af) != "" && x == Trim(AmenityName(af));
      assert e' in cands;
    } else {
      assert e in cands;
      ItemNamesSource(e.amenityFeature.value, x);
    }
  }

  /** `Array.from(new Set(raw)).filter(Boolean)` */
  function CleanAmenities(raw: seq<string>): seq<string> {
    Filter(Dedup(raw), NonEmpty)
  }

  /** The cleaned amenities hold no duplicate and no empty name, are
      exactly the non-empty raw names, and keep the order in which the names
      were first pushed. */
  lemma {:induction false} CleanAmenitiesSpec(raw: seq<string>)
    ensures NoDup(CleanAmenities(raw))
    ensures "" !in CleanAmenities(raw)
    ensures forall x :: x in CleanAmenities(raw) <==> x in raw && x != ""
    ensures forall i, j :: 0 <= i < j < |CleanAmenities(raw)| ==>
              FirstIndex(raw, CleanAmenities(raw)[i]) < FirstIndex(raw, CleanAmenities(raw)[j])
  {
    var d := Dedup(raw);
    var a := CleanAmenities(raw);
    FilterNoDup(d, NonEmpty);
    forall i, j | 0 <= i < j < |a|
      ensures FirstIndex(raw, a[i]) < FirstIndex(raw, a[j])
    {
      FilterOrder(d, NonEmpty, i, j);
      var i': nat, j': nat :| i' < j' < |d| && d[i'] == a[i] && d[j'] == a[j];
      DedupFirstSeenOrder(raw, i', j');
    }
  }

  /** Every structured amenity is the trimmed name of some `amenityFeature`
      item of a place or object of the data. */
  lemma StructuredAmenitySource(blocks: seq<Block>, x: string)
    requires StructuredData(blocks).Some? && x in StructuredData(blocks).value.amenities
    ensures var flat := Flat(Entities(blocks));
            exists e, af :: e in Candidates(FindPlace(flat), flat) && e.amenityFeature.Some?
                            && af in e.amenityFeature.value && AmenityName(af) != "" && x == Trim(AmenityName(af))
  {
    var flat := Flat(Entities(blocks));
    var raw := RawAmenities(Candidates(FindPlace(flat), flat));
    CleanAmenitiesSpec(raw);
    RawAmenitySource(Candidates(FindPlace(flat), flat), x);
  }

  /** ["Gym", "Gym", "Pool"] becomes ["Gym", "Pool"]. */
  lemma {:induction false} DuplicateAmenityDropped()
    ensures CleanAmenities(["Gym", "Gym", "Pool"]) == ["Gym", "Pool"]
  {
    var raw := ["Gym", "Gym", "Pool"];
    assert raw[..2][..1] == ["Gym"];
    assert Dedup(["Gym"]) == ["Gym"];
    assert raw[..2] == ["Gym", "Gym"];
    assert Dedup(raw[..2]) == ["Gym"];
    assert raw[..|raw| - 1] == raw[..2];
    assert Dedup(raw) == ["Gym", "Pool"];
    assert NonEmpty("Gym") && NonEmpty("Pool");
    assert ["Gym", "Pool"][1..] == ["Pool"];
  }

  /** An offer price written as plain digits comes out "$" and the digits
      grouped by three from the right. */
  lemma OfferPriceDigits(flat: seq<Value>, i: nat)
    requires i < |flat| && IsOffer(flat[i]) && forall j :: 0 <= j < i ==> !IsOffer(flat[j])
    requires AllDigits(OfferPrice(flat[i].e))
    ensures OfferPriceText(flat) == "$" + Grouped(OfferPrice(flat[i].e))
  {
    GroupThousandsDigits(OfferPrice(flat[i].e));
    assert FindIndex(flat, IsOffer) == Some(i);
  }

  // ---------------------------------------------------------- the reduction

  /** `parts.filter(Boolean).join(', ')` over the four address parts, or
      `null`. */
  function AddressLine(a: Address): (r: string)
    ensures r == "" <==> a.street == "" && a.locality == "" && a.region == "" && a.postalCode == ""
  {
    var parts := Filter([a.street, a.locality, a.region, a.postalCode], NonEmpty);
    assert a.street != "" ==> a.street in parts;
    assert a.locality != "" ==> a.locality in parts;
    assert a.region != "" ==> a.region in parts;
    assert a.postalCode != "" ==> a.postalCode in parts;
    if parts == [] then ""
    else
      assert parts[0] in parts;
      JoinNonEmpty(parts, ", ")
  }

  /** `parts.join(sep)` of non-empty parts is not empty. */
  function JoinNonEmpty(parts: seq<string>, sep: string): (r: string)
    requires parts != [] && forall p :: p in parts ==> NonEmpty(p)
    ensures r == Join(parts, sep) && r != ""
  {
    assert parts[0] in parts;
    assert NonEmpty(parts[0]);
    assert |parts[0]| > 0;
    if |parts| == 1 then parts[0]
    else
      assert Join(parts, sep) == parts[0] + sep + Join(parts[1..], sep);
      Join(parts, sep)
  }

  /** The place first, then every object of `flat`. */
  function Candidates(place: Option<Entity>, flat: seq<Value>): seq<Entity> {
    (if place.Some? then [place.value] else []) + Objects(flat)
  }

  /** `results` after `parseJsonLd` has run, or `None` when it throws: the
      search for the place or for the offer reaches a `null` item, or the
      place's description or name has no `trim`. (When the search by type
      finds nothing without throwing, there is no `null` at all and the
      search by address cannot throw.) */
  function StructuredData(blocks: seq<Block>): (r: Option<Structured>) {
    var flat := Flat(Entities(blocks));
    var place := FindPlace(flat);
    var cands := Candidates(place, flat);
    if Throws(flat) then None
    else
      var (address, zip, description) := PlaceTexts(place);
      Some(Structured(address, LastNumber(cands, BedFields), LastNumber(cands, BathFields),
                      OfferPriceText(flat), description, CleanAmenities(RawAmenities(cands)), zip))
  }

  predicate Throws(flat: seq<Value>) {
    FindThrows(flat, IsPlaceType) || TrimThrows(FindPlace(flat)) || FindThrows(flat, IsOffer)
  }

  /** `(place.description || '').trim()` and, when the address is still
      empty, `(place.name || '').trim()`, run when the place has a truthy
      description or name: they throw when the value is not a string. */
  predicate TrimThrows(place: Option<Entity>) {
    && Named(place)
    && (place.value.description.NonText? || (PlaceAddress(place) == "" && place.value.name.NonText?))
  }

  /** The address line of the place's address, "" for none. */
  function PlaceAddress(place: Option<Entity>): string {
    if place.Some? && place.value.address.Some? then AddressLine(place.value.address.value) else ""
  }

  /** The address, ZIP and description the place gives: the address line and
      the trimmed postal code of its address, its trimmed description, and its
      trimmed name as the address when it has a description or a name but
      the address line is empty. */
  function PlaceTexts(place: Option<Entity>): (string, string, string) {
    var address0 := PlaceAddress(place);
    var address := if Named(place) && address0 == "" then Trim(TextOf(place.value.name)) else address0;
    (address, PlaceZip(place), PlaceDescription(place))
  }

  /** `place && (place.description || place.name)` */
  predicate Named(place: Option<Entity>) {
    place.Some? && (TruthyProp(place.value.description) || TruthyProp(place.value.name))
  }

  /** The trimmed postal code of the place's address, "" for none. */
  function PlaceZip(place: Option<Entity>): string {
    if place.Some? && place.value.address.Some? && place.value.address.value.postalCode != ""
    then Trim(place.value.address.value.postalCode) else ""
  }

  function PlaceDescription(place: Option<Entity>): string {
    if Named(place) then Trim(TextOf(place.value.description)) else ""
  }

  /** The data of one object block: the object and its list items. */
  lemma SingleObjectFlat(e: Entity)
    ensures Flat(Entities([ObjectBlock(e)])) == [Object(e)] + e.itemListElement
  {
    assert [ObjectBlock(e)][..0] == [];
    assert Entities([ObjectBlock(e)]) == [Object(e)];
    assert [Object(e)][1..] == [];
  }

  /** A `null` in the `itemListElement` of an object that is not of a place
      type makes the search for the place throw: `parseJsonLd` gives no
      result. */
  lemma NullItemThrows(e: Entity)
    requires !IsPlaceType(Object(e)) && e.itemListElement == [Null]
    ensures StructuredData([ObjectBlock(e)]).None?
  {
    SingleObjectFlat(e);
    var flat := [Object(e), Null];
    var q := (v: Value) => v.Null? || IsPlaceType(v);
    assert !q(flat[0]) && q(flat[1]);
    assert FindIndex(flat, q) == Some(1);
  }

  /** A place whose description is a truthy non-string, such as a number,
      makes `(place.description || '').trim()` throw. */
  lemma NonTextDescriptionThrows(e: Entity)
    requires IsPlaceType(Object(e)) && e.description.NonText? && e.itemListElement == []
    ensures StructuredData([ObjectBlock(e)]).None?
  {
    SingleObjectFlat(e);
    var flat := [Object(e)];
    assert flat[0] == Object(e) && IsPlaceType(flat[0]);
    assert FindIndex(flat, IsPlaceType) == Some(0);
    assert FindPlace(flat) == Some(e);
  }

  // ----------------------------------------------------------- methods

  /** `parseJsonLd()` over the parsed blocks. */
  method ParseJsonLd(blocks: seq<Block>) returns (results: Option<Structured>)
    ensures results == StructuredData(blocks)
  {
    var entities := CollectEntities(blocks);
    var flat := Flat(entities);
    if FindThrows(flat, IsPlaceType) {
      return None;
    }
    var place := FindPlace(flat);
    var threw, address, zip, description := ReadPlace(place);
    if threw || FindThrows(flat, IsOffer) {
      return None;
    }
    var price := OfferPriceText(flat);
    var beds, baths, raw := ScanCandidates(Candidates(place, flat));
    results := Some(Structured(address, beds, baths, price, description, CleanAmenities(raw), zip));
  }

  /** The assignments from the place's address, description and name;
      `threw` when a `trim` has nothing to call. */
  method ReadPlace(place: Option<Entity>) returns (threw: bool, address: string, zip: string, description: string)
    ensures threw == TrimThrows(place)
    ensures !threw ==> (address, zip, description) == PlaceTexts(place)
  {
    address, zip := ReadAddress(place);
    threw, address, description := ReadNames(place, address);
  }

  /** `if (place && place.address) { ... }` */
  method ReadAddress(place: Option<Entity>) returns (address: string, zip: string)
    ensures address == PlaceAddress(place) && zip == PlaceZip(place)
  {
    address := "";
    zip := "";
    if place.Some? && place.value.address.Some? {
      var a := place.value.address.value;
      address := AddressLine(a);
      if a.postalCode != "" {
        zip := Trim(a.postalCode);
      }
    }
  }

  /** `if (place && (place.description || place.name)) { ... }` after the
      address line `address0`. */
  method ReadNames(place: Option<Entity>, address0: string) returns (threw: bool, address: string, description: string)
    requires address0 == PlaceAddress(place)
    ensures threw == TrimThrows(place)
    ensures !threw ==> address == PlaceTexts(place).0 && description == PlaceDescription(place)
  {
    threw, address, description := false, address0, "";
    if Named(place) {
      match place.value.description {
        case NonText => return true, address, description;
        case Text(d) => description := Trim(d);
      }
      if address == "" {
        match place.value.name {
          case NonText => return true, address, description;
          case Text(n) => address := Trim(n);
        }
      }
    }
  }

  /** The `for (const s of scripts)` loop that pushes into `entities`. */
  method CollectEntities(blocks: seq<Block>) returns (entities: seq<Value>)
    ensures entities == Entities(blocks)
  {
    entities := [];
    var i := 0;
    while i < |blocks|
      invariant 0 <= i <= |blocks|
      invariant entities == Entities(blocks[..i])
    {
      assert blocks[..i + 1][..i] == blocks[..i];
      match blocks[i] {
        case ArrayBlock(elems) => entities := entities + elems;
        case GraphBlock(graph) => entities := entities + graph;
        case ObjectBlock(e) => entities := entities + [Object(e)];
        case OtherBlock =>
      }
      i := i + 1;
    }
    assert blocks[..i] == blocks;
  }

  /** The `for (const ent of candidates)` loop: bedroom and bathroom numbers
      and the raw amenity names. */
  method ScanCandidates(cands: seq<Entity>) returns (beds: Option<real>, baths: Option<real>, raw: seq<string>)
    ensures beds == LastNumber(cands, BedFields)
    ensures baths == LastNumber(cands, BathFields)
    ensures raw == RawAmenities(cands)
  {
    beds, baths, raw := None, None, [];
    var i := 0;
    while i < |cands|
      invariant 0 <= i <= |cands|
      invariant beds == LastNumber(cands[..i], BedFields)
      invariant baths == LastNumber(cands[..i], BathFields)
      invariant raw == RawAmenities(cands[..i])
    {
      var ent := cands[i];
      CandidatesStep(cands, i);
      var b := FirstNumberOf(ent, BedFields);
      if b.Some? {
        beds := b;
      }
      var ba := FirstNumberOf(ent, BathFields);
      if ba.Some? {
        baths := ba;
      }
      if ent.amenityFeature.Some? {
        raw := PushNames(raw, ent.amenityFeature.value);
      }
      i := i + 1;
    }
    assert cands[..i] == cands;
  }

  lemma CandidatesStep(cands: seq<Entity>, i: nat)
    requires i < |cands|
    ensures forall fields :: LastNumber(cands[..i + 1], fields)
              == if FirstNumber(cands[i], fields).Some? then FirstNumber(cands[i], fields) else LastNumber(cands[..i], fields)
    ensures RawAmenities(cands[..i + 1]) == RawAmenities(cands[..i]) + EntityAmenities(cands[i])
  {
    assert cands[..i + 1][..i] == cands[..i] && cands[..i + 1][i] == cands[i];
  }

  lemma ItemNamesStep(raw: seq<string>, r: seq<string>, next: seq<string>, items: seq<AmenityItem>, i: nat)
    requires i < |items|
    requires r == raw + ItemNames(items[..i]) && next == r + ItemName(items[i])
    ensures next == raw + ItemNames(items[..i + 1])
  {
    var s := items[..i + 1];
    assert s[..|s| - 1] == items[..i] && s[|s| - 1] == items[i];
    ItemNamesSnoc(s);
    assert raw + (ItemNames(items[..i]) + ItemName(items[i])) == raw + ItemNames(items[..i]) + ItemName(items[i]);
  }

  lemma ItemNamesSnoc(s: seq<AmenityItem>)
    requires s != []
    ensures ItemNames(s) == ItemNames(s[..|s| - 1]) + ItemName(s[|s| - 1])
  {
  }

  /** `for (const k of fields) { ...; if (number) { ...; break; } }` */
  method FirstNumberOf(e: Entity, fields: seq<string>) returns (n: Option<real>)
    ensures n == FirstNumber(e, fields)
  {
    var i := 0;
    while i < |fields|
      invariant 0 <= i <= |fields|
      invariant FirstNumber(e, fields[i..]) == FirstNumber(e, fields)
    {
      assert fields[i..][0] == fields[i] && fields[i..][1..] == fields[i + 1..];
      var v := FieldNumber(Lookup(e, fields[i]));
      if v.Some? {
        return v;
      }
      i := i + 1;
    }
    return None;
  }

  /** `for (const af of ent.amenityFeature) { ...; if (name) push(String(name).trim()); }` */
  method PushNames(raw: seq<string>, items: seq<AmenityItem>) returns (r: seq<string>)
    ensures r == raw + ItemNames(items)
  {
    r := raw;
    var i := 0;
    while i < |items|
      invariant 0 <= i <= |items|
      invariant r == raw + ItemNames(items[..i])
    {
      var next := r + ItemName(items[i]);
      ItemNamesStep(raw, r, next, items, i);
      r := next;
      i := i + 1;
    }
    assert items[..i] == items;
  }
}
