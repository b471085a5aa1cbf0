/** The popup: the form it fills from the scrape reply, the record its save
    button builds from the form, the append to `saved`, and the ZIP the
    OpenStreetMap search adds to the new record afterwards. */
module Popup {
  import opened Seqs
  import opened JsText
  import opened JsNumber
  import opened Saved
  import Scrape
  import JsonLd
  import BedsBaths

  /** The reply used when the page gives none: empty texts, 0 beds and
      baths, no amenities and no price. */
  const MissingReply: Scrape.Scraped := Scrape.Scraped("", 0.0, 0.0, [], None, "", Some(""))

  /** `details`: the scrape reply, or the empty one when there is none. */
  function Details(reply: Option<Scrape.Scraped>): (d: Scrape.Scraped)
    ensures reply.Some? ==> d == reply.value
    ensures reply.None? ==> d.address == "" && d.beds == 0.0 && d.baths == 0.0 && d.amenities == []
                            && d.price.None? && d.description == "" && d.zip == Some("")
  {
    if reply.Some? then reply.value else MissingReply
  }

  /** A JSON-LD object that is not of a place type and lists a `null` item
      makes the scrape throw; the popup then fills its form from the empty
      reply, whatever the rest of the page holds. */
  lemma NullItemGivesMissingReply(page: Scrape.Page, recognise: string -> BedsBaths.Matches,
                                  reply: Option<Scrape.Scraped>, e: JsonLd.Entity)
    requires page.scripts == [JsonLd.ObjectBlock(e)]
    requires !JsonLd.IsPlaceType(JsonLd.Object(e)) && e.itemListElement == [JsonLd.Null]
    requires Scrape.IsScraped(page, recognise, reply)
    ensures Details(reply) == MissingReply
  {
    JsonLd.NullItemThrows(e);
  }

  /** The texts in the popup's inputs when the save button is pressed. */
  datatype Form = Form(
    address: string,
    beds: string,
    baths: string,
    price: string,
    zip: string,
    description: string,
    amenities: string,
    notes: string)

  /** The form as the reply `d` fills it: the texts or "", the description
      cut to 2000 characters, the amenities joined with ", ", no notes.
      `bedsText` and `bathsText` are the number inputs' values for
      `details.beds || 0` and `details.baths || 0`. */
  function Prefill(d: Scrape.Scraped, bedsText: string, bathsText: string): (f: Form)
    ensures |f.description| == if |d.description| < 2000 then |d.description| else 2000
    ensures f.description == d.description[..|f.description|]
    ensures |d.description| <= 2000 ==> f.description == d.description
    ensures f.notes == ""
  {
    Form(d.address, bedsText, bathsText, d.price.GetOr(""), d.zip.GetOr(""),
         Take(d.description, 2000), Join(d.amenities, ", "), "")
  }

  /** An amenity as the amenities box keeps it: not empty, trimmed, and
      without the comma that separates the names. */
  predicate IsAmenity(a: string) {
    a != "" && IsTrimmed(a) && ',' !in a
  }

  /** `text.split(',').map(s => s.trim()).filter(Boolean)` */
  function Amenities(text: string): (r: seq<string>)
    ensures forall i :: 0 <= i < |r| ==> IsAmenity(r[i])
  {
    var trimmed := Map(Split(text, ','), Trim);
    TrimmedPieces(Split(text, ','));
    var r := Filter(trimmed, NonEmpty);
    forall i | 0 <= i < |r| ensures r[i] in trimmed && r[i] != "" {
      assert r[i] in r;
    }
    r
  }

  /** Trimmed pieces of a split at commas are trimmed and hold no comma. */
  lemma TrimmedPieces(pieces: seq<string>)
    requires forall i :: 0 <= i < |pieces| ==> ',' !in pieces[i]
    ensures forall x :: x in Map(pieces, Trim) ==> IsTrimmed(x) && ',' !in x
  {
    var trimmed := Map(pieces, Trim);
    forall i | 0 <= i < |trimmed| ensures IsTrimmed(trimmed[i]) && ',' !in trimmed[i] {
      TrimKeepsOut(pieces[i], ',');
    }
  }

  predicate NonEmpty(s: string) { s != "" }

  /** `text.trim() || null` */
  function PriceOf(text: string): (r: Option<string>)
    ensures r.None? <==> Trim(text) == ""
    ensures r.Some? ==> r.value == Trim(text)
  {
    var t := Trim(text);
    if t == "" then None else Some(t)
  }

  /** `!listing.zip && listing.address`: the record has no ZIP but an address. */
  predicate NeedsZipLookup(listing: Listing) {
    listing.zip == "" && listing.address != ""
  }

  /** The record the save button builds: the page's URL and host name, the
      trimmed texts of the form, the numbers `parseFloat` reads from the bed
      and bath inputs (0 when there is none), the amenity names, an id that
      is the decimal text of the time `idTime` and an order that is the time
      `orderTime` (the two come from two reads of the clock), and the
      status "new". The spread of `window.scraped` survives only in `url`
      and `source`: the record sets all its other fields. */
  function BuildListing(url: string, source: string, form: Form, idTime: nat, orderTime: nat): (r: Listing)
    ensures r.url == url && r.source == source
    ensures r.address == Trim(form.address) && r.description == Trim(form.description)
    ensures r.zip == Trim(form.zip) && r.notes == Trim(form.notes)
    ensures IsTrimmed(r.address) && IsTrimmed(r.description) && IsTrimmed(r.zip) && IsTrimmed(r.notes)
    ensures ParseFloat(form.beds).None? ==> r.beds == 0.0
    ensures ParseFloat(form.beds).Some? ==> r.beds == ParseFloat(form.beds).value
    ensures ParseFloat(form.baths).None? ==> r.baths == 0.0
    ensures ParseFloat(form.baths).Some? ==> r.baths == ParseFloat(form.baths).value
    ensures r.price == PriceOf(form.price) && (r.price.None? <==> Trim(form.price) == "")
    ensures r.amenities == Amenities(form.amenities)
    ensures forall i :: 0 <= i < |r.amenities| ==> IsAmenity(r.amenities[i])
    ensures ParseInt(r.id) == Some(idTime)
    ensures r.order == Some(orderTime) && r.status == "new"
    ensures NeedsZipLookup(r) <==> Trim(form.zip) == "" && Trim(form.address) != ""
  {
    ParseIntOfNatToString(idTime);
    Listing(
      NatToString(idTime),
      url,
      source,
      Trim(form.address),
      ParseFloatOrZero(form.beds),
      ParseFloatOrZero(form.baths),
      PriceOf(form.price),
      Trim(form.description),
      Trim(form.zip),
      Amenities(form.amenities),
      Trim(form.notes),
      Some(orderTime),
      "new")
  }

  /** `saved.map(i => i.id === id ? {...i, zip: z} : i)` */
  function WithZip(saved: seq<Listing>, id: string, z: string): (r: seq<Listing>)
    ensures Ids(r) == Ids(saved)
  {
    UpdateByIdKeepsIds(saved, id, (x: Listing) => x.(zip := z));
    UpdateById(saved, id, (x: Listing) => x.(zip := z))
  }

  /** The save button: `listing` is appended to `saved`; when it needs a ZIP
      and the search's first result has a postcode `postcode` (`''` when the
      search fails or finds nothing), the array written at the append is
      written again with that ZIP on the new record. */
  method Save(store: SavedList, url: string, source: string, form: Form, idTime: nat, orderTime: nat,
              postcode: string)
    returns (listing: Listing)
    modifies store
    ensures listing == BuildListing(url, source, form, idTime, orderTime)
    ensures store.saved == if NeedsZipLookup(listing) && postcode != ""
                           then WithZip(old(store.saved) + [listing], listing.id, postcode)
                           else old(store.saved) + [listing]
  {
    listing := BuildListing(url, source, form, idTime, orderTime);
    var needsZipLookup := NeedsZipLookup(listing);
    var saved := store.saved + [listing];
    store.saved := saved;
    if needsZipLookup && postcode != "" {
      store.saved := WithZip(saved, listing.id, postcode);
    }
  }

  // ------------------------------------------------------------- properties

  /** The amenities box gives back the names it was filled with, whenever
      each name is an amenity. */
  lemma {:induction false} AmenitiesOfJoin(amenities: seq<string>)
    requires forall i :: 0 <= i < |amenities| ==> IsAmenity(amenities[i])
    ensures Amenities(Join(amenities, ", ")) == amenities
  {
    if amenities == [] {
      assert Join(amenities, ", ") == "";
      assert Split("", ',') == [""];
      assert Map([""], Trim) == [""];
    } else {
      var text := Join(amenities, ", ");
      assert ", " == [','] + " ";
      SplitJoin(amenities, ',', " ");
      var pieces := Split(text, ',');
      var trimmed := Map(pieces, Trim);
      forall i | 0 <= i < |amenities| ensures trimmed[i] == amenities[i] {
        if i > 0 {
          TrimSpaced(amenities[i]);
        }
      }
      assert trimmed == amenities;
      FilterAll(amenities, NonEmpty);
    }
  }

  /** A text the form's HTML template shows as it is: no quote to end an
      attribute value, no `&` to start a character reference and no `<` to
      start a tag. */
  predicate MarkupFree(t: string) {
    '"' !in t && '&' !in t && '<' !in t
  }

  /** A text an `<input>` value keeps: value sanitisation removes line
      feeds and carriage returns. */
  predicate NoLineBreak(t: string) {
    '\n' !in t && '\r' !in t
  }

  /** A text a `<textarea>` keeps: the parser turns a carriage return into
      a line feed. */
  predicate NoCarriageReturn(t: string) {
    '\r' !in t
  }

  /** Saving what the popup was filled with, unchanged, keeps the page's
      address, price, description, ZIP and amenities, when each is already
      in the form the record holds (trimmed texts, a description of at most
      2000 characters, amenity names), each passes through the template as
      it is (no markup, no line break in an input value, no carriage return
      in a text area), and the number inputs show texts `parseFloat` reads
      as the bed and bath counts. */
  lemma UnchangedFormKeeps(d: Scrape.Scraped, bedsText: string, bathsText: string,
                           url: string, source: string, idTime: nat, orderTime: nat)
    requires IsTrimmed(d.address) && IsTrimmed(d.description) && |d.description| <= 2000
    requires d.price.Some? ==> d.price.value != "" && IsTrimmed(d.price.value)
    requires d.zip.Some? ==> IsTrimmed(d.zip.value)
    requires forall i :: 0 <= i < |d.amenities| ==> IsAmenity(d.amenities[i])
    requires MarkupFree(d.address) && MarkupFree(d.description) && MarkupFree(d.price.GetOr(""))
    requires MarkupFree(d.zip.GetOr("")) && forall i :: 0 <= i < |d.amenities| ==> MarkupFree(d.amenities[i])
    requires NoLineBreak(d.address) && NoLineBreak(d.price.GetOr("")) && NoLineBreak(d.zip.GetOr(""))
    requires NoCarriageReturn(d.description) && forall i :: 0 <= i < |d.amenities| ==> NoCarriageReturn(d.amenities[i])
    requires ParseFloat(bedsText) == Some(d.beds) && ParseFloat(bathsText) == Some(d.baths)
    ensures var r := BuildListing(url, source, Prefill(d, bedsText, bathsText), idTime, orderTime);
            && r.address == d.address && r.beds == d.beds && r.baths == d.baths
            && r.price == d.price && r.description == d.description && r.zip == d.zip.GetOr("")
            && r.amenities == d.amenities && r.notes == ""
  {
    var f := Prefill(d, bedsText, bathsText);
    var r := BuildListing(url, source, f, idTime, orderTime);
    AmenitiesOfJoin(d.amenities);
    assert r.amenities == d.amenities;
    assert f.description == d.description;
    assert r.description == d.description;
    assert r.price == d.price by { PriceKept(d.price); }
    assert r.zip == d.zip.GetOr("");
    assert r.notes == "" by { assert Trim("") == ""; }
  }

  /** A bed or bath input whose text holds no digit, such as an empty one,
      saves a count of 0. */
  lemma NoDigitCountsZero(url: string, source: string, form: Form, idTime: nat, orderTime: nat)
    requires forall i :: 0 <= i < |form.beds| ==> !IsDigit(form.beds[i])
    requires forall i :: 0 <= i < |form.baths| ==> !IsDigit(form.baths[i])
    ensures var r := BuildListing(url, source, form, idTime, orderTime);
            r.beds == 0.0 && r.baths == 0.0
  {
    ParseFloatNoDigit(form.beds);
    ParseFloatNoDigit(form.baths);
  }

  lemma PriceKept(price: Option<string>)
    requires price.Some? ==> price.value != "" && IsTrimmed(price.value)
    ensures PriceOf(price.GetOr("")) == price
  {
    assert Trim("") == "";
  }

  /** The missing reply saves as a record with no address, 0 beds and baths,
      no price, description, ZIP or amenities, and it needs no lookup. */
  lemma MissingReplySaved(bedsText: string, bathsText: string, url: string, source: string,
                          idTime: nat, orderTime: nat)
    requires ParseFloat(bedsText) == Some(0.0) && ParseFloat(bathsText) == Some(0.0)
    ensures var r := BuildListing(url, source, Prefill(Details(None), bedsText, bathsText), idTime, orderTime);
            && r.address == "" && r.beds == 0.0 && r.baths == 0.0 && r.price.None?
            && r.description == "" && r.zip == "" && r.amenities == []
            && !NeedsZipLookup(r)
  {
    UnchangedFormKeeps(MissingReply, bedsText, bathsText, url, source, idTime, orderTime);
  }

  /** With unique ids and a new id, the save leaves every earlier record as
      it was and puts the new one last, with the postcode as its ZIP when
      the lookup ran and found one. */
  lemma SavedAppends(saved: seq<Listing>, listing: Listing, postcode: string)
    requires UniqueIds(saved) && listing.id !in Ids(saved)
    ensures WithZip(saved + [listing], listing.id, postcode) == saved + [listing.(zip := postcode)]
    ensures UniqueIds(saved + [listing])
  {
    var s := saved + [listing];
    assert Ids(s) == Ids(saved) + [listing.id];
    assert UniqueIds(s) by {
      forall i, j | 0 <= i < j < |Ids(s)| ensures Ids(s)[i] != Ids(s)[j] {
        if j == |saved| {
          assert Ids(s)[i] == Ids(saved)[i];
        } else {
          assert Ids(s)[i] == Ids(saved)[i] && Ids(s)[j] == Ids(saved)[j];
        }
      }
    }
    UpdateByIdOne(s, listing.id, (x: Listing) => x.(zip := postcode), |saved|);
  }
}
