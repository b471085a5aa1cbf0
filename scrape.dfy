/** `scrapeListing`: the page's own address, then each extractor, merged
    with the JSON-LD structured data, which wins wherever it has a value
    (for the address the page's heading wins). */
module Scrape {
  import opened Seqs
  import opened JsText
  import Price
  import Zip
  import BedsBaths
  import JsonLd
  import Description

  /** What `scrapeListing` reads from the document:
      - `addressTexts`: the `textContent` of the first element matching
        each address selector, in selector order, "" when none matches;
      - `title`: `document.title`;
      - `scripts`: the JSON-LD scripts, parsed;
      - `bedBathTexts`, `priceTexts`, `amenityTexts`: the texts of the
        elements of each selector group;
      - `bodyText`: `document.body?.innerText || ''`;
      - the description's headings, description-like nodes and meta
        description;
      - the URL and the texts `extractZip` looks at. */
  datatype Page = Page(
    addressTexts: seq<string>,
    title: string,
    scripts: seq<JsonLd.Block>,
    bedBathTexts: seq<string>,
    priceTexts: seq<string>,
    amenityTexts: seq<string>,
    bodyText: string,
    descHeadings: seq<Description.DescHeading>,
    descNodes: seq<string>,
    metaDescription: string,
    hostname: string,
    pathname: string,
    zipAddressTexts: seq<string>,
    aboutSections: seq<(string, string)>)

  /** The object `scrapeListing` replies with; `None` is `null`. */
  datatype Scraped = Scraped(
    address: string,
    beds: real,
    baths: real,
    amenities: seq<string>,
    price: Option<string>,
    description: string,
    zip: Option<string>)

  /** `(document.body?.innerText || '').split(/\n+/)`, which the ZIP, bed
      and bath, and price extractors each compute. */
  function BodyLines(page: Page): seq<string> {
    SplitLines(page.bodyText)
  }

  function ZipPageOf(page: Page): Zip.ZipPage {
    Zip.ZipPage(page.hostname, page.pathname, page.zipAddressTexts, page.aboutSections, BodyLines(page))
  }

  // --------------------------------------------------------------- address

  /** `text(a) || text(b) || text(c) || (document.title || '').split('|')[0].trim()`:
      the first trimmed selector text that is not empty, else the title up
      to its first `|`, trimmed. */
  function PageAddress(addressTexts: seq<string>, title: string): (r: string)
    ensures IsTrimmed(r)
    decreases |addressTexts|
  {
    if addressTexts == [] then Trim(Split(title, '|')[0])
    else if Trim(addressTexts[0]) != "" then Trim(addressTexts[0])
    else PageAddress(addressTexts[1..], title)
  }

  /** The first element whose trimmed text is not empty gives the address. */
  lemma {:induction false} PageAddressFirst(addressTexts: seq<string>, title: string, i: nat)
    requires i < |addressTexts| && Trim(addressTexts[i]) != ""
    requires forall j :: 0 <= j < i ==> Trim(addressTexts[j]) == ""
    ensures PageAddress(addressTexts, title) == Trim(addressTexts[i])
    decreases i
  {
    if i > 0 {
      var rest := addressTexts[1..];
      assert rest[i - 1] == addressTexts[i];
      assert forall j :: 0 <= j < i - 1 ==> rest[j] == addressTexts[j + 1];
      PageAddressFirst(rest, title, i - 1);
    }
  }

  /** Without such an element the title up to its first `|` gives it. */
  lemma {:induction false} PageAddressTitle(addressTexts: seq<string>, title: string)
    requires forall j :: 0 <= j < |addressTexts| ==> Trim(addressTexts[j]) == ""
    ensures PageAddress(addressTexts, title) == Trim(Split(title, '|')[0])
    decreases |addressTexts|
  {
    if addressTexts != [] {
      var rest := addressTexts[1..];
      assert forall j :: 0 <= j < |rest| ==> rest[j] == addressTexts[j + 1];
      PageAddressTitle(rest, title);
    }
  }

  /** With no usable address element, a title "<street> | <site>" gives the
      street, trimmed. */
  lemma TitleAddress(addressTexts: seq<string>, street: string, site: string)
    requires forall i :: 0 <= i < |addressTexts| ==> Trim(addressTexts[i]) == ""
    requires '|' !in street
    ensures PageAddress(addressTexts, street + ['|'] + site) == Trim(street)
  {
    PageAddressTitle(addressTexts, street + ['|'] + site);
    SplitCons(street, site, '|');
  }

  // ------------------------------------------------------------- amenities

  /** `allText(sel)`: the trimmed element texts that are not empty. */
  function PageAmenities(amenityTexts: seq<string>): seq<string> {
    Filter(Map(amenityTexts, Trim), JsonLd.NonEmpty)
  }

  // ----------------------------------------------------------------- merge

  /** What the reply of `scrapeListing` is, field by field, given the
      page's own address `own` and amenities `listed` and the structured data
      `sd`: the page address unless it is empty; the structured bed and bath
      counts unless they are `null`; the price `extractPrice` computes from
      the structured price; the page's amenities unless there are none; the
      structured description and ZIP unless they are empty. */
  ghost predicate IsMerged(page: Page, own: string, listed: seq<string>, sd: JsonLd.Structured,
                           recognise: string -> BedsBaths.Matches, r: Scraped)
  {
    var found := BedsBaths.Scan(BedsBaths.Unset, BedsBaths.ScanTexts(page.bedBathTexts, BodyLines(page)), recognise);
    && r.address == (if own != "" then own else sd.address)
    && r.beds == (if sd.beds.Some? then sd.beds.value else BedsBaths.OrZero(found.beds))
    && r.baths == (if sd.baths.Some? then sd.baths.value else BedsBaths.OrZero(found.baths))
    && Price.IsExtractedPrice(sd.price, page.priceTexts, BodyLines(page), r.price)
    && r.amenities == (if listed != [] then listed else sd.amenities)
    && r.description == (if sd.description != "" then sd.description
                         else Description.FindDescriptionAsWritten(page.descHeadings, page.descNodes, page.metaDescription))
    && (sd.zip != "" ==> r.zip == Some(sd.zip))
    && (sd.zip == "" ==> Zip.IsExtractedZip(ZipPageOf(page), r.zip))
  }

  /** The reply of the `SCRAPE` message: none when `parseJsonLd` throws,
      since the exception leaves the listener before it replies; otherwise
      the merge. */
  ghost predicate IsScraped(page: Page, recognise: string -> BedsBaths.Matches, reply: Option<Scraped>) {
    match JsonLd.StructuredData(page.scripts)
    case None => reply.None?
    case Some(sd) =>
      && reply.Some?
      && IsMerged(page, PageAddress(page.addressTexts, page.title), PageAmenities(page.amenityTexts),
                  sd, recognise, reply.value)
  }

  /** `reply(scrapeListing())`: `None` when it throws. */
  method ScrapeListing(page: Page, recognise: string -> BedsBaths.Matches) returns (reply: Option<Scraped>)
    ensures IsScraped(page, recognise, reply)
  {
    var address := PageAddress(page.addressTexts, page.title);
    var amenities := PageAmenities(page.amenityTexts);
    var structured := JsonLd.ParseJsonLd(page.scripts);
    if structured.None? {
      return None;
    }
    var r := Merge(page, address, amenities, structured.value, recognise);
    reply := Some(r);
  }

  /** The merge at the end of `scrapeListing`, from the page's own address
      and amenities and the structured data. */
  method Merge(page: Page, address: string, amenities: seq<string>, structured: JsonLd.Structured,
               recognise: string -> BedsBaths.Matches) returns (r: Scraped)
    ensures IsMerged(page, address, amenities, structured, recognise, r)
  {
    var address := address;
    if structured.address != "" {
      address := if address != "" then address else structured.address;
    }
    var beds, baths := MergeCounts(page, structured, recognise);
    var price := Price.ExtractPrice(structured.price, page.priceTexts, BodyLines(page));
    var amenities := amenities;
    if amenities == [] && structured.amenities != [] {
      amenities := structured.amenities;
    }
    var description := MergeDescription(page, structured);
    var zip := MergeZip(page, structured);
    r := Scraped(address, beds, baths, amenities, price, description, zip);
  }

  /** `structured.beds ?? extracted.beds` and the same for the baths; the
      text scan runs in any case. */
  method MergeCounts(page: Page, structured: JsonLd.Structured, recognise: string -> BedsBaths.Matches)
    returns (beds: real, baths: real)
    ensures var found := BedsBaths.Scan(BedsBaths.Unset, BedsBaths.ScanTexts(page.bedBathTexts, BodyLines(page)), recognise);
            && beds == (if structured.beds.Some? then structured.beds.value else BedsBaths.OrZero(found.beds))
            && baths == (if structured.baths.Some? then structured.baths.value else BedsBaths.OrZero(found.baths))
  {
    var extractedBeds, extractedBaths := BedsBaths.ExtractBedsBaths(page.bedBathTexts, BodyLines(page), recognise);
    beds := if structured.beds.Some? then structured.beds.value else extractedBeds;
    baths := if structured.baths.Some? then structured.baths.value else extractedBaths;
  }

  /** `structured.description || findDescription()`: the page is searched
      only when the structured description is empty. */
  method MergeDescription(page: Page, structured: JsonLd.Structured) returns (description: string)
    ensures structured.description != "" ==> description == structured.description
    ensures structured.description == "" ==>
              description == Description.FindDescriptionAsWritten(page.descHeadings, page.descNodes, page.metaDescription)
  {
    description := structured.description;
    if description == "" {
      description := Description.FindDescription(page.descHeadings, page.descNodes, page.metaDescription);
    }
  }

  /** `structured.zip || extractZip()`: the page is searched only when the
      structured ZIP is empty. */
  method MergeZip(page: Page, structured: JsonLd.Structured) returns (zip: Option<string>)
    ensures structured.zip != "" ==> zip == Some(structured.zip)
    ensures structured.zip == "" ==> Zip.IsExtractedZip(ZipPageOf(page), zip)
  {
    if structured.zip != "" {
      return Some(structured.zip);
    }
    zip := Zip.ExtractZip(ZipPageOf(page));
  }

  // ------------------------------------------------------------- properties

  /** A JSON-LD offer price of a whole number of dollars within the rent
      range, written as `parseJsonLd` writes it, comes back unchanged: the
      reformatting in `extractPrice` reproduces the text it read. */
  lemma StructuredRentKept(dollars: nat, elementTexts: seq<string>, bodyLines: seq<string>, price: Option<string>)
    requires 700 <= dollars <= 20000
    requires Price.IsExtractedPrice("$" + GroupThousands(NatToString(dollars)), elementTexts, bodyLines, price)
    ensures price == Some("$" + GroupThousands(NatToString(dollars)))
  {
    var d := NatToString(dollars);
    Price.ToNumberDollarGrouped(d);
    DigitsValueOfNatToString(dollars);
    assert Price.RoundDollars(dollars * 100) == dollars;
  }

  /** A page with none of the inputs. */
  predicate IsEmptyPage(page: Page) {
    && page.addressTexts == [] && page.title == "" && page.scripts == []
    && page.bedBathTexts == [] && page.priceTexts == [] && page.amenityTexts == []
    && page.bodyText == "" && page.descHeadings == [] && page.descNodes == []
    && page.metaDescription == "" && page.hostname == "" && page.pathname == ""
    && page.zipAddressTexts == [] && page.aboutSections == []
  }

  /** No structured data. */
  const NoStructure := JsonLd.Structured("", None, None, "", "", [], "")

  /** A page without any of the inputs gives the defaults: no address, 0
      bedrooms and bathrooms, no amenities, no price, no description and
      no ZIP. */
  lemma {:induction false} EmptyPageDefaults(page: Page, recognise: string -> BedsBaths.Matches, r: Option<Scraped>)
    requires IsEmptyPage(page) && IsScraped(page, recognise, r)
    ensures r == Some(Scraped("", 0.0, 0.0, [], None, "", None))
  {
    EmptyPageTexts(page, recognise, r);
    EmptyPageCounts(page, recognise, r);
    EmptyPagePriceOf(page, recognise, r);
    EmptyPageZipOf(page, recognise, r);
  }

  lemma EmptyPageTexts(page: Page, recognise: string -> BedsBaths.Matches, r: Option<Scraped>)
    requires IsEmptyPage(page) && IsScraped(page, recognise, r)
    ensures r.Some? && r.value.address == "" && r.value.amenities == [] && r.value.description == ""
  {
    EmptyPageMerged(page, recognise, r);
    UnstructuredMerged(page, recognise, r.value);
    EmptyPageDescription();
  }

  lemma EmptyPageCounts(page: Page, recognise: string -> BedsBaths.Matches, r: Option<Scraped>)
    requires IsEmptyPage(page) && IsScraped(page, recognise, r)
    ensures r.Some? && r.value.beds == 0.0 && r.value.baths == 0.0
  {
    EmptyPageMerged(page, recognise, r);
    UnstructuredMerged(page, recognise, r.value);
    EmptyBodyLines();
    EmptyBedBathScan(recognise);
  }

  lemma EmptyPagePriceOf(page: Page, recognise: string -> BedsBaths.Matches, r: Option<Scraped>)
    requires IsEmptyPage(page) && IsScraped(page, recognise, r)
    ensures r.Some? && r.value.price == None
  {
    EmptyPageMerged(page, recognise, r);
    UnstructuredMerged(page, recognise, r.value);
    EmptyBodyLines();
    EmptyPagePrice(r.value.price);
  }

  lemma EmptyPageZipOf(page: Page, recognise: string -> BedsBaths.Matches, r: Option<Scraped>)
    requires IsEmptyPage(page) && IsScraped(page, recognise, r)
    ensures r.Some? && r.value.zip == None
  {
    EmptyPageMerged(page, recognise, r);
    UnstructuredMerged(page, recognise, r.value);
    EmptyBodyLines();
    assert ZipPageOf(page) == Zip.ZipPage("", "", [], [], [""]);
    EmptyPageZip(r.value.zip);
  }

  lemma EmptyPageMerged(page: Page, recognise: string -> BedsBaths.Matches, r: Option<Scraped>)
    requires IsEmptyPage(page) && IsScraped(page, recognise, r)
    ensures r.Some? && IsMerged(page, "", [], NoStructure, recognise, r.value)
  {
    EmptyPageAddress();
    EmptyStructuredData();
  }

  /** Without structured data, an own address or amenities, every field comes
      from the page's extractors. */
  lemma UnstructuredMerged(page: Page, recognise: string -> BedsBaths.Matches, r: Scraped)
    requires IsMerged(page, "", [], NoStructure, recognise, r)
    ensures var found := BedsBaths.Scan(BedsBaths.Unset, BedsBaths.ScanTexts(page.bedBathTexts, BodyLines(page)), recognise);
            && r.address == "" && r.amenities == []
            && r.beds == BedsBaths.OrZero(found.beds) && r.baths == BedsBaths.OrZero(found.baths)
    ensures r.description == Description.FindDescriptionAsWritten(page.descHeadings, page.descNodes, page.metaDescription)
    ensures Price.IsExtractedPrice("", page.priceTexts, BodyLines(page), r.price)
    ensures Zip.IsExtractedZip(ZipPageOf(page), r.zip)
  {
  }

  lemma EmptyPageAddress()
    ensures PageAddress([], "") == "" && PageAmenities([]) == []
  {
    assert Split("", '|') == [""];
  }

  /** An empty body is one empty line. */
  lemma EmptyBodyLines()
    ensures SplitLines("") == [""]
  {
  }

  lemma EmptyBedBathScan(recognise: string -> BedsBaths.Matches)
    ensures BedsBaths.Scan(BedsBaths.Unset, BedsBaths.ScanTexts([], [""]), recognise) == BedsBaths.Unset
  {
    assert !BedsBaths.MentionsBedOrBath("");
    assert Filter([""], BedsBaths.MentionsBedOrBath) == [];
    var none: seq<string> := [];
    assert Take(none, 50) == [];
    assert BedsBaths.Snippets([], [""]) == [];
    assert BedsBaths.ScanTexts([], [""]) == [];
  }

  lemma EmptyPagePrice(price: Option<string>)
    requires Price.IsExtractedPrice("", [], [""], price)
    ensures price == None
  {
    assert Price.ToNumber("") == None;
    assert Price.ElementContexts([]) == [];
    assert !Price.HasDollarDigit("");
    assert Take([""], 150) == [""];
    assert Price.PriceContexts([], [""]) == [];
  }

  lemma EmptyPageDescription()
    ensures Description.FindDescriptionAsWritten([], [], "") == ""
  {
    assert Description.CandidatesAsWritten([], [], "") == [];
  }

  lemma EmptyPageZip(zip: Option<string>)
    requires Zip.IsExtractedZip(Zip.ZipPage("", "", [], [], [""]), zip)
    ensures zip == None
  {
    EmptyZipCandidates();
  }

  lemma EmptyStructuredData()
    ensures JsonLd.StructuredData([]) == Some(NoStructure)
  {
    assert JsonLd.Entities([]) == [];
    assert JsonLd.Flat([]) == [];
    assert JsonLd.FindPlace([]) == None;
    assert JsonLd.Objects([]) == [];
    assert JsonLd.OfferPriceText([]) == "";
    assert JsonLd.RawAmenities([]) == [];
  }

  lemma EmptyZipCandidates()
    ensures Zip.ZipCandidates(Zip.ZipPage("", "", [], [], [""])) == []
  {
    assert Zip.UrlZip("") == None;
    assert Zip.UrlCandidates("", "") == [];
    assert Zip.AddressCandidates([], []) == [];
    assert Zip.AboutCandidates([], []) == [];
    assert Take([""], 150) == [""];
    assert Zip.FirstZip("") == None;
    assert Zip.LineCandidates([], [""]) == [];
  }
}
