# ListingSaver in Dafny

ListingSaver is a browser extension for people hunting for apartments. On a
listing page, the content script (`content.js`) scrapes the page into a
record. That record holds the address, bed and bath counts, rent, amenities,
description and ZIP code. It comes from the page's schema.org JSON-LD data
and from several scored heuristics over the page's text. The popup
(`popup.js`) shows the scraped record in a form. Its save button appends
the record to the `saved` list in extension storage, and when the record has
an address but no ZIP, it adds the postcode an address lookup returns. The
dashboard (`dashboard.js`) shows the saved list as a kanban board with one
column per status. Each column is sorted by order, then by id. The board can
be filtered by status and by a search text. Cards can be dragged between
columns, edited (notes) and deleted one at a time or in bulk. Each card splits
its address into a street line and an area line.

The model takes the page as data: the texts of the elements each selector
group finds, the body's text, the URL, and the JSON-LD blocks already
parsed. Modules, one per part of the program:

- `JsText`, `JsNumber`, `Seqs`: the JavaScript string and number operations
  the code relies on. These are `trim` with JavaScript's whitespace set,
  `replace(/\s+/g, ' ')`, `split`, `join`, `parseInt`, `parseFloat`, a
  `Set`'s insertion order, and the thousands-grouping `replace`.
- `JsonLd`: `parseJsonLd` (content.js:8-79), including the TypeErrors it
  throws on `null` list items and on non-string descriptions or names.
- `Zip`: `extractZip` (content.js:81-145).
- `Description`: `findDescription` (content.js:147-201), as written and as
  intended (see Findings).
- `BedsBaths`: `extractBedsBaths` (content.js:210-280).
- `Price`: `extractPrice`, `formatPrice` and `toNumber` (content.js:284-345).
- `Scrape`: the address fallback chain and the final merge of
  `scrapeListing`, and the message listener (content.js:203-207, 350-371).
- `Saved`: the stored list of records, a class whose field the pages
  reassign, and the id-keyed `map` and `filter` rewrites of it.
- `Dashboard`: `groupByStatus`, the status and search filter of `render`, the
  drop handler's order, and the notes, delete and bulk-delete handlers.
- `Card`: the `[street, area]` address split of `cardTemplate`.
- `Popup`: the default reply, the form the reply fills, the record the save
  button builds, the append, the ZIP-lookup decision and the ZIP update.

Where the project's documentation and the code disagree, the model follows
the code:

- A plain body line with a five-digit code is never pushed as a ZIP
  candidate at 65. Only lines with a borough and "NY" are pushed, at
  65 + 10 = 75 (content.js:132-139). So `Zip.NycUrlCodeBeatsPlainCode`
  compares a URL code with an address-element code (weight 70).
- The JSON-LD bed and bath scan does not stop once both are found. It runs
  over the place and every object, and the last entity with a parseable
  field wins (content.js:51-76, `JsonLd.LastNumberSpec`). Inside one entity,
  the first field alias wins.
- Not every failure is swallowed: `parseJsonLd` throws on a `null` list item
  and on a truthy non-string description or name. The listener then never
  replies, and the popup falls back to the empty record (content.js:23-40,
  popup.js:5; `JsonLd.NullItemThrows`, `Popup.NullItemGivesMissingReply`).

The borough rule of the address split is stated twice. `Card.BoroughFormSplit`
covers every address on which the borough pattern matches and no " in " form
does. `Card.BoroughSplit` and `Card.TwoPartBoroughSplit` give the exact
result for the two common shapes. In the three-part shape, the street is cut
off. In the two-part shape, nothing is cut off, because the area begins at
index 0 and the code takes the street only when `idx > 0`.

## Model

| member | source | states |
|---|---|---|
| JsText.Normalize | content.js:6 | `replace(/\s+/g, ' ').trim()` gives a trimmed text with no two whitespace characters in a row, never longer than the input |
| JsText.NormalizeIdempotent | content.js:198 | normalising an already cleaned text changes nothing |
| JsText.CollapseRuns | content.js:169 | whitespace runs become one space: the result is single-spaced, empty exactly when the input is, and starts with a space exactly when the input does |
| JsText.Words | content.js:6 | the words of a text, its maximal runs without whitespace, in order: each non-empty and free of whitespace |
| JsText.NormalizeWords | content.js:6 | the cleaned text is the text's words, in order, joined by single spaces: no word is lost, changed or added |
| JsText.CollapseRunsWords | content.js:169 | collapsing the whitespace runs keeps the words, in order |
| JsText.Split | popup.js:42 | `split(',')` gives at least one piece and no piece holds the separator |
| JsText.SplitJoin | popup.js:6 | splitting at the separator undoes `join(', ')` of parts that hold no comma: the pieces are the parts, each after the first preceded by the space |
| JsText.SplitLines | content.js:131 | `split(/\n+/)` gives at least one piece and no piece holds a newline |
| JsText.SplitLinesCover | content.js:131 | every text is its lines put back with its newline runs, and the cut is proper: newline-free lines, runs of at least one newline, no empty line between two runs |
| JsText.SplitLinesJoin | content.js:243 | splitting lines put back with such runs gives exactly those lines: the split is the inverse of the join |
| JsText.DropNewlines | content.js:318 | the text after its leading newlines: a suffix, everything skipped is a newline, and it does not start with one |
| JsText.GroupThousandsDigits | content.js:285 | on a digit string the lookahead `replace` inserts a comma before each full group of three digits counted from the right |
| JsText.GroupedRemoveCommas | content.js:290 | removing the commas from a grouped digit string gives back the digits |
| JsText.NatToString | popup.js:44 | `n.toString()` is a non-empty digit string without a leading zero |
| JsText.DigitsValueOfNatToString | popup.js:44 | the digits of `n.toString()` have the value `n` |
| JsNumber.ParseIntOfNatToString | dashboard.js:22 | `parseInt(id, 10)` of an id written by `Date.now().toString()` is that time |
| JsNumber.ParseFloatOfNatToString | popup.js:37-38 | `parseFloat` of a whole number's text is the number |
| JsNumber.ParseFloatOfHalf | popup.js:10 | `parseFloat("<n>.5")`, a half step of the number inputs, is n + 0.5 |
| Seqs.Dedup | content.js:77 | `Array.from(new Set(s))` has no duplicate and holds exactly the values of `s` |
| Seqs.DedupFirstSeenOrder | content.js:234 | a Set keeps values in the order of their first insertion |
| JsonLd.Flat | content.js:23-26 | the pool holds exactly the objects of the entities and the items listed in any of them |
| JsonLd.Objects | content.js:51-53 | the candidates after the place are exactly the objects of the pool |
| JsonLd.FindPlace | content.js:30 | the place is the first object of the pool with a place type when there is one, else the first with an address; none exactly when no value has either |
| JsonLd.FindThrowsSpec | content.js:28-30 | `flat.find(p)` with a predicate that reads `e['@type']` throws exactly when a `null` comes before every element `p` accepts |
| JsonLd.AddressLine | content.js:33-34 | the joined address is empty exactly when all four parts are |
| JsonLd.OfferPriceText | content.js:42-46 | the structured price is non-empty exactly when some value is an offer with a price |
| JsonLd.OfferPriceDigits | content.js:46 | an offer price of plain digits comes out as "$" and the digits grouped by thousands |
| JsonLd.FirstNumberSpec | content.js:54-61 | within one entity the first field alias with a parseable number gives the count; none exactly when no alias has one |
| JsonLd.LastNumberSpec | content.js:52-69 | over the candidates the last entity with a parseable count wins; none exactly when no candidate has one |
| JsonLd.ItemNamesSource | content.js:71-74 | every name one `amenityFeature` array pushes is the trimmed, truthy `name`, `propertyID` or `value` of one of its items |
| JsonLd.RawAmenitySource | content.js:70-75 | every pushed name comes from an `amenityFeature` item of a candidate |
| JsonLd.CleanAmenitiesSpec | content.js:77 | the amenities hold no duplicate and no empty name, exactly the non-empty raw names, in first-seen order |
| JsonLd.StructuredAmenitySource | content.js:70-77 | every structured amenity is the trimmed name of some `amenityFeature` item of the place or an object of the pool |
| JsonLd.DuplicateAmenityDropped | content.js:77 | ["Gym", "Gym", "Pool"] becomes ["Gym", "Pool"] |
| JsonLd.SingleObjectFlat | content.js:18 | a single object block gives the object followed by its list items |
| JsonLd.NullItemThrows | content.js:25-30 | a `null` list item of an object that is not a place makes the reduction throw |
| JsonLd.NonTextDescriptionThrows | content.js:37-38 | a place whose description is a truthy non-string makes `.trim()` throw |
| JsonLd.ParseJsonLd | content.js:8-79 | the method computes the reduction of the blocks, or `None` when it throws |
| JsonLd.CollectEntities | content.js:12-21 | the loop pushes the elements of an array, the `@graph` of an object that has one, else the object |
| JsonLd.ReadPlace | content.js:31-40 | reports exactly when the trims throw, and otherwise yields the place's address, ZIP and description |
| JsonLd.ReadAddress | content.js:31-36 | the joined address parts and the trimmed postal code of the place |
| JsonLd.ReadNames | content.js:37-40 | throws exactly when a trim has no string to work on; otherwise the description, and the address falls back to the trimmed name |
| JsonLd.ScanCandidates | content.js:51-76 | the loop over the candidates leaves the last bed and bath numbers and every pushed amenity name |
| JsonLd.FirstNumberOf | content.js:54-61 | the alias loop with `break` gives the first alias's number |
| JsonLd.PushNames | content.js:71-74 | the item loop appends the names of the items |
| Zip.ZipFrom | content.js:86 | the leftmost word-bounded five-digit token at or after a position |
| Zip.FirstZip | content.js:112 | `match(/\b(\d{5})\b/)?.[1]` is none exactly when there is no token, else the leftmost token |
| Zip.FirstZipOfCode | content.js:86 | a five-digit code is its own first token |
| Zip.NewYorkZip | content.js:109 | `match(/(?:NY\|New\s*York)[\s,]+(\d{5})/i)`: none exactly when no position matches, else the five-digit code of the leftmost matching position |
| Zip.UrlZip | content.js:98 | none exactly when no position has a `-` or `/`, "10" or "11" and three digits, then `-`, `/` or the end; else the leftmost such code |
| Zip.ZipCandidate | content.js:84-92 | a push adds nothing exactly when there is no token; otherwise the code is the first token and the score is the weight plus 10 exactly when the code starts with "10" or "11" |
| Zip.Push | content.js:91 | a push keeps the candidates and appends at most one |
| Zip.SortByScore | content.js:143 | the stable ascending sort is sorted by score and a permutation |
| Zip.LastOfSortIsLastBest | content.js:143-144 | the popped element is the last candidate with the highest score |
| Zip.NycUrlCodeBeatsPlainCode | content.js:90-113 | "11385" from the URL scores 85, "90210" from an address element 70, and the first wins in either order |
| Zip.ExtractZip | content.js:81-145 | null exactly when nothing was pushed, else the code of the last candidate with the highest score |
| Zip.PushAddresses | content.js:107-115 | the loop pushes each address element's code, 90 after "NY"/"New York", else 70 |
| Zip.PushLines | content.js:132-139 | the loop pushes the first code of each line with a borough and "NY", at 75 |
| BedsBaths.Raise | content.js:252 | `found == null ? v : Math.max(found, v)` is set, at least the old value and `v`, and one of them |
| BedsBaths.TryParseMonotone | content.js:246-264 | one snippet never unsets or lowers a count |
| BedsBaths.TryParseSound | content.js:246-268 | a count after a snippet is the old count, a value the snippet offers, or 0 on a studio, and is at least every value offered |
| BedsBaths.StudioRule | content.js:265-268 | a studio snippet leaves 0 beds exactly when the earlier count is unset or 0 and the snippet offers nothing above 0 |
| BedsBaths.ScanMonotone | content.js:271-274 | known counts never decrease over the scan |
| BedsBaths.ScanStops | content.js:273 | once a prefix leaves both counts known, later snippets change nothing |
| BedsBaths.ScanSeesAll | content.js:271-274 | until both are known, every snippet's bed and bath values are reached: the final counts are set and at least each of them |
| BedsBaths.ExtractBedsBaths | content.js:210-280 | the counts the scan over the deduplicated snippets leaves, 0 when unset |
| BedsBaths.CollectSnippets | content.js:234-244 | adding to the `texts` Set keeps first insertions in order |
| BedsBaths.LargerCountStays | content.js:258 | "2 bed" then "1 bed" leaves 2 |
| Price.AmountRun | content.js:288 | the `[\d,]*` run from a position is maximal |
| Price.FirstAmountChar | content.js:288 | the first `[\d,]` character at or after a position |
| Price.FormatPriceShape | content.js:285 | `formatPrice` is "$" and the rounded value's digits grouped by thousands; without "$" and commas it is the rounded value's digits |
| Price.ToNumberOfFormatPrice | content.js:285-291 | `toNumber(formatPrice(n))` is the rounded amount |
| Price.ToNumberDollarGrouped | content.js:286-291 | "$" and a grouped digit string read back as the digits' value |
| Price.ScoreBounds | content.js:331-335 | a token scores between -3 and 10; a plausible amount scores 6 more than a sub-$700 one in the same context |
| Price.MonthlyRentBeatsFees | content.js:331-335 | a plausible amount in a monthly context beats any amount under $700 |
| Price.BestIndex | content.js:341-342 | the sorted list's head has the highest score and, among those, the highest value |
| Price.BestIsUnique | content.js:341-342 | any two best entries agree on score and value |
| Price.ExtractPrice | content.js:284-345 | a plausible structured price (700 to 20000) is formatted and returned at once; otherwise null exactly when no `$` amount was found, else the formatted best amount |
| Price.CollectElementContexts | content.js:309-315 | the element loop keeps the cleaned texts with a `$` digit |
| Price.ScoreContexts | content.js:324-338 | the context loop scores every amount of every context in order |
| Price.ScanContext | content.js:327-337 | the `exec` loop scores the amounts of one context in match order |
| Description.BlockPiecesSpec | content.js:160-168 | at most 8 pieces are joined, each a cleaned block text longer than 40 |
| Description.CollectBlockText | content.js:160-171 | the block loop with its break at 8 pieces gives the joined text |
| Description.HeadingCandidateNormalized | content.js:184-185 | a heading's candidate is long enough and already cleaned |
| Description.FirstLongest | content.js:199-200 | the head after the stable sort by length is the first of the longest |
| Description.UniqueMember | content.js:198 | every unique text is a normalised candidate |
| Description.PickOf | content.js:198-200 | the pick is empty exactly when there is no candidate, else the first longest unique text |
| Description.AsWrittenDescriptionSpec | content.js:173-200 | '' exactly when no candidate, else the first of the longest unique texts: cleaned, and the normalisation of a candidate that passed the 120 test |
| Description.IntendedDescriptionSpec | content.js:158-200 | with the test after normalising: '' exactly when no candidate, else the first longest unique text, cleaned and at least 120 long |
| Description.ShortMetaDescriptionReturned | content.js:195-196 | a meta description "a", 119 spaces, "b" returns "a b", which is under 120 |
| Description.MetaOnlyAsWritten | content.js:195-196 | with no heading or element, the meta description is the only candidate, when its trimmed text passes the test |
| Description.FindDescription | content.js:147-201 | the method returns the as-written description: '' exactly when there is no candidate, otherwise cleaned |
| Description.PushHeadings | content.js:176-187 | the heading loop pushes each label heading's long-enough container text |
| Description.HeadingPush | content.js:177-185 | what one heading pushes |
| Description.PushNodes | content.js:190-193 | the element loop pushes the long-enough cleaned texts |
| Scrape.PageAddress | content.js:204-207 | the address chain gives a trimmed text |
| Scrape.PageAddressFirst | content.js:204-206 | the first selector with a non-empty trimmed text gives the address |
| Scrape.PageAddressTitle | content.js:207 | without one, the title before its first `|`, trimmed |
| Scrape.TitleAddress | content.js:207 | "street \| site" as the title gives the trimmed street |
| Scrape.ScrapeListing | content.js:350-371 | no reply when `parseJsonLd` throws; otherwise the merge of the page with the structured data |
| Scrape.Merge | content.js:354-364 | the page address unless empty, structured counts unless null, the price computed from the structured price, page amenities unless none, structured description and ZIP unless empty |
| Scrape.MergeCounts | content.js:356-358 | `structured.beds ?? extracted.beds`, and the same for baths |
| Scrape.MergeDescription | content.js:361 | the structured description, or else the page's description as written |
| Scrape.MergeZip | content.js:362 | the structured ZIP, or else the extracted one |
| Scrape.StructuredRentKept | content.js:294-297 | a structured offer of a whole-dollar rent within 700 to 20000 comes back formatted as it is |
| Scrape.EmptyPageDefaults | content.js:354-364 | a page with no inputs replies with an empty address, 0 beds and baths, no amenities, no price, '' and no ZIP |
| Scrape.UnstructuredMerged | content.js:354-364 | without structured data, own address or amenities, each field is its extractor's result |
| Scrape.EmptyStructuredData | content.js:9 | no blocks give the empty results |
| Scrape.EmptyPagePrice | content.js:340 | no amounts give a null price |
| Scrape.EmptyPageZip | content.js:141 | no candidates give a null ZIP |
| Scrape.EmptyPageDescription | content.js:200 | no candidates give '' |
| Saved.UpdateById | dashboard.js:161 | `map` by id: the records with the id are rewritten, every other stays, the length is kept |
| Saved.UpdateByIdOne | dashboard.js:193 | with unique ids, an update of a present id changes that one record |
| Saved.UpdateByIdKeepsIds | popup.js:59 | an update that keeps ids keeps the id list |
| Saved.RemoveIds | dashboard.js:183 | the `filter` keeps exactly the records whose id is not listed |
| Saved.RemoveIdsCount | dashboard.js:200 | every record without a listed id keeps its multiplicity; the others are gone |
| Saved.RemoveIdsOrder | dashboard.js:183 | the remaining records keep their order |
| Saved.RemoveIdsTwice | dashboard.js:178-184 | removing the same ids a second time changes nothing |
| Saved.SavedList.constructor | dashboard.js:76 | the list holds the records read from storage |
| Dashboard.StatusesDistinct | dashboard.js:2 | the six statuses are distinct |
| Dashboard.SortDesc | dashboard.js:18-23 | the stable sort by order, then parseInt of the id, both descending, is sorted and a permutation |
| Dashboard.Column | dashboard.js:17-23 | each column is sorted and a permutation of the items pushed to it |
| Dashboard.PushAll | dashboard.js:12-15 | the push loop puts each item in its status's group, in input order |
| Dashboard.GroupByStatus | dashboard.js:10-26 | the method returns the sorted columns of the grouping |
| Dashboard.GroupsPartition | dashboard.js:10-15 | the columns together hold exactly the items, and their sizes add up to the input length |
| Dashboard.GroupOf | dashboard.js:13-14 | an item is in its status's column and in no other; an unknown status goes to "new" |
| Dashboard.VisibleIsFilter | dashboard.js:79-84 | an item is shown exactly when its status equals the filter (if set) and the lower-cased query is in the lower-cased address, description or notes (if set) |
| Dashboard.MaxOrder | dashboard.js:159 | 0 for no orders, else the largest |
| Dashboard.DropOnTopOrder | dashboard.js:157-160 | without a card to stand before, the target order is above every other order of the column: one more than their maximum, or 1 for none |
| Dashboard.DropBeforeOrder | dashboard.js:160 | before a card with a non-zero order, one more than that order; with order 0, as without a card |
| Dashboard.Dropped | dashboard.js:161 | only the dragged record changes, taking the new status and target order; the length is kept |
| Dashboard.TopOfSorted | dashboard.js:17-23 | a column's first card has the highest order |
| Dashboard.DroppedColumnMember | dashboard.js:157-161 | after a drop on top, every other card of the column has a lower order |
| Dashboard.DroppedOnTop | dashboard.js:157-161 | a card dropped with no card to stand before is shown first in its new column |
| Dashboard.WithNotes | dashboard.js:193 | only the `notes` of the record with the id change |
| Dashboard.Drop | dashboard.js:148-164 | the stored list becomes the dropped list |
| Dashboard.EditNotes | dashboard.js:191-194 | the stored list has the notes of the record with the id replaced |
| Dashboard.Delete | dashboard.js:198-201 | the stored list loses exactly the records with the id |
| Dashboard.BulkDelete | dashboard.js:178-185 | with checked ids and confirmation, the records with those ids are removed; otherwise nothing changes |
| Card.SplitEmpty | dashboard.js:33-34 | the split is ('', '') exactly when the trimmed address is empty; with no area the street is the trimmed address |
| Card.InSplitNonEmpty | dashboard.js:35-36 | both parts of an " in " split are non-empty |
| Card.InFormSplit | dashboard.js:35-36 | "X in Y" splits into X and Y |
| Card.FirstInSplit | dashboard.js:35-36 | when the leftmost " in " form of the trimmed address is at `p`, the street is the trimmed text before it and the area the trimmed text after it |
| Card.BoroughFormSplit | dashboard.js:37-43 | with a borough match and no " in " form, the area is the trimmed first group, ", " and the borough; the street is the whole text or a trimmed beginning of it |
| Card.BoroughSplit | dashboard.js:37-43 | "street, hood, borough" splits into the street and "hood, borough" |
| Card.TwoPartBoroughSplit | dashboard.js:40-41 | "street, borough" keeps the whole text as both the street and the area |
| Card.LastIndexOf | dashboard.js:40 | `lastIndexOf` is -1 exactly when there is no occurrence, else the last one |
| Card.TrimStreetEnd | dashboard.js:41 | `replace(/[\s,–—-]+$/g, '')` removes only separator characters from the end and leaves a prefix that does not end in one |
| Popup.Details | popup.js:5 | the reply when there is one, else empty texts, 0 beds and baths, no amenities, no price and '' for the ZIP |
| Popup.NullItemGivesMissingReply | popup.js:4-5 | a page whose data has a `null` list item gets the empty record, because the scrape throws |
| Popup.Prefill | popup.js:7-17 | the description box holds the first 2000 characters; the notes box is empty |
| Popup.Amenities | popup.js:42 | the pieces of the comma split, trimmed, without empty ones: each non-empty, trimmed, comma-free |
| Popup.TrimmedPieces | popup.js:42 | trimmed comma-free pieces are trimmed and comma-free |
| Popup.AmenitiesOfJoin | popup.js:6 | the amenities box gives back the names it was filled with |
| Popup.PriceOf | popup.js:39 | `trim() \|\| null`: null exactly when the trimmed text is empty, else that text |
| Popup.BuildListing | popup.js:34-48 | address, description, ZIP and notes are the trimmed fields; beds and baths are the `parseFloat` of the field, or 0 when it has no number; the price is the trimmed field, null exactly when blank; the amenities are the cleaned comma split; the id reads back as the time; status "new"; a lookup is needed exactly when the ZIP is blank and the address is not |
| Popup.NoDigitCountsZero | popup.js:37-38 | a beds or baths field with no digit saves 0 |
| JsNumber.ParseFloatNoDigit | popup.js:37-38 | `parseFloat` of a text with no digit is NaN |
| Popup.WithZip | popup.js:59 | the ZIP update keeps the ids |
| Popup.Save | popup.js:33-64 | the record is built from the form and appended; when it needs a lookup and a postcode came back, that one record's ZIP is set |
| Popup.UnchangedFormKeeps | popup.js:6-43 | saving the form as the reply filled it keeps its address, counts, price, description, ZIP and amenities, for texts the template shows as they are |
| Popup.PriceKept | popup.js:13 | a trimmed non-empty price comes back as it is |
| Popup.MissingReplySaved | popup.js:5 | the empty reply saves with no address, 0 counts, no price, empty texts, and no lookup |
| Popup.SavedAppends | popup.js:50-59 | with a new id, the save keeps every earlier record and the ZIP update touches only the new one |

## Left out

- The DOM. Selector queries, `innerText` and `textContent`, `closest` and
  sibling navigation are not modelled. The page is given as the texts each
  query finds (`Scrape.Page`, `Description.DescHeading`, `Zip.ZipPage`).
- `JSON.parse` is not modelled and its failures are swallowed. The blocks
  come already parsed, and a block that does not parse is `OtherBlock`.
- The regular expressions of `extractBedsBaths`. What they find in one
  snippet is given by the `recognise` parameter (`BedsBaths.Matches`). The
  other recognisers (five-digit tokens, "NY" codes, URL codes, `$` amounts,
  labels, keywords) are written out as scanners.
- Floating point. Counts are exact `real`s and dollar amounts exact cents.
  `Math.round` is rounding half up of a non-negative amount.
- JsNumber.ParseFloat: reads only an optional sign and decimal digits with
  an optional fraction. It has no exponent ("1e3" is 1 here and 1000 in
  JavaScript), no "Infinity", and no hexadecimal `parseInt`.
- JsText.Lower: lower-cases only the ASCII letters. The search filter
  (dashboard.js:6, 81-83) uses Unicode `toLowerCase`, so for an address
  "Café" and the query "CAFÉ", the code shows the card and the model does
  not. The `/i` regular expressions are ASCII-only in JavaScript as well.
- Dashboard.Visible: inherits the ASCII-only lowercasing above.
- Description.FindDescription: lengths count characters, while JavaScript's
  `.length` counts UTF-16 code units. The 120 and 40 thresholds
  (content.js:158, 166) and the longest pick therefore differ on texts
  outside the Basic Multilingual Plane.
- Popup.Prefill: `.slice(0, 2000)` (popup.js:15) is taken in characters,
  not UTF-16 code units. The template is assumed to show each text as it
  is. In the code, a `"` ends the value attribute, `&…;` references are
  decoded, and `<` can start a tag.
- Popup.UnchangedFormKeeps: requires that the texts hold no `"`, `&` or
  `<`, because of the decoding above. It also requires no line feed or
  carriage return in the address, price and ZIP, because an `<input>`'s
  value drops them, and no carriage return in the description and the
  amenities, because a `<textarea>` turns it into a line feed.
- Popup.Save: writes the list as it is when the save starts. The code's ZIP
  update (popup.js:59-60) rewrites the snapshot read before the `fetch`, so
  a dashboard edit made while the lookup runs is lost. The model has no
  interleaving.
- The address lookup (`fetch` to Nominatim) is not modelled. Its postcode
  is the `postcode` parameter of `Popup.Save`, and "" stands for no result
  or an error.
- `Date.now()` is not modelled. Its two readings are the `idTime` and
  `orderTime` parameters.
- `confirm` is not modelled. Its answer is the `confirmed` parameter of
  `Dashboard.BulkDelete`. The code adds the bulk-delete click listener
  again on every render (dashboard.js:178), so after `n` renders one click
  asks `n` times and runs the filter up to `n` times. The stored list ends
  the same, because removing the same ids twice changes nothing
  (`Saved.RemoveIdsTwice`), so the model has one listener.
- The placeholder position is not modelled. The card the placeholder
  stands before is the `beforeId` parameter of `Dashboard.Drop`, and `""`
  stands for none.
- Storage and messaging. `chrome.storage`, `chrome.tabs` and
  `chrome.runtime` messaging, the tab's URL (a parameter), `window.close`,
  the `storage.onChanged` re-render and the search debounce are not
  modelled.
- Zip.SortByScore, Dashboard.SortDesc: the in-place `Array.prototype.sort`
  is modelled as a stable insertion sort on sequences, and `pop` as the
  last element.
- HTML rendering. The card markup, the `areaLine` with the ZIP
  (dashboard.js:46-51), the column headers, the "clear all" button and the
  selection highlight only render or reset. background.js is context-menu
  wiring.

## Findings

| source | as written | input that shows it | evidently intended | confidence | as-written member | corrected member |
|---|---|---|---|---|---|---|
| content.js:195-196 | the meta description's length test `longEnough(metaDesc)` runs on the trimmed text before its whitespace runs are collapsed, so it can pass a text that the dedup then shortens below 120 characters | no headings or description elements, and a meta description "a", 119 spaces, "b" (121 characters) returns "a b" | no description under 120 characters (`longEnough`: "avoid tiny snippets"), so the test applies to the cleaned text | not executed | Description.ShortMetaDescriptionReturned | Description.IntendedDescriptionSpec |

The scrape (`Scrape.Merge`, `Scrape.ScrapeListing`) and the method
`Description.FindDescription` follow the code as written
(`Description.FindDescriptionAsWritten`). `Description.FindDescriptionIntended`
is the corrected definition.
