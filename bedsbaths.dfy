/** `extractBedsBaths`: a scan over page snippets that keeps the largest
    bedroom and bathroom counts seen, lets "studio" stand for 0 bedrooms,
    and stops after the first snippet at which both counts are known. */
module BedsBaths {
  import opened Seqs
  import opened JsText

  /** What the four regular expressions find in one snippet: the two
      captures of the combined "3 bd 2 ba" pattern, the capture of the
      bedroom pattern, the capture of the bathroom pattern, and whether
      `/\bstudio\b/i` matches. A capture is `\d+(?:\.\d+)?`, so its
      `parseFloat` is a finite, non-negative number. */
  datatype Matches = Matches(combo: Option<(real, real)>, bed: Option<real>, bath: Option<real>, studio: bool)

  predicate ValidMatches(m: Matches) {
    (m.combo.Some? ==> m.combo.value.0 >= 0.0 && m.combo.value.1 >= 0.0)
    && (m.bed.Some? ==> m.bed.value >= 0.0)
    && (m.bath.Some? ==> m.bath.value >= 0.0)
  }

  /** `foundBeds` and `foundBaths`; `None` is `null`. */
  datatype Found = Found(beds: Option<real>, baths: Option<real>)

  const Unset := Found(None, None)

  predicate BothFound(f: Found) { f.beds.Some? && f.baths.Some? }

  /** `found = found == null ? v : Math.max(found, v)` */
  function Raise(found: Option<real>, v: real): (r: Option<real>)
    ensures r.Some?
    ensures found.None? ==> r.value == v
    ensures found.Some? ==> r.value >= found.value && r.value >= v
    ensures found.Some? ==> r.value == found.value || r.value == v
  {
    match found
    case None => Some(v)
    case Some(f) => Some(if f >= v then f else v)
  }

  function RaiseBy(found: Option<real>, v: Option<real>): Option<real> {
    if v.Some? then Raise(found, v.value) else found
  }

  /** `tryParse(s)`, given what the patterns found in `s`. */
  function TryParse(f: Found, m: Matches): (r: Found)
  {
    var beds := if m.combo.Some? then Raise(f.beds, m.combo.value.0) else f.beds;
    var baths := if m.combo.Some? then Raise(f.baths, m.combo.value.1) else f.baths;
    var beds := RaiseBy(beds, m.bed);
    var baths := RaiseBy(baths, m.bath);
    var beds := if m.studio && (beds.None? || beds == Some(0.0)) then Some(0.0) else beds;
    Found(beds, baths)
  }

  /** The values a snippet's matches offer as bedroom counts. */
  function BedValues(m: Matches): set<real> {
    (if m.combo.Some? then {m.combo.value.0} else {}) + (if m.bed.Some? then {m.bed.value} else {})
  }

  function BathValues(m: Matches): set<real> {
    (if m.combo.Some? then {m.combo.value.1} else {}) + (if m.bath.Some? then {m.bath.value} else {})
  }

  /** One step is monotone: a known count stays known and does not drop
      (a studio resets the bedroom count to 0 only when it is unset or 0). */
  lemma TryParseMonotone(f: Found, m: Matches)
    ensures f.beds.Some? ==> TryParse(f, m).beds.Some? && TryParse(f, m).beds.value >= f.beds.value
    ensures f.baths.Some? ==> TryParse(f, m).baths.Some? && TryParse(f, m).baths.value >= f.baths.value
  {
  }

  /** A step's counts are the earlier count, a value the snippet offers, or
      (for bedrooms, on a studio) 0; every offered value is reached. */
  lemma TryParseSound(f: Found, m: Matches)
    ensures var r := TryParse(f, m);
            r.beds.Some? ==> r.beds == f.beds || r.beds.value in BedValues(m) || (m.studio && r.beds.value == 0.0)
    ensures var r := TryParse(f, m);
            r.baths.Some? ==> r.baths == f.baths || r.baths.value in BathValues(m)
    ensures forall v :: v in BedValues(m) ==> TryParse(f, m).beds.Some? && TryParse(f, m).beds.value >= v
    ensures forall v :: v in BathValues(m) ==> TryParse(f, m).baths.Some? && TryParse(f, m).baths.value >= v
  {
  }

  /** The studio rule: a studio snippet leaves 0 bedrooms exactly when its
      own bedroom matches plus the earlier count give nothing above 0. */
  lemma {:induction false} StudioRule(f: Found, m: Matches)
    requires m.studio && ValidMatches(m)
    requires f.beds.None? || f.beds.value >= 0.0
    ensures TryParse(f, m).beds == Some(0.0)
            <==> (f.beds.None? || f.beds == Some(0.0)) && forall v :: v in BedValues(m) ==> v == 0.0
  {
    var b1 := if m.combo.Some? then Raise(f.beds, m.combo.value.0) else f.beds;
    var b2 := RaiseBy(b1, m.bed);
    if (f.beds.None? || f.beds == Some(0.0)) && forall v :: v in BedValues(m) ==> v == 0.0 {
      assert m.combo.Some? ==> m.combo.value.0 in BedValues(m);
      assert m.bed.Some? ==> m.bed.value in BedValues(m);
      assert b2.None? || b2 == Some(0.0);
    } else if f.beds.Some? && f.beds != Some(0.0) {
      assert b2.Some? && b2.value >= f.beds.value > 0.0;
    } else {
      var v :| v in BedValues(m) && v != 0.0;
      assert b2.Some? && b2.value >= v > 0.0;
    }
  }

  /** `for (const s of texts) { tryParse(s); if (both found) break; }` */
  function Scan(f: Found, texts: seq<string>, recognise: string -> Matches): Found
    decreases |texts|
  {
    if texts == [] then f
    else
      var f' := TryParse(f, recognise(texts[0]));
      if BothFound(f') then f' else Scan(f', texts[1..], recognise)
  }

  /** Known counts never decrease over the scan. */
  lemma {:induction false} ScanMonotone(f: Found, texts: seq<string>, recognise: string -> Matches)
    ensures f.beds.Some? ==> Scan(f, texts, recognise).beds.Some? && Scan(f, texts, recognise).beds.value >= f.beds.value
    ensures f.baths.Some? ==> Scan(f, texts, recognise).baths.Some? && Scan(f, texts, recognise).baths.value >= f.baths.value
    decreases |texts|
  {
    if texts != [] {
      var f' := TryParse(f, recognise(texts[0]));
      TryParseMonotone(f, recognise(texts[0]));
      if !BothFound(f') {
        ScanMonotone(f', texts[1..], recognise);
      }
    }
  }

  /** The early stop: once the first `i` snippets leave both counts known,
      the later snippets change nothing. */
  lemma {:induction false} ScanStops(f: Found, texts: seq<string>, i: nat, recognise: string -> Matches)
    requires 0 < i <= |texts|
    requires BothFound(Scan(f, texts[..i], recognise))
    ensures Scan(f, texts, recognise) == Scan(f, texts[..i], recognise)
    decreases i
  {
    var f' := TryParse(f, recognise(texts[0]));
    assert texts[..i][0] == texts[0];
    if !BothFound(f') {
      assert texts[..i][1..] == texts[1..][..i - 1];
      if i > 1 {
        ScanStops(f', texts[1..], i - 1, recognise);
      }
    }
  }

  /** Every snippet is looked at until both counts are known: when no prefix
      but the whole leaves both known, the scan raises each count to at least
      every value any snippet offers. */
  lemma {:induction false} ScanSeesAll(f: Found, texts: seq<string>, recognise: string -> Matches, i: nat)
    requires i < |texts|
    requires forall j :: 0 < j < |texts| ==> !BothFound(Scan(f, texts[..j], recognise))
    ensures forall v :: v in BedValues(recognise(texts[i])) ==>
              Scan(f, texts, recognise).beds.Some? && Scan(f, texts, recognise).beds.value >= v
    ensures forall v :: v in BathValues(recognise(texts[i])) ==>
              Scan(f, texts, recognise).baths.Some? && Scan(f, texts, recognise).baths.value >= v
    decreases |texts|
  {
    var f' := TryParse(f, recognise(texts[0]));
    TryParseSound(f, recognise(texts[0]));
    if i == 0 {
      if !BothFound(f') {
        ScanMonotone(f', texts[1..], recognise);
      }
    } else {
      assert texts[..1] == [texts[0]];
      forall j | 0 < j < |texts[1..]|
        ensures !BothFound(Scan(f', texts[1..][..j], recognise))
      {
        assert texts[..j + 1][0] == texts[0] && texts[..j + 1][1..] == texts[1..][..j];
        assert Scan(f, texts[..j + 1], recognise) == Scan(f', texts[1..][..j], recognise);
      }
      ScanSeesAll(f', texts[1..], recognise, i - 1);
    }
  }

  /** `Number.isFinite(found) ? found : 0` */
  function OrZero(found: Option<real>): real {
    found.GetOr(0.0)
  }

  /** `/bed|bath|bd|ba|studio/i.test(l)` */
  predicate MentionsBedOrBath(l: string) {
    var lower := Lower(l);
    Contains(lower, "bed") || Contains(lower, "bath") || Contains(lower, "bd")
    || Contains(lower, "ba") || Contains(lower, "studio")
  }

  /** The non-empty cleaned texts of the selector elements, then the first
      50 body lines that mention a bed or bath, trimmed. */
  function Snippets(elementTexts: seq<string>, bodyLines: seq<string>): seq<string> {
    Filter(Map(elementTexts, Normalize), (t: string) => t != [])
    + Map(Take(Filter(bodyLines, MentionsBedOrBath), 50), Trim)
  }

  /** The `texts` set, in insertion order. */
  function ScanTexts(elementTexts: seq<string>, bodyLines: seq<string>): seq<string> {
    Dedup(Snippets(elementTexts, bodyLines))
  }

  /** `extractBedsBaths()`: the counts the scan over the deduplicated
      snippets leaves, each 0 when unset. */
  method ExtractBedsBaths(elementTexts: seq<string>, bodyLines: seq<string>, recognise: string -> Matches)
    returns (beds: real, baths: real)
    ensures var f := Scan(Unset, ScanTexts(elementTexts, bodyLines), recognise);
            beds == OrZero(f.beds) && baths == OrZero(f.baths)
  {
    var texts := CollectSnippets(Snippets(elementTexts, bodyLines));
    var found := Unset;
    var i := 0;
    while i < |texts|
      invariant 0 <= i <= |texts|
      invariant !BothFound(found)
      invariant Scan(found, texts[i..], recognise) == Scan(Unset, texts, recognise)
    {
      assert texts[i..][0] == texts[i] && texts[i..][1..] == texts[i + 1..];
      found := TryParse(found, recognise(texts[i]));
      if BothFound(found) {
        break;
      }
      i := i + 1;
    }
    beds := OrZero(found.beds);
    baths := OrZero(found.baths);
  }

  /** Adds each snippet to the insertion-ordered set `texts`. */
  method CollectSnippets(snippets: seq<string>) returns (texts: seq<string>)
    ensures texts == Dedup(snippets)
  {
    texts := [];
    var i := 0;
    while i < |snippets|
      invariant 0 <= i <= |snippets|
      invariant texts == Dedup(snippets[..i])
    {
      assert snippets[..i + 1][..i] == snippets[..i];
      if snippets[i] !in texts {
        texts := texts + [snippets[i]];
      }
      i := i + 1;
    }
    assert snippets[..i] == snippets;
  }

  /** Two snippets "2 bed" then "1 bed": the larger count stays. */
  lemma {:induction false} LargerCountStays(recognise: string -> Matches)
    requires recognise("2 bed") == Matches(None, Some(2.0), None, false)
    requires recognise("1 bed") == Matches(None, Some(1.0), None, false)
    ensures Scan(Unset, ["2 bed", "1 bed"], recognise).beds == Some(2.0)
  {
    var f1 := TryParse(Unset, recognise("2 bed"));
    assert f1 == Found(Some(2.0), None);
    assert ["2 bed", "1 bed"][1..] == ["1 bed"];
    assert TryParse(f1, recognise("1 bed")) == Found(Some(2.0), None);
  }
}
