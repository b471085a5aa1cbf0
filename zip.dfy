/** `extractZip`: the ZIP code resolver of the content script. Every source
    on the page (the URL, address elements, an "about the building" section,
    the top body lines) may push a weighted candidate; the candidates are
    sorted by score, ascending and stably, and the last one is popped, so the
    highest score wins and, among equal scores, the candidate pushed last. */
module Zip {
  import opened Seqs
  import opened JsText

  // -------------------------------------------------------- recognisers

  /** `/\b(\d{5})\b/` matches at `i`: five digits with no word character
      on either side. */
  predicate ZipAt(s: string, i: nat) {
    i + 5 <= |s| && AllDigits(s[i..i + 5])
    && (i == 0 || !IsWordChar(s[i - 1]))
    && (i + 5 == |s| || !IsWordChar(s[i + 5]))
  }

  /** Position of the leftmost match at or after `from`. */
  function ZipFrom(s: string, from: nat): (r: Option<nat>)
    ensures r.Some? ==> from <= r.value && ZipAt(s, r.value)
    ensures forall j :: from <= j && (r.None? || j < r.value) ==> !ZipAt(s, j)
    decreases |s| - from
  {
    if from + 5 > |s| then None
    else if ZipAt(s, from) then Some(from)
    else ZipFrom(s, from + 1)
  }

  /** `s.match(/\b(\d{5})\b/)?.[1]`: the first word-bounded five-digit token. */
  function FirstZip(s: string): (r: Option<string>)
    ensures r.None? <==> forall j :: !ZipAt(s, j)
    ensures r.Some? ==> exists k: nat :: ZipAt(s, k) && r.value == s[k..k + 5]
                                    && forall j :: 0 <= j < k ==> !ZipAt(s, j)
  {
    match ZipFrom(s, 0)
    case None => None
    case Some(k) => Some(s[k..k + 5])
  }

  /** A five-digit string is its own first token. */
  lemma FirstZipOfCode(code: string)
    requires |code| == 5 && AllDigits(code)
    ensures FirstZip(code) == Some(code)
  {
    assert ZipAt(code, 0);
    assert code[0..5] == code;
  }

  /** Length of the run of `\s` characters starting at `p`. */
  function SpaceRun(s: string, p: nat): (n: nat)
    ensures p + n <= |s| || n == 0
    decreases |s| - p
  {
    if p < |s| && IsSpace(s[p]) then 1 + SpaceRun(s, p + 1) else 0
  }

  /** Length of the run of `[\s,]` characters starting at `p`. */
  function SeparatorRun(s: string, p: nat): (n: nat)
    ensures p + n <= |s| || n == 0
    ensures forall i :: p <= i < p + n ==> IsSpace(s[i]) || s[i] == ','
    decreases |s| - p
  {
    if p < |s| && (IsSpace(s[p]) || s[p] == ',') then 1 + SeparatorRun(s, p + 1) else 0
  }

  /** `/a\s*b/i` matches at `i` (`a` and `b` lower-case literals). */
  predicate GapAt(s: string, a: string, b: string, i: nat) {
    i + |a| <= |s| && Lower(s[i..i + |a|]) == a
    && var q := i + |a| + SpaceRun(s, i + |a|);
       q + |b| <= |s| && Lower(s[q..q + |b|]) == b
  }

  predicate GapFrom(s: string, a: string, b: string, i: nat)
    decreases |s| - i
  {
    i < |s| && (GapAt(s, a, b, i) || GapFrom(s, a, b, i + 1))
  }

  /** End of the keyword of `(?:NY|New\s*York)` when it starts at `p`, in
      either case. The two alternatives differ in their second letter, so at
      most one of them applies. */
  function NewYorkEnd(s: string, p: nat): (r: Option<nat>)
    ensures r.Some? ==> p < r.value <= |s|
  {
    if p + 2 <= |s| && Lower(s[p..p + 2]) == "ny" then Some(p + 2)
    else if GapAt(s, "new", "york", p) then Some(p + 3 + SpaceRun(s, p + 3) + 4)
    else None
  }

  /** The capture of `/(?:NY|New\s*York)[\s,]+(\d{5})/i` for a match that
      starts at `p`. Neither `\s*` nor `[\s,]+` can give characters back to
      what follows them (a letter or a digit), so the greedy runs decide. */
  function NewYorkZipAt(s: string, p: nat): (r: Option<string>)
    ensures r.Some? ==> |r.value| == 5 && AllDigits(r.value)
  {
    match NewYorkEnd(s, p)
    case None => None
    case Some(e) =>
      var n := SeparatorRun(s, e);
      if n >= 1 && e + n + 5 <= |s| && AllDigits(s[e + n..e + n + 5]) then Some(s[e + n..e + n + 5])
      else None
  }

  /** Where the leftmost match at or after `from` starts. */
  function NewYorkZipFrom(s: string, from: nat): (r: Option<nat>)
    ensures r.Some? ==> from <= r.value && NewYorkZipAt(s, r.value).Some?
    ensures forall p :: from <= p && (r.None? || p < r.value) ==> NewYorkZipAt(s, p).None?
    decreases |s| - from
  {
    if from >= |s| then
      assert forall p :: from <= p ==> NewYorkEnd(s, p).None?;
      None
    else if NewYorkZipAt(s, from).Some? then Some(from)
    else NewYorkZipFrom(s, from + 1)
  }

  /** `t.match(/(?:NY|New\s*York)[\s,]+(\d{5})/i)?.[1]`: the capture of the
      leftmost match, none when there is no match. */
  function NewYorkZip(s: string): (r: Option<string>)
    ensures r.Some? ==> |r.value| == 5 && AllDigits(r.value)
    ensures r.None? <==> forall p :: NewYorkZipAt(s, p).None?
    ensures r.Some? ==> exists k: nat :: NewYorkZipAt(s, k) == r && forall p :: 0 <= p < k ==> NewYorkZipAt(s, p).None?
  {
    match NewYorkZipFrom(s, 0)
    case None => None
    case Some(k) => NewYorkZipAt(s, k)
  }

  /** `/(?:-|\/)(1[01]\d{3})(?:-|\/|$)/` matches at `p`. */
  predicate UrlZipAt(path: string, p: nat) {
    p + 6 <= |path| && (path[p] == '-' || path[p] == '/')
    && path[p + 1] == '1' && (path[p + 2] == '0' || path[p + 2] == '1')
    && AllDigits(path[p + 3..p + 6])
    && (p + 6 == |path| || path[p + 6] == '-' || path[p + 6] == '/')
  }

  function UrlZipFrom(path: string, from: nat): (r: Option<nat>)
    ensures r.Some? ==> from <= r.value && UrlZipAt(path, r.value)
    ensures forall j :: from <= j && (r.None? || j < r.value) ==> !UrlZipAt(path, j)
    decreases |path| - from
  {
    if from + 6 > |path| then None
    else if UrlZipAt(path, from) then Some(from)
    else UrlZipFrom(path, from + 1)
  }

  /** `path.match(/(?:-|\/)(1[01]\d{3})(?:-|\/|$)/)?.[1]`: the five
      characters after the separator of the leftmost match, none when there
      is no match. */
  function UrlZip(path: string): (r: Option<string>)
    ensures r.Some? ==> |r.value| == 5 && AllDigits(r.value) && r.value[..2] in {"10", "11"}
    ensures r.None? <==> forall j :: !UrlZipAt(path, j)
    ensures r.Some? ==> exists k: nat :: UrlZipAt(path, k) && r.value == path[k + 1..k + 6]
                                     && forall j :: 0 <= j < k ==> !UrlZipAt(path, j)
  {
    match UrlZipFrom(path, 0)
    case None => None
    case Some(p) =>
      var z := path[p + 1..p + 6];
      assert forall i :: 2 <= i < 5 ==> z[i] == path[p + 3..p + 6][i - 2];
      assert AllDigits(z);
      assert z[..2] == [path[p + 1], path[p + 2]];
      assert z[..2] == "10" || z[..2] == "11";
      Some(z)
  }

  /** `/(brooklyn|queens|manhattan|bronx|staten\s*island)/i` */
  predicate MentionsBorough(line: string) {
    var l := Lower(line);
    Contains(l, "brooklyn") || Contains(l, "queens") || Contains(l, "manhattan")
    || Contains(l, "bronx") || GapFrom(line, "staten", "island", 0)
  }

  /** `/(NY|New\s*York)/i` */
  predicate MentionsNewYork(line: string) {
    Contains(Lower(line), "ny") || GapFrom(line, "new", "york", 0)
  }

  /** `/about the building|building info|building details|about this building/i` */
  predicate IsAboutHeading(t: string) {
    var l := Lower(t);
    Contains(l, "about the building") || Contains(l, "building info")
    || Contains(l, "building details") || Contains(l, "about this building")
  }

  // --------------------------------------------------------- candidates

  datatype Candidate = Candidate(zip: string, score: int)

  /** `/^(10\d{3}|11\d{3})$/.test(code)` */
  predicate IsNycCode(code: string) {
    |code| == 5 && AllDigits(code) && code[..2] in {"10", "11"}
  }

  /** What `push(zip, weight)` appends: nothing when `zip` holds no
      word-bounded five-digit token, else its first such token, scored with
      the weight plus 10 for a New York City code. */
  function ZipCandidate(zip: string, weight: int): (r: Option<Candidate>)
    ensures r.None? <==> forall j :: !ZipAt(zip, j)
    ensures r.Some? ==> FirstZip(zip) == Some(r.value.zip) && |r.value.zip| == 5 && AllDigits(r.value.zip)
    ensures r.Some? ==> (r.value.score == weight + 10 <==> r.value.zip[..2] in {"10", "11"})
    ensures r.Some? ==> (r.value.score == weight <==> r.value.zip[..2] !in {"10", "11"})
  {
    match FirstZip(zip)
    case None => None
    case Some(code) =>
      assert AllDigits(code) by { var k: nat :| ZipAt(zip, k) && code == zip[k..k + 5]; }
      Some(Candidate(code, weight + if IsNycCode(code) then 10 else 0))
  }

  /** The candidate list after `push(zip, weight)`. */
  function Push(cands: seq<Candidate>, zip: string, weight: int): (r: seq<Candidate>)
    ensures |cands| <= |r| <= |cands| + 1 && r[..|cands|] == cands
  {
    match ZipCandidate(zip, weight)
    case None => cands
    case Some(c) => cands + [c]
  }

  /** The part of a page `extractZip` reads. `sections` pairs the text of
      each heading with the text of the section the DOM lookup
      `closest('section') || parentElement || nextElementSibling` finds. */
  datatype ZipPage = ZipPage(
    hostname: string,
    pathname: string,
    addressTexts: seq<string>,
    headings: seq<(string, string)>,
    bodyLines: seq<string>)

  /** 1) The URL: a `1[01]ddd` path segment, weighted 95 on nooklyn.com. */
  function UrlCandidates(hostname: string, pathname: string): seq<Candidate> {
    match UrlZip(hostname + pathname)
    case None => []
    case Some(code) => Push([], code, if ContainsCI(hostname, "nooklyn.com") then 95 else 75)
  }

  /** 2) One address element: a ZIP after "NY"/"New York" scores 90, else
      any token 70. */
  function AddressPush(cands: seq<Candidate>, t: string): seq<Candidate> {
    match NewYorkZip(t)
    case Some(code) => Push(cands, code, 90)
    case None =>
      match FirstZip(t)
      case Some(code) => Push(cands, code, 70)
      case None => cands
  }

  /** The push for one address element, from its cleaned text. */
  function AddressElementPush(cands: seq<Candidate>, text: string): seq<Candidate> {
    AddressPush(cands, Normalize(text))
  }

  function AddressCandidates(cands: seq<Candidate>, texts: seq<string>): seq<Candidate> {
    FoldLeft(cands, texts, AddressElementPush)
  }

  /** 3) The section of the first "about the building" heading: a ZIP after
      "NY" scores 92 and, independently, the first token 75. */
  function AboutCandidates(cands: seq<Candidate>, headings: seq<(string, string)>): seq<Candidate> {
    match FindIndex(headings, (h: (string, string)) => IsAboutHeading(Normalize(h.0)))
    case None => cands
    case Some(i) =>
      var t := Normalize(headings[i].1);
      var withNy := match NewYorkZip(t) case Some(code) => Push(cands, code, 92) case None => cands;
      match FirstZip(t) case Some(code) => Push(withNy, code, 75) case None => withNy
  }

  /** 4) One body line with a token, a borough and "NY": its first token, 75. */
  function LinePush(cands: seq<Candidate>, line: string): seq<Candidate> {
    match FirstZip(line)
    case None => cands
    case Some(code) => if MentionsBorough(line) && MentionsNewYork(line) then Push(cands, code, 65 + 10) else cands
  }

  function LineCandidates(cands: seq<Candidate>, lines: seq<string>): seq<Candidate> {
    FoldLeft(cands, lines, LinePush)
  }

  /** Every candidate `extractZip` pushes, in push order. */
  function ZipCandidates(page: ZipPage): seq<Candidate> {
    var fromUrl := UrlCandidates(page.hostname, page.pathname);
    var fromAddress := AddressCandidates(fromUrl, page.addressTexts);
    var fromAbout := AboutCandidates(fromAddress, page.headings);
    LineCandidates(fromAbout, Take(page.bodyLines, 150))
  }

  // ---------------------------------------------------------- the pick

  predicate SortedByScore(s: seq<Candidate>) {
    forall i, j :: 0 <= i < j < |s| ==> s[i].score <= s[j].score
  }

  /** One step of a stable insertion sort: `x`, which comes after every
      element of `t` in the input, goes after all of them whose score is not
      higher. */
  function InsertByScore(t: seq<Candidate>, x: Candidate): (r: seq<Candidate>)
    ensures |r| == |t| + 1
    ensures multiset(r) == multiset(t) + multiset{x}
    ensures SortedByScore(t) ==> SortedByScore(r)
  {
    if t == [] || t[|t| - 1].score <= x.score then t + [x]
    else
      var front := t[..|t| - 1];
      var last := t[|t| - 1];
      var r' := InsertByScore(front, x);
      assert t == front + [last];
      InsertByScoreStep(front, last, x, r');
      r' + [last]
  }

  /** Putting `last` back after the insertion into `front`, when `x` scores
      lower than `last`. */
  lemma InsertByScoreStep(front: seq<Candidate>, last: Candidate, x: Candidate, r': seq<Candidate>)
    requires multiset(r') == multiset(front) + multiset{x}
    requires SortedByScore(front) ==> SortedByScore(r')
    requires x.score < last.score
    ensures multiset(r' + [last]) == multiset(front + [last]) + multiset{x}
    ensures SortedByScore(front + [last]) ==> SortedByScore(r' + [last])
  {
    var t := front + [last];
    if SortedByScore(t) {
      assert SortedByScore(front) by {
        forall i, j | 0 <= i < j < |front| ensures front[i].score <= front[j].score {
          assert t[i] == front[i] && t[j] == front[j];
        }
      }
      assert t[|front|] == last;
      forall i | 0 <= i < |r'| ensures r'[i].score <= last.score {
        assert r'[i] in multiset(r');
        if r'[i] != x {
          assert r'[i] in multiset(front);
          var j :| 0 <= j < |front| && front[j] == r'[i];
          assert t[j] == r'[i];
        }
      }
      var r := r' + [last];
      forall i, j | 0 <= i < j < |r| ensures r[i].score <= r[j].score {
        assert r[i] == r'[i];
        if j < |r'| {
          assert r[j] == r'[j];
        }
      }
    }
  }

  /** `candidates.sort((a, b) => a.score - b.score)`: ascending by score and
      stable, as `Array.prototype.sort` is. */
  function SortByScore(s: seq<Candidate>): (r: seq<Candidate>)
    ensures |r| == |s|
    ensures SortedByScore(r)
    ensures multiset(r) == multiset(s)
  {
    if s == [] then []
    else
      assert s == s[..|s| - 1] + [s[|s| - 1]];
      InsertByScore(SortByScore(s[..|s| - 1]), s[|s| - 1])
  }

  /** `k` holds a maximal score and is the last index that does. */
  predicate IsLastBest(s: seq<Candidate>, k: nat) {
    k < |s|
    && (forall j :: 0 <= j < |s| ==> s[j].score <= s[k].score)
    && (forall j :: k < j < |s| ==> s[j].score < s[k].score)
  }

  function LastBestIndex(s: seq<Candidate>): (k: nat)
    requires s != []
    ensures IsLastBest(s, k)
  {
    if |s| == 1 then 0
    else
      var k := LastBestIndex(s[..|s| - 1]);
      if s[|s| - 1].score >= s[k].score then |s| - 1 else k
  }

  /** The popped element of the sorted list is the last candidate with the
      highest score. */
  lemma {:induction false} LastOfSortIsLastBest(s: seq<Candidate>)
    requires s != []
    ensures SortByScore(s)[|s| - 1] == s[LastBestIndex(s)]
  {
    var p := s[..|s| - 1];
    var x := s[|s| - 1];
    var sp := SortByScore(p);
    assert SortByScore(s) == InsertByScore(sp, x);
    if p != [] {
      LastOfSortIsLastBest(p);
      var k := LastBestIndex(p);
      assert sp[|sp| - 1] == p[k] == s[k];
      if sp[|sp| - 1].score > x.score {
        assert InsertByScore(sp, x) == InsertByScore(sp[..|sp| - 1], x) + [sp[|sp| - 1]];
      }
    }
  }

  /** A New York City code from the URL (weight 75, plus 10) beats a
      non-NYC code from an address element (weight 70), whatever the order
      they were pushed in. */
  lemma {:induction false} NycUrlCodeBeatsPlainCode()
    ensures ZipCandidate("11385", 75) == Some(Candidate("11385", 85))
    ensures ZipCandidate("90210", 70) == Some(Candidate("90210", 70))
    ensures LastBestIndex([Candidate("11385", 85), Candidate("90210", 70)]) == 0
    ensures LastBestIndex([Candidate("90210", 70), Candidate("11385", 85)]) == 1
  {
    FirstZipOfCode("11385");
    FirstZipOfCode("90210");
    assert "11385"[..2] == "11";
    assert "90210"[..2] == "90";
  }

  // ------------------------------------------------------------ method

  /** What `extractZip` may return: `None` when no candidate was pushed,
      else the ZIP of a last candidate with the highest score. */
  ghost predicate IsExtractedZip(page: ZipPage, zip: Option<string>) {
    var cands := ZipCandidates(page);
    && (zip.None? <==> cands == [])
    && (zip.Some? ==> exists k: nat :: IsLastBest(cands, k) && zip.value == cands[k].zip)
  }

  /** `extractZip()`: `None` when nothing was pushed, else the ZIP of the
      last candidate with the highest score. */
  method ExtractZip(page: ZipPage) returns (zip: Option<string>)
    ensures IsExtractedZip(page, zip)
  {
    var candidates := UrlCandidates(page.hostname, page.pathname);
    candidates := PushAddresses(candidates, page.addressTexts);
    candidates := AboutCandidates(candidates, page.headings);
    candidates := PushLines(candidates, Take(page.bodyLines, 150));

    if |candidates| == 0 {
      return None;
    }
    assert candidates == ZipCandidates(page);
    var sorted := SortByScore(candidates);
    LastOfSortIsLastBest(candidates);
    ghost var k := LastBestIndex(candidates);
    assert IsLastBest(candidates, k) && sorted[|sorted| - 1].zip == candidates[k].zip;
    zip := Some(sorted[|sorted| - 1].zip);
  }

  /** The `forEach` over the address elements. */
  method PushAddresses(cands: seq<Candidate>, texts: seq<string>) returns (r: seq<Candidate>)
    ensures r == AddressCandidates(cands, texts)
  {
    r := cands;
    var i := 0;
    while i < |texts|
      invariant 0 <= i <= |texts|
      invariant r == AddressCandidates(cands, texts[..i])
    {
      FoldLeftStep(cands, texts, i, AddressElementPush);
      var t := Normalize(texts[i]);
      r := AddressPush(r, t);
      i := i + 1;
    }
    assert texts[..i] == texts;
  }

  /** The `for (const line of bodyLines)` loop. */
  method PushLines(cands: seq<Candidate>, lines: seq<string>) returns (r: seq<Candidate>)
    ensures r == LineCandidates(cands, lines)
  {
    r := cands;
    var i := 0;
    while i < |lines|
      invariant 0 <= i <= |lines|
      invariant r == LineCandidates(cands, lines[..i])
    {
      FoldLeftStep(cands, lines, i, LinePush);
      r := LinePush(r, lines[i]);
      i := i + 1;
    }
    assert lines[..i] == lines;
  }
}
