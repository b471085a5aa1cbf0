/** `findDescription`: the page's description is the longest of the
    candidate texts found under description-like headings, in
    description-like elements and in the meta description, once each has
    been whitespace-normalised and duplicates dropped; a text shorter than
    120 characters does not become a candidate. The meta description is
    measured before its inner whitespace is collapsed, so its normalised
    text can be shorter than that (`FindDescriptionAsWritten`, with the
    intended reading in `FindDescriptionIntended`). */
module Description {
  import opened Seqs
  import opened JsText

  const MinLength: nat := 120

  /** `longEnough(s)` */
  predicate LongEnough(s: string) { |s| >= MinLength }

  // ------------------------------------------------------ heading labels

  const HeadingLabels: seq<string> := [
    "description", "about", "overview", "property description", "home description",
    "listing description", "details", "more information", "read more"]

  predicate IsLetter(c: char) { 'a' <= c <= 'z' || 'A' <= c <= 'Z' }

  /** `(^|[^a-z])lbl([^a-z]|$)` with the `i` flag matches with `lbl`
      at `i`: `[^a-z]` under `i` excludes the letters of both cases. */
  predicate LabelAt(ht: string, lbl: string, i: nat) {
    i + |lbl| <= |ht| && Lower(ht[i..i + |lbl|]) == lbl
    && (i == 0 || !IsLetter(ht[i - 1]))
    && (i + |lbl| == |ht| || !IsLetter(ht[i + |lbl|]))
  }

  predicate LabelFrom(ht: string, lbl: string, i: nat)
    decreases |ht| - i
  {
    i <= |ht| && (LabelAt(ht, lbl, i) || LabelFrom(ht, lbl, i + 1))
  }

  /** `headingLabels.some(lbl => new RegExp(...).test(ht))` */
  predicate MatchesLabel(ht: string) {
    exists k :: 0 <= k < |HeadingLabels| && LabelFrom(ht, HeadingLabels[k], 0)
  }

  // --------------------------------------------------- collectBlockText

  /** `t && t.length > 40` */
  predicate IsPiece(t: string) { |t| > 40 }

  /** The cleaned block texts longer than 40 characters, in document order. */
  function Pieces(blockTexts: seq<string>): seq<string> {
    MapFilter(blockTexts, Normalize, IsPiece)
  }

  /** The pieces `collectBlockText` joins: at most the first 8. */
  function BlockPieces(blockTexts: seq<string>): seq<string> {
    Take(Pieces(blockTexts), 8)
  }

  /** `collectBlockText(container)` */
  function BlockText(blockTexts: seq<string>): string {
    Normalize(Join(BlockPieces(blockTexts), " "))
  }

  /** At most 8 pieces are joined, each longer than 40 characters,
      whitespace-normalised and the cleaned text of one of the blocks. */
  lemma BlockPiecesSpec(blockTexts: seq<string>)
    ensures |BlockPieces(blockTexts)| <= 8
    ensures forall p :: p in BlockPieces(blockTexts) ==>
              |p| > 40 && IsNormalized(p) && exists i :: 0 <= i < |blockTexts| && p == Normalize(blockTexts[i])
  {
    MapFilterSpec(blockTexts, Normalize, IsPiece);
    var all := Pieces(blockTexts);
    forall p | p in BlockPieces(blockTexts) ensures p in all {
      var k :| 0 <= k < |BlockPieces(blockTexts)| && BlockPieces(blockTexts)[k] == p;
      assert all[k] == p;
    }
  }

  /** The loop of `collectBlockText`, which stops once it holds 8 pieces. */
  method CollectBlockText(blockTexts: seq<string>) returns (combined: string)
    ensures combined == BlockText(blockTexts)
  {
    var pieces: seq<string> := [];
    var i := 0;
    while i < |blockTexts|
      invariant 0 <= i <= |blockTexts|
      invariant pieces == Pieces(blockTexts[..i])
      invariant |pieces| < 8
    {
      // `t && t.length > 40`: a text longer than 40 is non-empty
      var t := Normalize(blockTexts[i]);
      MapFilterStep(blockTexts, Normalize, IsPiece, i);
      if IsPiece(t) {
        pieces := pieces + [t];
      }
      i := i + 1;
      if |pieces| >= 8 {
        break;
      }
    }
    MapFilterStop(blockTexts, Normalize, IsPiece, i, 8);
    combined := Normalize(Join(pieces, " "));
  }

  // --------------------------------------------------------- candidates

  /** A heading with what the DOM navigation finds for it: the raw text of
      the container (`nextElementSibling || parentElement`, possibly moved on
      to its next sibling) and the raw texts of the blocks inside it. A
      missing container has empty texts. */
  datatype DescHeading = DescHeading(text: string, containerText: string, blockTexts: seq<string>)

  /** `getCleanText(container) || collectBlockText(container)` */
  function ContainerText(h: DescHeading): string {
    var t := Normalize(h.containerText);
    if t != "" then t else BlockText(h.blockTexts)
  }

  /** What one heading pushes. */
  function HeadingCandidate(h: DescHeading): seq<string> {
    var ht := Lower(Normalize(h.text));
    if ht == "" || !MatchesLabel(ht) then []
    else
      var t := ContainerText(h);
      if LongEnough(t) then [t] else []
  }

  function HeadingCandidates(headings: seq<DescHeading>): seq<string> {
    if headings == [] then []
    else HeadingCandidates(headings[..|headings| - 1]) + HeadingCandidate(headings[|headings| - 1])
  }

  /** The cleaned texts of the description-like elements that are long enough. */
  function NodeCandidates(nodeTexts: seq<string>): seq<string> {
    MapFilter(nodeTexts, Normalize, LongEnough)
  }

  /** The candidates in push order, as written: the meta description is
      trimmed but not whitespace-collapsed before its length is tested. */
  function CandidatesAsWritten(headings: seq<DescHeading>, nodeTexts: seq<string>, meta: string): seq<string> {
    HeadingCandidates(headings) + NodeCandidates(nodeTexts) + MetaCandidate(meta)
  }

  /** What the meta description pushes, as written. */
  function MetaCandidate(meta: string): seq<string> {
    if LongEnough(Trim(meta)) then [Trim(meta)] else []
  }

  /** The candidates with the length test applied to the text that is
      compared in the end, the whitespace-normalised one. */
  function Candidates(headings: seq<DescHeading>, nodeTexts: seq<string>, meta: string): seq<string> {
    HeadingCandidates(headings) + NodeCandidates(nodeTexts)
    + (if LongEnough(Normalize(Trim(meta))) then [Trim(meta)] else [])
  }

  /** `Array.from(new Set(candidates.map(s => s.replace(/\s+/g, ' ').trim())))` */
  function Unique(candidates: seq<string>): seq<string> {
    Dedup(Map(candidates, Normalize))
  }

  // ------------------------------------------------------------ the pick

  /** `k` is the first of the longest entries: what the stable sort by
      length, descending, puts first. */
  predicate IsFirstLongest(s: seq<string>, k: nat) {
    k < |s| && (forall j :: 0 <= j < |s| ==> |s[j]| <= |s[k]|) && (forall j :: 0 <= j < k ==> |s[j]| < |s[k]|)
  }

  function FirstLongest(s: seq<string>): (k: nat)
    requires s != []
    ensures IsFirstLongest(s, k)
  {
    if |s| == 1 then 0
    else
      var k := FirstLongest(s[..|s| - 1]);
      if |s[|s| - 1]| > |s[k]| then |s| - 1 else k
  }

  /** `unique.sort((a, b) => b.length - a.length); return unique[0] || ''` */
  function Pick(unique: seq<string>): string {
    if unique == [] then "" else unique[FirstLongest(unique)]
  }

  /** What `findDescription` returns. */
  function FindDescriptionAsWritten(headings: seq<DescHeading>, nodeTexts: seq<string>, meta: string): string {
    Pick(Unique(CandidatesAsWritten(headings, nodeTexts, meta)))
  }

  /** What it is evidently meant to return: no text under 120 characters. */
  function FindDescriptionIntended(headings: seq<DescHeading>, nodeTexts: seq<string>, meta: string): string {
    Pick(Unique(Candidates(headings, nodeTexts, meta)))
  }

  // --------------------------------------------------------- properties

  /** Every text is long enough once normalised. */
  predicate AllLongEnough(cands: seq<string>) {
    forall c :: c in cands ==> LongEnough(Normalize(c))
  }

  /** Every candidate is long enough once normalised. */
  lemma CandidatesLongEnough(headings: seq<DescHeading>, nodeTexts: seq<string>, meta: string)
    ensures AllLongEnough(Candidates(headings, nodeTexts, meta))
  {
    HeadingCandidatesLongEnough(headings);
    NodeCandidatesLongEnough(nodeTexts);
    var m := if LongEnough(Normalize(Trim(meta))) then [Trim(meta)] else [];
    assert AllLongEnough(m);
    AllLongEnoughConcat(HeadingCandidates(headings), NodeCandidates(nodeTexts));
    AllLongEnoughConcat(HeadingCandidates(headings) + NodeCandidates(nodeTexts), m);
  }

  lemma AllLongEnoughConcat(a: seq<string>, b: seq<string>)
    requires AllLongEnough(a) && AllLongEnough(b)
    ensures AllLongEnough(a + b)
  {
  }

  lemma HeadingCandidatesLongEnough(headings: seq<DescHeading>)
    ensures AllLongEnough(HeadingCandidates(headings))
  {
    forall c | c in HeadingCandidates(headings) ensures LongEnough(Normalize(c)) {
      HeadingCandidateNormalized(headings, c);
    }
  }

  lemma NodeCandidatesLongEnough(nodeTexts: seq<string>)
    ensures AllLongEnough(NodeCandidates(nodeTexts))
  {
    MapFilterSpec(nodeTexts, Normalize, LongEnough);
    forall c | c in NodeCandidates(nodeTexts) ensures LongEnough(Normalize(c)) {
      var i :| 0 <= i < |nodeTexts| && c == Normalize(nodeTexts[i]);
      NormalizeIdempotent(nodeTexts[i]);
    }
  }

  lemma {:induction false} HeadingCandidateNormalized(headings: seq<DescHeading>, c: string)
    requires c in HeadingCandidates(headings)
    ensures LongEnough(c) && Normalize(c) == c
    decreases |headings|
  {
    var front := headings[..|headings| - 1];
    var h := headings[|headings| - 1];
    if c in HeadingCandidates(front) {
      HeadingCandidateNormalized(front, c);
    } else {
      assert c == ContainerText(h);
      if Normalize(h.containerText) != "" {
        NormalizeIdempotent(h.containerText);
      } else {
        NormalizeIdempotent(Join(BlockPieces(h.blockTexts), " "));
      }
    }
  }

  /** The intended description is empty exactly when there is no
      candidate; otherwise it is a normalised candidate at least 120
      characters long, no unique candidate is longer, and every one seen
      before it is shorter. */
  lemma IntendedDescriptionSpec(headings: seq<DescHeading>, nodeTexts: seq<string>, meta: string)
    ensures var cands := Candidates(headings, nodeTexts, meta);
            var unique := Unique(cands);
            var d := FindDescriptionIntended(headings, nodeTexts, meta);
            && (d == "" <==> cands == [])
            && (d != "" ==> exists k: nat :: IsFirstLongest(unique, k) && d == unique[k])
            && (d != "" ==> LongEnough(d) && IsNormalized(d))
  {
    CandidatesLongEnough(headings, nodeTexts, meta);
    PickOfLongEnough(Candidates(headings, nodeTexts, meta));
  }

  lemma PickOfLongEnough(cands: seq<string>)
    requires AllLongEnough(cands)
    ensures var unique := Unique(cands);
            var d := Pick(unique);
            && (d == "" <==> cands == [])
            && (d != "" ==> exists k: nat :: IsFirstLongest(unique, k) && d == unique[k])
            && (d != "" ==> LongEnough(d) && IsNormalized(d))
  {
    PickOf(cands);
    var d := Pick(Unique(cands));
    if d != "" {
      var i :| 0 <= i < |cands| && d == Normalize(cands[i]);
      assert cands[i] in cands;
    }
  }

  /** The description as written is empty exactly when there is no
      candidate; otherwise it is the normalised text of a candidate that
      passed the 120-character test, no unique candidate is longer, and
      every one seen before it is shorter. */
  lemma AsWrittenDescriptionSpec(headings: seq<DescHeading>, nodeTexts: seq<string>, meta: string)
    ensures var cands := CandidatesAsWritten(headings, nodeTexts, meta);
            var unique := Unique(cands);
            var d := FindDescriptionAsWritten(headings, nodeTexts, meta);
            && (d == "" <==> cands == [])
            && (d != "" ==> exists k: nat :: IsFirstLongest(unique, k) && d == unique[k])
            && (d != "" ==> IsNormalized(d) && exists i :: 0 <= i < |cands| && LongEnough(cands[i]) && d == Normalize(cands[i]))
  {
    var cands := CandidatesAsWritten(headings, nodeTexts, meta);
    CandidatesAsWrittenPass(headings, nodeTexts, meta);
    PickOf(cands);
    var d := Pick(Unique(cands));
    if d != "" {
      var i :| 0 <= i < |cands| && d == Normalize(cands[i]);
      assert cands[i] in cands;
    }
  }

  /** Every text passed the length test and does not normalise to "". */
  predicate AllPassed(cands: seq<string>) {
    forall c :: c in cands ==> LongEnough(c) && Normalize(c) != ""
  }

  lemma CandidatesAsWrittenPass(headings: seq<DescHeading>, nodeTexts: seq<string>, meta: string)
    ensures AllPassed(CandidatesAsWritten(headings, nodeTexts, meta))
  {
    var hs := HeadingCandidates(headings);
    var ns := NodeCandidates(nodeTexts);
    HeadingCandidatesPass(headings);
    NodeCandidatesPass(nodeTexts);
    MetaCandidatePass(meta);
    AllPassedConcat(hs, ns);
    AllPassedConcat(hs + ns, MetaCandidate(meta));
  }

  lemma HeadingCandidatesPass(headings: seq<DescHeading>)
    ensures AllPassed(HeadingCandidates(headings))
  {
    forall c | c in HeadingCandidates(headings) ensures LongEnough(c) && Normalize(c) != "" {
      HeadingCandidateNormalized(headings, c);
    }
  }

  lemma NodeCandidatesPass(nodeTexts: seq<string>)
    ensures AllPassed(NodeCandidates(nodeTexts))
  {
    MapFilterSpec(nodeTexts, Normalize, LongEnough);
    forall c | c in NodeCandidates(nodeTexts) ensures LongEnough(c) && Normalize(c) != "" {
      var i :| 0 <= i < |nodeTexts| && c == Normalize(nodeTexts[i]);
      NormalizeIdempotent(nodeTexts[i]);
    }
  }

  lemma MetaCandidatePass(meta: string)
    ensures AllPassed(MetaCandidate(meta))
  {
    var t := Trim(meta);
    if LongEnough(t) {
      NormalizeNonEmpty(t);
      SinglePassed(t);
    } else {
      assert MetaCandidate(meta) == [];
    }
  }

  lemma SinglePassed(t: string)
    requires LongEnough(t) && Normalize(t) != ""
    ensures AllPassed([t])
  {
  }

  lemma AllPassedConcat(a: seq<string>, b: seq<string>)
    requires AllPassed(a) && AllPassed(b)
    ensures AllPassed(a + b)
  {
  }

  /** The pick is empty exactly when there is no text, and otherwise the
      first of the longest unique texts, the normalised form of one of them. */
  lemma PickOf(cands: seq<string>)
    requires forall c :: c in cands ==> Normalize(c) != ""
    ensures var unique := Unique(cands);
            var d := Pick(unique);
            && (d == "" <==> cands == [])
            && (d != "" ==> exists k: nat :: IsFirstLongest(unique, k) && d == unique[k])
            && (d != "" ==> IsNormalized(d) && exists i :: 0 <= i < |cands| && d == Normalize(cands[i]))
  {
    var unique := Unique(cands);
    if cands != [] {
      assert Map(cands, Normalize)[0] == Normalize(cands[0]);
      assert Normalize(cands[0]) in unique;
      var k := FirstLongest(unique);
      var d := unique[k];
      assert Pick(unique) == d;
      UniqueMember(cands, d);
      var i :| 0 <= i < |cands| && d == Normalize(cands[i]);
      assert cands[i] in cands;
    }
  }

  /** Every unique text is a candidate, normalised. */
  lemma UniqueMember(cands: seq<string>, x: string)
    requires x in Unique(cands)
    ensures exists i :: 0 <= i < |cands| && x == Normalize(cands[i])
  {
    assert x in Map(cands, Normalize);
    var i :| 0 <= i < |cands| && Map(cands, Normalize)[i] == x;
  }

  /** The length test sees the meta description before its whitespace is
      collapsed: an "a", 119 spaces and a "b" passes, and the description
      returned is the three characters "a b". */
  lemma ShortMetaDescriptionReturned()
    ensures var meta := "a" + seq(119, _ => ' ') + "b";
            FindDescriptionAsWritten([], [], meta) == "a b" && !LongEnough("a b")
  {
    var spaces := seq(119, _ => ' ');
    var meta := "a" + spaces + "b";
    assert meta == ['a'] + spaces + ['b'];
    SpacedPairNormalized('a', spaces, 'b');
    TrimmedPair('a', spaces, 'b');
    MetaOnlyAsWritten(meta);
    UniqueSingle(meta);
  }

  lemma TrimmedPair(a: char, mid: string, b: char)
    requires !IsSpace(a) && !IsSpace(b)
    ensures Trim([a] + mid + [b]) == [a] + mid + [b] && |[a] + mid + [b]| == |mid| + 2
  {
    var s := [a] + mid + [b];
    assert s[0] == a && s[|s| - 1] == b;
    assert IsTrimmed(s);
  }

  /** With no headings and no elements the meta description is the only
      candidate, when it passes the length test. */
  lemma MetaOnlyAsWritten(meta: string)
    ensures CandidatesAsWritten([], [], meta) == if LongEnough(Trim(meta)) then [Trim(meta)] else []
  {
    assert HeadingCandidates([]) == [];
    assert NodeCandidates([]) == [];
  }

  lemma UniqueSingle(x: string)
    ensures Unique([x]) == [Normalize(x)] && Pick([Normalize(x)]) == Normalize(x)
  {
    assert Map([x], Normalize) == [Normalize(x)];
    assert Dedup([Normalize(x)]) == [Normalize(x)] by {
      assert [Normalize(x)][..0] == [];
    }
  }

  /** Two non-space characters around a run of spaces normalise to the two
      characters around one space. */
  lemma SpacedPairNormalized(a: char, spaces: string, b: char)
    requires !IsSpace(a) && !IsSpace(b) && spaces != []
    requires forall i :: 0 <= i < |spaces| ==> spaces[i] == ' '
    ensures Normalize([a] + spaces + [b]) == [a, ' ', b]
  {
    var w := [a, ' ', b];
    CollapseSpacedPair(a, spaces, b);
    assert TrimStart(w) == w;
    assert TrimEnd(w) == w;
  }

  lemma CollapseSpacedPair(a: char, spaces: string, b: char)
    requires !IsSpace(a) && !IsSpace(b) && spaces != []
    requires forall i :: 0 <= i < |spaces| ==> spaces[i] == ' '
    ensures CollapseRuns([a] + spaces + [b]) == [a, ' ', b]
  {
    var r := spaces + [b];
    assert [a] + spaces + [b] == [a] + r;
    CollapseCons(a, r);
    CollapseSpaces(spaces, b);
  }

  lemma CollapseCons(c: char, rest: string)
    requires !IsSpace(c)
    ensures CollapseRuns([c] + rest) == [c] + CollapseRuns(rest)
  {
    assert ([c] + rest)[1..] == rest;
  }

  lemma CollapseSpaces(spaces: string, b: char)
    requires !IsSpace(b) && spaces != []
    requires forall i :: 0 <= i < |spaces| ==> spaces[i] == ' '
    ensures CollapseRuns(spaces + [b]) == [' ', b]
  {
    TrimStartSpaces(spaces, [b]);
    CollapseRun(spaces + [b]);
    CollapseCons(b, []);
    assert [b] + [] == [b];
  }

  lemma CollapseRun(s: string)
    requires s != [] && IsSpace(s[0]) && TrimStart(s) != []
    ensures CollapseRuns(s) == [' '] + CollapseRuns(TrimStart(s))
  {
  }

  lemma {:induction false} TrimStartSpaces(spaces: string, t: string)
    requires forall i :: 0 <= i < |spaces| ==> spaces[i] == ' '
    requires t != [] && !IsSpace(t[0])
    ensures TrimStart(spaces + t) == t
    decreases |spaces|
  {
    var s := spaces + t;
    if spaces == [] {
      assert s == t;
    } else {
      assert s[0] == ' ';
      assert s[1..] == spaces[1..] + t;
      TrimStartSpaces(spaces[1..], t);
    }
  }

  // -------------------------------------------------------------- method

  /** `findDescription()`. */
  method FindDescription(headings: seq<DescHeading>, nodeTexts: seq<string>, meta: string)
    returns (description: string)
    ensures description == FindDescriptionAsWritten(headings, nodeTexts, meta)
    ensures description == "" <==> CandidatesAsWritten(headings, nodeTexts, meta) == []
    ensures description != "" ==> IsNormalized(description)
  {
    var candidates := PushHeadings(headings);
    var nodes := PushNodes(nodeTexts);
    candidates := candidates + nodes;
    var metaDesc := Trim(meta);
    if LongEnough(metaDesc) {
      candidates := candidates + [metaDesc];
    }
    assert candidates == CandidatesAsWritten(headings, nodeTexts, meta);
    // the stable sort by length, descending, then `unique[0] || ''`
    description := Pick(Unique(candidates));
    AsWrittenDescriptionSpec(headings, nodeTexts, meta);
  }

  /** The `for (const h of headings)` loop. */
  method PushHeadings(headings: seq<DescHeading>) returns (candidates: seq<string>)
    ensures candidates == HeadingCandidates(headings)
  {
    candidates := [];
    var i := 0;
    while i < |headings|
      invariant 0 <= i <= |headings|
      invariant candidates == HeadingCandidates(headings[..i])
    {
      var pushed := HeadingPush(headings[i]);
      HeadingStep(headings, i);
      candidates := candidates + pushed;
      i := i + 1;
    }
    assert headings[..i] == headings;
  }

  /** The body of the headings loop: what one heading pushes. */
  method HeadingPush(h: DescHeading) returns (pushed: seq<string>)
    ensures pushed == HeadingCandidate(h)
  {
    pushed := [];
    var ht := Lower(Normalize(h.text));
    if ht != "" && MatchesLabel(ht) {
      var t := Normalize(h.containerText);
      if t == "" {
        t := CollectBlockText(h.blockTexts);
      }
      if LongEnough(t) {
        pushed := [t];
      }
    }
  }

  /** The `for (const node of descLikeNodes)` loop, as the texts it pushes. */
  method PushNodes(nodeTexts: seq<string>) returns (pushed: seq<string>)
    ensures pushed == NodeCandidates(nodeTexts)
  {
    pushed := [];
    var i := 0;
    while i < |nodeTexts|
      invariant 0 <= i <= |nodeTexts|
      invariant pushed == NodeCandidates(nodeTexts[..i])
    {
      var t := Normalize(nodeTexts[i]);
      MapFilterStep(nodeTexts, Normalize, LongEnough, i);
      if LongEnough(t) {
        pushed := pushed + [t];
      }
      i := i + 1;
    }
    assert nodeTexts[..i] == nodeTexts;
  }

  lemma HeadingStep(headings: seq<DescHeading>, i: nat)
    requires i < |headings|
    ensures HeadingCandidates(headings[..i + 1]) == HeadingCandidates(headings[..i]) + HeadingCandidate(headings[i])
  {
    assert headings[..i + 1][..i] == headings[..i] && headings[..i + 1][i] == headings[i];
  }

}
