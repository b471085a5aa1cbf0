/** The price extractor of content.js (`extractPrice`, with `toNumber` and
    `formatPrice`). Dollar amounts are carried as whole cents: every amount
    the patterns accept has at most two decimals, so cents are exact. */
module Price {
  import opened Seqs
  import opened JsText

  /** The plausible monthly-rent range [$700, $20,000], in cents. */
  const MinRent: nat := 70000
  const MaxRent: nat := 2000000

  predicate Plausible(cents: nat) { MinRent <= cents <= MaxRent }

  // ------------------------------------------------------ amount syntax

  /** `[\d,]` */
  predicate IsAmountChar(c: char) { IsDigit(c) || c == ',' }

  /** Length of the `[\d,]*` run that starts at `p`. */
  function AmountRun(s: string, p: nat): (n: nat)
    requires p <= |s|
    ensures p + n <= |s|
    ensures forall i :: p <= i < p + n ==> IsAmountChar(s[i])
    ensures p + n < |s| ==> !IsAmountChar(s[p + n])
    decreases |s| - p
  {
    if p < |s| && IsAmountChar(s[p]) then 1 + AmountRun(s, p + 1) else 0
  }

  /** `(?:\.\d{2})` at `p` */
  predicate CentsAt(s: string, p: nat) {
    p + 3 <= |s| && s[p] == '.' && IsDigit(s[p + 1]) && IsDigit(s[p + 2])
  }

  lemma RemoveCommasOfAmount(r: string)
    requires forall i :: 0 <= i < |r| ==> IsAmountChar(r[i])
    ensures AllDigits(RemoveCommas(r))
  {
    var d := RemoveCommas(r);
    forall i | 0 <= i < |d| ensures IsDigit(d[i]) {
      RemoveCommasMembers(r, d[i]);
      assert d[i] in r;
    }
  }

  /** A match of `([\d,]+(?:\.\d{2})?)` whose digit run starts at `q`: its
      value in cents, `None` where `parseFloat` of the comma-free text is
      NaN, and where the match ends. */
  datatype Amount = Amount(cents: Option<nat>, end: nat)

  function AmountAt(s: string, q: nat): (a: Amount)
    requires q < |s| && IsAmountChar(s[q])
    ensures q < a.end <= |s|
  {
    var n := AmountRun(s, q);
    var run := s[q..q + n];
    RemoveCommasOfAmount(run);
    var digits := RemoveCommas(run);
    var hasCents := CentsAt(s, q + n);
    var end := if hasCents then q + n + 3 else q + n;
    var cents := if hasCents then DigitValue(s[q + n + 1]) * 10 + DigitValue(s[q + n + 2]) else 0;
    if digits == [] && !hasCents then Amount(None, end)
    else Amount(Some(DigitsValue(digits) * 100 + cents), end)
  }

  // ------------------------------------------------------------ toNumber

  /** Index of the first `[\d,]` character at or after `p`. */
  function FirstAmountChar(s: string, p: nat): (r: Option<nat>)
    requires p <= |s|
    ensures r.Some? ==> p <= r.value < |s| && IsAmountChar(s[r.value])
    ensures forall i :: p <= i < |s| && (r.None? || i < r.value) ==> !IsAmountChar(s[i])
    decreases |s| - p
  {
    if p == |s| then None
    else if IsAmountChar(s[p]) then Some(p)
    else FirstAmountChar(s, p + 1)
  }

  /** `toNumber(s)`: `s.match(/\$?\s*([\d,]+(?:\.\d{2})?)/)` and `parseFloat`
      of its group without commas. The leftmost match of that pattern has its
      group at the first `[\d,]` character of `s`, because the optional `$`
      and the spaces in front of it cannot contain one. An empty `s` (null or
      '') gives NaN, here `None`. */
  function ToNumber(s: string): Option<nat> {
    match FirstAmountChar(s, 0)
    case None => None
    case Some(q) => AmountAt(s, q).cents
  }

  // -------------------------------------------------------- formatPrice

  /** `Math.round` of an amount given in cents, in whole dollars. */
  function RoundDollars(cents: nat): nat { (cents + 50) / 100 }

  /** `formatPrice(n)`: "$" and the rounded amount with thousands commas. */
  function FormatPrice(cents: nat): string {
    "$" + GroupThousands(NatToString(RoundDollars(cents)))
  }

  /** The formatted price is "$" followed by the rounded value's decimal
      digits grouped by three from the right; dropping the commas gives the
      digits back. */
  lemma FormatPriceShape(cents: nat)
    ensures FormatPrice(cents) == "$" + Grouped(NatToString(RoundDollars(cents)))
    ensures RemoveCommas(FormatPrice(cents)[1..]) == NatToString(RoundDollars(cents))
  {
    var d := NatToString(RoundDollars(cents));
    GroupThousandsDigits(d);
    GroupedRemoveCommas(d);
    assert FormatPrice(cents)[1..] == Grouped(d);
  }

  lemma GroupedChars(d: string)
    requires AllDigits(d)
    ensures forall i :: 0 <= i < |Grouped(d)| ==> IsAmountChar(Grouped(d)[i])
    decreases |d|
  {
    if |d| > 3 {
      GroupedChars(d[..|d| - 3]);
      var g := Grouped(d[..|d| - 3]);
      var t := d[|d| - 3..];
      assert Grouped(d) == g + "," + t;
      forall i | 0 <= i < |Grouped(d)| ensures IsAmountChar(Grouped(d)[i]) {
        if i < |g| { assert Grouped(d)[i] == g[i]; }
        else if i > |g| { assert Grouped(d)[i] == t[i - |g| - 1]; }
      }
    }
  }

  /** Reading back what `formatPrice` wrote gives the rounded amount:
      `toNumber(formatPrice(n)) == Math.round(n)`. */
  lemma {:induction false} ToNumberOfFormatPrice(cents: nat)
    ensures ToNumber(FormatPrice(cents)) == Some(RoundDollars(cents) * 100)
  {
    var d := NatToString(RoundDollars(cents));
    FormatPriceShape(cents);
    ToNumberDollarGrouped(d);
    DigitsValueOfNatToString(RoundDollars(cents));
  }

  /** "$" followed by a thousands-grouped digit string reads back as the
      digits' value. */
  lemma {:induction false} ToNumberDollarGrouped(d: string)
    requires AllDigits(d) && |d| >= 1
    ensures ToNumber("$" + GroupThousands(d)) == Some(DigitsValue(d) * 100)
  {
    GroupThousandsDigits(d);
    GroupedChars(d);
    GroupedRemoveCommas(d);
    var g := Grouped(d);
    var s := "$" + g;
    assert |g| >= 1 by { GroupedLength(d); }
    assert FirstAmountChar(s, 0) == Some(1) by {
      assert !IsAmountChar(s[0]);
      assert IsAmountChar(s[1]) by { assert s[1] == g[0]; }
    }
    AmountRunToEnd(s, 1);
    assert s[1..1 + AmountRun(s, 1)] == g;
  }

  lemma GroupedLength(d: string)
    ensures |Grouped(d)| >= |d|
    decreases |d|
  {
    if |d| > 3 { GroupedLength(d[..|d| - 3]); }
  }

  lemma {:induction false} AmountRunToEnd(s: string, p: nat)
    requires p <= |s|
    requires forall i :: p <= i < |s| ==> IsAmountChar(s[i])
    ensures AmountRun(s, p) == |s| - p
    decreases |s| - p
  {
    if p < |s| { AmountRunToEnd(s, p + 1); }
  }

  // ---------------------------------------------------------- contexts

  /** `/\$\s?\d/.test(s)` */
  predicate HasDollarDigit(s: string) {
    DollarDigitFrom(s, 0)
  }

  predicate DollarDigitFrom(s: string, i: nat)
    decreases |s| - i
  {
    i < |s| && (DollarDigitAt(s, i) || DollarDigitFrom(s, i + 1))
  }

  predicate DollarDigitAt(s: string, i: nat) {
    i < |s| && s[i] == '$'
    && ((i + 1 < |s| && IsDigit(s[i + 1])) || (i + 2 < |s| && IsSpace(s[i + 1]) && IsDigit(s[i + 2])))
  }

  /** `\b` before position `i` and after position `j` around a word. */
  predicate WordAt(s: string, w: string, i: nat) {
    i + |w| <= |s| && s[i..i + |w|] == w
    && (i == 0 || !IsWordChar(s[i - 1]))
    && (i + |w| == |s| || !IsWordChar(s[i + |w|]))
  }

  /** `/\bw\b/.test(s)` */
  predicate ContainsWord(s: string, w: string) {
    WordFrom(s, w, 0)
  }

  predicate WordFrom(s: string, w: string, i: nat)
    decreases |s| - i
  {
    i <= |s| && (WordAt(s, w, i) || WordFrom(s, w, i + 1))
  }

  /** `/(rent|per month|\/mo|monthly|month)/i`, the body-line filter. */
  predicate RentLine(line: string) {
    var l := Lower(line);
    Contains(l, "rent") || Contains(l, "per month") || Contains(l, "/mo")
    || Contains(l, "monthly") || Contains(l, "month")
  }

  /** `/(rent|per month|\bmo\b|\/mo|monthly|month)/i`, the monthly bonus. */
  predicate MonthlyContext(ctx: string) {
    var l := Lower(ctx);
    Contains(l, "rent") || Contains(l, "per month") || ContainsWord(l, "mo")
    || Contains(l, "/mo") || Contains(l, "monthly") || Contains(l, "month")
  }

  /** `/(price|amount|cost|headline|listingheader|pricesection)/i` */
  predicate PriceContext(ctx: string) {
    var l := Lower(ctx);
    Contains(l, "price") || Contains(l, "amount") || Contains(l, "cost")
    || Contains(l, "headline") || Contains(l, "listingheader") || Contains(l, "pricesection")
  }

  // ----------------------------------------------------- dollar tokens

  /** The match of `/\$\s?([\d,]+(?:\.\d{2})?)/` that starts at `i`, if one
      does: a `$`, at most one whitespace character, then the amount. */
  function DollarAt(s: string, i: nat): (r: Option<Amount>)
    ensures r.Some? ==> i < r.value.end <= |s|
  {
    if i < |s| && s[i] == '$' then
      if i + 1 < |s| && IsAmountChar(s[i + 1]) then Some(AmountAt(s, i + 1))
      else if i + 2 < |s| && IsSpace(s[i + 1]) && IsAmountChar(s[i + 2]) then Some(AmountAt(s, i + 2))
      else None
    else None
  }

  /** `dollarRegex.exec(s)` with `lastIndex == from`: the leftmost match at or
      after `from`. */
  function NextDollar(s: string, from: nat): (r: Option<Amount>)
    ensures r.Some? ==> from < r.value.end <= |s|
    decreases |s| - from
  {
    if from >= |s| then None
    else match DollarAt(s, from)
      case Some(a) => Some(a)
      case None => NextDollar(s, from + 1)
  }

  /** The values of the matches the `exec` loop visits from `from` on,
      skipping those whose value is NaN. */
  function DollarValues(s: string, from: nat): seq<nat>
    decreases |s| - from
  {
    match NextDollar(s, from)
    case None => []
    case Some(a) => (if a.cents.Some? then [a.cents.value] else []) + DollarValues(s, a.end)
  }

  // ------------------------------------------------------------ scoring

  datatype Scored = Scored(val: nat, score: int)

  /** The score of one dollar amount found in context `ctx`. */
  function TokenScore(ctx: string, cents: nat): int {
    (if MonthlyContext(ctx) then 5 else 0)
    + (if PriceContext(ctx) then 2 else 0)
    + (if Plausible(cents) then 3 else 0)
    + (if cents < MinRent then -3 else 0)
  }

  function ScoreValues(ctx: string, vals: seq<nat>): seq<Scored> {
    if vals == [] then [] else [Scored(vals[0], TokenScore(ctx, vals[0]))] + ScoreValues(ctx, vals[1..])
  }

  /** The scored amounts of one context, in match order. */
  function ScoreContext(ctx: string): seq<Scored> {
    ScoreValues(ctx, DollarValues(ctx, 0))
  }

  /** The `scored` array after the loop over `contexts`. */
  function ScoreAll(contexts: seq<string>): seq<Scored>
  {
    if contexts == [] then []
    else ScoreAll(contexts[..|contexts| - 1]) + ScoreContext(contexts[|contexts| - 1])
  }

  /** What `scored.sort((a, b) => b.score - a.score || b.val - a.val)[0]`
      holds: no other entry has a higher score, or the same score and a
      higher value. */
  predicate IsBest(s: seq<Scored>, k: nat) {
    k < |s| && forall j :: 0 <= j < |s| ==>
      s[j].score < s[k].score || (s[j].score == s[k].score && s[j].val <= s[k].val)
  }

  /** The first entry that is best. Any best entry has the same score and
      value, so the formatted result does not depend on which one the sort
      puts first. */
  function BestIndex(s: seq<Scored>): (k: nat)
    requires |s| > 0
    ensures IsBest(s, k)
  {
    if |s| == 1 then 0
    else
      var k := BestIndex(s[..|s| - 1]);
      var x := s[|s| - 1];
      if x.score > s[k].score || (x.score == s[k].score && x.val > s[k].val) then |s| - 1 else k
  }

  /** Two best entries agree on score and value. */
  lemma BestIsUnique(s: seq<Scored>, k1: nat, k2: nat)
    requires IsBest(s, k1) && IsBest(s, k2)
    ensures s[k1].score == s[k2].score && s[k1].val == s[k2].val
  {
  }

  /** The scores of an amount lie in [-3, 10]; a plausible amount outscores
      an amount below $700 in the same context by 6. */
  lemma {:induction false} ScoreBounds(ctx: string, lo: nat, hi: nat)
    requires lo < MinRent && Plausible(hi)
    ensures -3 <= TokenScore(ctx, lo) <= 4
    ensures 3 <= TokenScore(ctx, hi) <= 10
    ensures TokenScore(ctx, hi) == TokenScore(ctx, lo) + 6
  {
  }

  /** A plausible amount in a context that mentions a monthly keyword beats
      every amount below $700, whatever context that comes from. */
  lemma MonthlyRentBeatsFees(ctx: string, other: string, rent: nat, fee: nat)
    requires MonthlyContext(ctx) && Plausible(rent) && fee < MinRent
    ensures TokenScore(ctx, rent) > TokenScore(other, fee)
  {
  }

  // ---------------------------------------------------------- extractor

  /** The contexts the extractor scans: the cleaned texts of the price-like
      elements that contain `$` and a digit, then the first 150 body lines
      that contain `$`, a digit and a rent keyword. */
  function PriceContexts(elementTexts: seq<string>, bodyLines: seq<string>): seq<string>
  {
    ElementContexts(elementTexts) + Filter(Take(bodyLines, 150), (l: string) => HasDollarDigit(l) && RentLine(l))
  }

  function ElementContexts(elementTexts: seq<string>): seq<string>
  {
    if elementTexts == [] then []
    else
      ElementContexts(elementTexts[..|elementTexts| - 1]) + ElementContext(elementTexts[|elementTexts| - 1])
  }

  /** What one element pushes: its cleaned text when that is not empty and
      holds `$` and a digit. */
  function ElementContext(text: string): seq<string> {
    var t := Normalize(text);
    if t != [] && HasDollarDigit(t) then [t] else []
  }

  /** One more element text: `next` is what the loop holds after it. */
  lemma ElementContextsStep(elementTexts: seq<string>, i: nat, contexts: seq<string>, next: seq<string>)
    requires i < |elementTexts|
    requires contexts == ElementContexts(elementTexts[..i])
    requires next == contexts + ElementContext(elementTexts[i])
    ensures next == ElementContexts(elementTexts[..i + 1])
  {
    var prefix := elementTexts[..i + 1];
    assert prefix[..i] == elementTexts[..i] && prefix[i] == elementTexts[i];
  }

  /** The `for (const sel of selectors) ... forEach(el => ...)` loop that
      pushes each cleaned element text containing `$` and a digit. */
  method CollectElementContexts(elementTexts: seq<string>) returns (contexts: seq<string>)
    ensures contexts == ElementContexts(elementTexts)
  {
    contexts := [];
    var i := 0;
    while i < |elementTexts|
      invariant 0 <= i <= |elementTexts|
      invariant contexts == ElementContexts(elementTexts[..i])
    {
      var next := contexts + ElementContext(elementTexts[i]);
      ElementContextsStep(elementTexts, i, contexts, next);
      contexts := next;
      i := i + 1;
    }
    assert elementTexts[..i] == elementTexts;
  }

  /** What `extractPrice` may return: the structured price formatted when it
      reads as a plausible rent, and otherwise the formatted best-scoring
      amount of the page, or `None` when the page has no amount. */
  ghost predicate IsExtractedPrice(structuredPrice: string, elementTexts: seq<string>, bodyLines: seq<string>,
                                   price: Option<string>)
  {
    var n := ToNumber(structuredPrice);
    if n.Some? && Plausible(n.value) then price == Some(FormatPrice(n.value))
    else
      var scored := ScoreAll(PriceContexts(elementTexts, bodyLines));
      && (price.None? <==> scored == [])
      && (price.Some? ==> exists k: nat :: IsBest(scored, k) && price.value == FormatPrice(scored[k].val))
  }

  /** `extractPrice(structuredPrice)`. A structured price that reads as an
      amount in [$700, $20,000] is formatted and returned at once; otherwise
      every dollar amount of every context is scored and the best one,
      formatted, is the result, or `None` when no amount was found. */
  method ExtractPrice(structuredPrice: string, elementTexts: seq<string>, bodyLines: seq<string>)
    returns (price: Option<string>)
    ensures IsExtractedPrice(structuredPrice, elementTexts, bodyLines, price)
  {
    var structuredNum := ToNumber(structuredPrice);
    if structuredNum.Some? && Plausible(structuredNum.value) {
      return Some(FormatPrice(structuredNum.value));
    }

    var contexts := CollectElementContexts(elementTexts);
    contexts := contexts + Filter(Take(bodyLines, 150), (l: string) => HasDollarDigit(l) && RentLine(l));
    var scored := ScoreContexts(contexts);
    if |scored| == 0 {
      return None;
    }
    var k := BestIndex(scored);
    var best := scored[k];
    price := Some(FormatPrice(best.val));
  }

  /** The `for (const ctx of contexts)` loop that scores every context. */
  method ScoreContexts(contexts: seq<string>) returns (scored: seq<Scored>)
    ensures scored == ScoreAll(contexts)
  {
    scored := [];
    var c := 0;
    while c < |contexts|
      invariant 0 <= c <= |contexts|
      invariant scored == ScoreAll(contexts[..c])
    {
      var ctxScored := ScanContext(contexts[c]);
      ScoreAllStep(contexts, c, scored, scored + ctxScored);
      scored := scored + ctxScored;
      c := c + 1;
    }
    assert contexts[..c] == contexts;
  }

  lemma ScoreAllStep(contexts: seq<string>, c: nat, scored: seq<Scored>, next: seq<Scored>)
    requires c < |contexts| && scored == ScoreAll(contexts[..c])
    requires next == scored + ScoreContext(contexts[c])
    ensures next == ScoreAll(contexts[..c + 1])
  {
    var prefix := contexts[..c + 1];
    assert prefix[..c] == contexts[..c] && prefix[c] == contexts[c];
  }

  /** The `while ((m = dollarRegex.exec(ctx)) !== null)` loop over one
      context: every match with a finite value is scored, in match order. */
  method ScanContext(ctx: string) returns (ctxScored: seq<Scored>)
    ensures ctxScored == ScoreContext(ctx)
  {
    ctxScored := [];
    var lastIndex := 0;
    while true
      invariant lastIndex <= |ctx|
      invariant ctxScored + ScoreValues(ctx, DollarValues(ctx, lastIndex)) == ScoreContext(ctx)
      decreases |ctx| - lastIndex
    {
      var m := NextDollar(ctx, lastIndex);
      if m.None? {
        break;
      }
      ghost var before := DollarValues(ctx, lastIndex);
      lastIndex := m.value.end;
      ghost var after := DollarValues(ctx, lastIndex);
      if m.value.cents.None? {
        assert before == after;
        continue;
      }
      var val := m.value.cents.value;
      var score := TokenScore(ctx, val);
      assert before == [val] + after;
      assert ScoreValues(ctx, before) == [Scored(val, score)] + ScoreValues(ctx, after);
      ctxScored := ctxScored + [Scored(val, score)];
    }
  }
}
