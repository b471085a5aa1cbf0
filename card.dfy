/** The address split of `cardTemplate`: a card shows a street line and an
    area line cut from the saved address, by an " in " form ("12 Main St in
    Astoria") or a trailing borough (", Astoria, Queens"). */
module Card {
  import opened Seqs
  import opened JsText

  // ------------------------------------------------------------ scanning

  /** The length of the whitespace run that starts at `p`. */
  function SpaceRun(s: string, p: nat): (n: nat)
    requires p <= |s|
    ensures p + n <= |s|
    ensures forall i :: p <= i < p + n ==> IsSpace(s[i])
    ensures p + n < |s| ==> !IsSpace(s[p + n])
    decreases |s| - p
  {
    if p < |s| && IsSpace(s[p]) then 1 + SpaceRun(s, p + 1) else 0
  }

  predicate NoLineTerminator(s: string) {
    forall i :: 0 <= i < |s| ==> !IsLineTerminator(s[i])
  }

  /** Where the second group of the " in " form starts, for a first group
      ending at `p`: after the whitespace run at `p` and the two letters. */
  function InRest(s: string, p: nat): nat
    requires p <= |s|
  {
    p + SpaceRun(s, p) + 2
  }

  /** `/^(.*?)\s+in\s+(.+)$/i` matches a trimmed text with its first group
      ending at `p`: `p` starts a whitespace run followed by "in" in any case
      and more whitespace, something follows, and neither group holds a line
      terminator (`.` does not match one). */
  predicate InAt(s: string, p: nat)
    requires p <= |s|
  {
    var k := SpaceRun(s, p);
    var q := InRest(s, p);
    k >= 1 && q < |s|
    && LowerChar(s[p + k]) == 'i' && LowerChar(s[p + k + 1]) == 'n' && IsSpace(s[q])
    && q + SpaceRun(s, q) < |s|
    && NoLineTerminator(s[..p]) && NoLineTerminator(s[q + SpaceRun(s, q)..])
  }

  /** The lazy `(.*?)`: the first `p` from which the rest of the pattern matches. */
  function FirstInFrom(s: string, p: nat): (r: Option<nat>)
    requires p <= |s|
    ensures r.Some? ==> p <= r.value < |s| && InAt(s, r.value)
    ensures forall j :: p <= j <= |s| && (r.None? || j < r.value) ==> !InAt(s, j)
    decreases |s| - p
  {
    if p == |s| then None else if InAt(s, p) then Some(p) else FirstInFrom(s, p + 1)
  }

  /** The index of the last occurrence of `c`. */
  function LastIndex(s: string, c: char): (k: nat)
    requires c in s
    ensures k < |s| && s[k] == c
    ensures forall i :: k < i < |s| ==> s[i] != c
    decreases |s|
  {
    if s[|s| - 1] == c then |s| - 1 else LastIndex(s[..|s| - 1], c)
  }

  /** `/(Queens|Brooklyn|Manhattan|Bronx|Staten Island)/i` matching all of `t`. */
  predicate IsBorough(t: string) {
    var l := Lower(t);
    l == "queens" || l == "brooklyn" || l == "manhattan" || l == "bronx" || l == "staten island"
  }

  /** `/([^,]+),\s*(Queens|Brooklyn|Manhattan|Bronx|Staten Island)\s*$/i`:
      the match must use the last comma, since the rest has none; its first
      group is the comma-free run the leftmost match starts at, which must
      not be empty; its second group is the borough as written. */
  function AreaMatch(full: string): (r: Option<(string, string)>)
  {
    if ',' !in full then None else AreaAt(full, LastIndex(full, ','))
  }

  /** The borough form with the last comma at `c`. */
  function AreaAt(full: string, c: nat): (r: Option<(string, string)>)
    requires c < |full|
  {
    var st := GroupStart(full[..c]);
    var borough := Trim(full[c + 1..]);
    if st < c && IsBorough(borough) then Some((full[st..c], borough)) else None
  }

  /** Where the comma-free run at the end of `front` starts. */
  function GroupStart(front: string): (st: nat)
    ensures st <= |front|
  {
    if ',' in front then LastIndex(front, ',') + 1 else 0
  }

  /** `needle` occurs in `hay` at `i`. */
  predicate OccursAt(hay: string, needle: string, i: nat) {
    i + |needle| <= |hay| && hay[i..i + |needle|] == needle
  }

  /** `hay.lastIndexOf(needle)`, -1 when there is no occurrence. */
  function LastIndexOf(hay: string, needle: string): (r: int)
    ensures r == -1 || (0 <= r && OccursAt(hay, needle, r))
    ensures forall j: nat :: r < j ==> !OccursAt(hay, needle, j)
  {
    LastIndexBelow(hay, needle, |hay| - |needle|)
  }

  function LastIndexBelow(hay: string, needle: string, i: int): (r: int)
    requires i <= |hay| - |needle|
    ensures r == -1 || (0 <= r <= i && OccursAt(hay, needle, r))
    ensures forall j: nat :: r < j <= i ==> !OccursAt(hay, needle, j)
    decreases i + 1
  {
    if i < 0 then -1
    else if hay[i..i + |needle|] == needle then i
    else LastIndexBelow(hay, needle, i - 1)
  }

  /** The characters of `[\s,–—-]`. */
  predicate IsStreetEnd(c: char) {
    IsSpace(c) || c == ',' || c == '\U{2013}' || c == '\U{2014}' || c == '-'
  }

  /** `s.replace(/[\s,–—-]+$/g, '')`: the trailing run of those characters. */
  function TrimStreetEnd(s: string): (r: string)
    ensures |r| <= |s| && r == s[..|r|]
    ensures forall i :: |r| <= i < |s| ==> IsStreetEnd(s[i])
    ensures r != [] ==> !IsStreetEnd(r[|r| - 1])
  {
    if s != [] && IsStreetEnd(s[|s| - 1]) then TrimStreetEnd(s[..|s| - 1]) else s
  }

  // ---------------------------------------------------------- the split

  /** The pair of the " in " form matching at `p`: both groups, trimmed. */
  function InSplit(full: string, p: nat): (string, string)
    requires p <= |full| && InAt(full, p)
  {
    (Trim(full[..p]), Trim(full[InRest(full, p)..]))
  }

  /** The pair of the borough form with groups `g1` and `g2`: the area is
      `${g1.trim()}, ${g2}`; the street is the text before the last
      occurrence of the area (compared in lower case) without the separators
      that end it, or the whole text when the area is not found after its
      first character. */
  function AreaSplit(full: string, g1: string, g2: string): (string, string) {
    var area := Trim(g1) + ", " + g2;
    var idx := LastIndexOf(Lower(full), Lower(area));
    (if idx > 0 then Trim(TrimStreetEnd(full[..idx])) else full, area)
  }

  /** The `[street, area]` pair of `cardTemplate`. */
  function AddressSplit(address: string): (string, string) {
    var full := Trim(address);
    if full == "" then ("", "")
    else
      match FirstInFrom(full, 0)
      case Some(p) => InSplit(full, p)
      case None =>
        match AreaMatch(full)
        case Some((g1, g2)) => AreaSplit(full, g1, g2)
        case None => (full, "")
  }

  /** Both parts are empty exactly when the trimmed address is; an empty area
      leaves the whole trimmed address as the street. */
  lemma SplitEmpty(address: string)
    ensures AddressSplit(address) == ("", "") <==> Trim(address) == ""
    ensures AddressSplit(address).1 == "" ==> AddressSplit(address).0 == Trim(address)
  {
    var full := Trim(address);
    if full != "" {
      var first := FirstInFrom(full, 0);
      if first.Some? {
        InSplitNonEmpty(full, first.value);
      }
    }
  }

  /** Both groups of the " in " form are non-empty once trimmed. */
  lemma InSplitNonEmpty(full: string, p: nat)
    requires IsTrimmed(full) && full != [] && p <= |full| && InAt(full, p)
    requires forall j :: 0 <= j < p ==> !InAt(full, j)
    ensures InSplit(full, p).0 != "" && InSplit(full, p).1 != ""
  {
    NonSpaceBeforeRun(full, p);
    assert full[p - 1] == full[..p][p - 1];
    TrimNonEmpty(full[InRest(full, p)..], SpaceRun(full, InRest(full, p)));
    TrimEndNonEmpty(full[..p]);
  }

  lemma TrimEndNonEmpty(s: string)
    requires s != [] && !IsSpace(s[|s| - 1])
    ensures Trim(s) != ""
  {
    var t := TrimStart(s);
    assert !IsSpace(s[|s| - 1]);
    assert |t| >= 1;
    assert t[|t| - 1] == s[|s| - 1];
    var r := TrimEnd(t);
    assert !IsSpace(t[|t| - 1]);
    assert |r| >= 1;
  }

  /** In a trimmed text, the first place the " in " form matches is right
      after a character that is not whitespace. */
  lemma NonSpaceBeforeRun(full: string, p: nat)
    requires IsTrimmed(full) && full != [] && p <= |full| && InAt(full, p)
    requires forall j :: 0 <= j < p ==> !InAt(full, j)
    ensures p > 0 && !IsSpace(full[..p][p - 1])
  {
    assert IsSpace(full[p]);
    assert p > 0;
    assert full[..p][p - 1] == full[p - 1];
    assert IsSpace(full[p - 1]) ==> SpaceRun(full, p - 1) == 1 + SpaceRun(full, p);
    assert full[..p - 1] == full[..p][..p - 1];
    assert IsSpace(full[p - 1]) ==> InAt(full, p - 1);
  }

  lemma TrimNonEmpty(s: string, k: nat)
    requires k < |s| && forall i :: 0 <= i < k ==> IsSpace(s[i])
    requires !IsSpace(s[k])
    ensures Trim(s) != ""
  {
    TrimStartStops(s, k);
    assert TrimStart(s) != "" && !IsSpace(TrimStart(s)[0]);
  }

  // ------------------------------------------------------------- properties

  /** Whitespace, "in" in any case, whitespace, starting at `m`. */
  predicate InWordAt(s: string, m: nat) {
    m + 3 < |s| && IsSpace(s[m]) && LowerChar(s[m + 1]) == 'i' && LowerChar(s[m + 2]) == 'n' && IsSpace(s[m + 3])
  }

  /** `x` holds no word "in" between whitespace, counting its end as
      whitespace. */
  predicate NoInWord(x: string) {
    forall m :: 0 <= m < |x| ==> !InWordAt(x + " ", m)
  }

  /** Where the " in " form matches, the whitespace run ends in a spaced "in". */
  lemma InAtWord(s: string, j: nat)
    requires j <= |s|
    ensures InAt(s, j) ==> j <= j + SpaceRun(s, j) - 1 < |s| && InWordAt(s + " ", j + SpaceRun(s, j) - 1)
  {
    if InAt(s, j) {
      var m := j + SpaceRun(s, j) - 1;
      assert (s + " ")[m..m + 4] == s[m..m + 4];
    }
  }

  /** A text without a spaced "in" does not have the " in " form. */
  lemma NoInAt(s: string, j: nat)
    requires NoInWord(s) && j <= |s|
    ensures !InAt(s, j)
  {
    InAtWord(s, j);
  }

  /** In `x + " in " + y`, a match of the " in " form before `|x|` is a
      spaced "in" of `x`. */
  lemma InAtBefore(x: string, y: string, j: nat)
    requires x != [] && IsTrimmed(x)
    requires j < |x|
    ensures InAt(x + " in " + y, j) ==> InWordAt(x + " ", j + SpaceRun(x + " in " + y, j) - 1)
  {
    var s := x + " in " + y;
    if InAt(s, j) {
      var m := j + SpaceRun(s, j) - 1;
      assert forall i :: 0 <= i < |x| ==> s[i] == x[i];
      assert s[|x|] == ' ';
      assert !IsSpace(s[|x| - 1]);
      assert m < |x| - 1;
      assert m + 2 < |x|;
      assert forall i :: m <= i <= m + 3 ==> (x + " ")[i] == s[i];
    }
  }

  /** In `x + " in " + y`, the " in " form does not match before `|x|`. */
  lemma NoInAtBefore(x: string, y: string, j: nat)
    requires x != [] && IsTrimmed(x) && NoInWord(x)
    requires j < |x|
    ensures !InAt(x + " in " + y, j)
  {
    InAtBefore(x, y, j);
  }

  /** The separator of `x + " in " + y` is where the " in " form matches. */
  lemma InAtSeparator(x: string, y: string)
    requires x != [] && y != [] && IsTrimmed(y)
    requires NoLineTerminator(x) && NoLineTerminator(y)
    ensures InAt(x + " in " + y, |x|) && InRest(x + " in " + y, |x|) == |x| + 3
  {
    var s := x + " in " + y;
    var p := |x|;
    assert s[p] == ' ' && s[p + 1] == 'i' && s[p + 2] == 'n' && s[p + 3] == ' ' && s[p + 4] == y[0];
    assert SpaceRun(s, p + 1) == 0;
    assert SpaceRun(s, p) == 1;
    assert SpaceRun(s, p + 4) == 0;
    assert SpaceRun(s, p + 3) == 1;
    assert s[..p] == x;
    assert s[p + 4..] == y;
  }

  lemma InFormFirst(x: string, y: string)
    requires x != [] && y != [] && IsTrimmed(x) && IsTrimmed(y)
    requires NoInWord(x) && NoLineTerminator(x) && NoLineTerminator(y)
    ensures FirstInFrom(x + " in " + y, 0) == Some(|x|)
  {
    var s := x + " in " + y;
    InAtSeparator(x, y);
    forall j | 0 <= j < |x| ensures !InAt(s, j) {
      NoInAtBefore(x, y, j);
    }
  }

  /** The " in " form: `x in y` splits into `x` and `y` when `x` holds no
      other spaced "in" and neither part holds a line terminator. */
  lemma InFormSplit(x: string, y: string)
    requires x != [] && y != [] && IsTrimmed(x) && IsTrimmed(y)
    requires NoInWord(x) && NoLineTerminator(x) && NoLineTerminator(y)
    ensures AddressSplit(x + " in " + y) == (x, y)
  {
    var s := x + " in " + y;
    assert s[0] == x[0] && s[|s| - 1] == y[|y| - 1];
    assert IsTrimmed(s);
    InFormFirst(x, y);
    InAtSeparator(x, y);
    AddressSplitIn(s, s, |x|);
    InFormGroups(x, y);
    TrimSpaced(y);
  }

  /** The lazy first group: when the first place the " in " form matches
      in the trimmed address is `p`, the street is the trimmed text before
      `p` and the area the trimmed text after the "in" and its whitespace,
      whatever later matches the rest holds. */
  lemma FirstInSplit(address: string, full: string, p: nat)
    requires full == Trim(address) && p <= |full| && InAt(full, p)
    requires forall j :: 0 <= j < p ==> !InAt(full, j)
    ensures AddressSplit(address) == (Trim(full[..p]), Trim(full[InRest(full, p)..]))
  {
    FirstInIs(full, p);
    AddressSplitIn(address, full, p);
  }

  lemma FirstInIs(full: string, p: nat)
    requires p <= |full| && InAt(full, p)
    requires forall j :: 0 <= j < p ==> !InAt(full, j)
    ensures full != "" && FirstInFrom(full, 0) == Some(p)
  {
  }

  /** A trimmed text whose first " in " form ends at `p` splits there. */
  lemma AddressSplitIn(address: string, full: string, p: nat)
    requires full == Trim(address) && full != "" && FirstInFrom(full, 0) == Some(p)
    requires p <= |full| && InAt(full, p)
    ensures AddressSplit(address) == InSplit(full, p)
  {
  }

  lemma InFormGroups(x: string, y: string)
    ensures (x + " in " + y)[..|x|] == x && (x + " in " + y)[|x| + 3..] == " " + y
  {
  }
  lemma LowerConcat(a: string, b: string)
    ensures Lower(a + b) == Lower(a) + Lower(b)
  {
    assert forall i :: 0 <= i < |a + b| ==> Lower(a + b)[i] == (Lower(a) + Lower(b))[i];
  }

  /** A needle that ends the text occurs last at the end. */
  lemma LastIndexOfSuffix(pre: string, needle: string)
    ensures LastIndexOf(pre + needle, needle) == |pre|
  {
    var hay := pre + needle;
    assert hay[|pre|..|pre| + |needle|] == needle;
    assert OccursAt(hay, needle, |pre|);
  }

  /** The separators after a street that does not end in one are cut. */
  lemma TrimStreetEndComma(street: string)
    requires street != [] && !IsStreetEnd(street[|street| - 1])
    ensures TrimStreetEnd(street + ", ") == street
  {
    var s := street + ", ";
    assert s[..|s| - 1] == street + ",";
    assert (street + ",")[..|street|] == street;
  }

  /** In `x + ", " + y` with `y` free of commas, the comma after `x` is the last. */
  lemma CommaFreeTail(x: string, y: string)
    requires ',' !in y
    ensures (x + ", " + y)[|x|] == ','
    ensures forall i :: |x| < i < |x + ", " + y| ==> (x + ", " + y)[i] != ','
  {
    var s := x + ", " + y;
    assert forall i :: |x| + 1 < i < |s| ==> s[i] == y[i - |x| - 2];
  }

  /** A text without a spaced "in" does not have the " in " form anywhere. */
  lemma NoFirstIn(full: string)
    requires NoInWord(full)
    ensures FirstInFrom(full, 0).None?
  {
    forall j | 0 <= j <= |full| ensures !InAt(full, j) {
      NoInAt(full, j);
    }
  }

  lemma GroupStartIs(front: string, st: nat)
    requires 0 < st <= |front| && front[st - 1] == ',' && forall i :: st <= i < |front| ==> front[i] != ','
    ensures GroupStart(front) == st
  {
    LastIndexIs(front, ',', st - 1);
  }

  lemma LastIndexIs(s: string, c: char, k: nat)
    requires k < |s| && s[k] == c && forall i :: k < i < |s| ==> s[i] != c
    ensures c in s && LastIndex(s, c) == k
  {
    var r := LastIndex(s, c);
    assert !(r < k) && !(k < r);
  }

  /** The borough regex on "<street>, <hood>, <borough>": the groups are
      " <hood>" and the borough. */
  lemma AreaMatchBorough(street: string, hood: string, borough: string)
    requires hood != [] && ',' !in hood
    requires borough != [] && IsTrimmed(borough) && ',' !in borough && IsBorough(borough)
    ensures AreaMatch(street + ", " + hood + ", " + borough) == Some((" " + hood, borough))
  {
    var front := street + ", " + hood;
    var full := front + ", " + borough;
    BoroughAreaAt(street, hood, borough, front, full);
    LastCommaOfJoin(front, borough);
    AreaMatchAt(full, |front|);
  }

  /** The match at the last comma of "<street>, <hood>, <borough>". */
  lemma BoroughAreaAt(street: string, hood: string, borough: string, front: string, full: string)
    requires hood != [] && ',' !in hood
    requires borough != [] && IsTrimmed(borough) && IsBorough(borough)
    requires front == street + ", " + hood && full == front + ", " + borough
    ensures |front| < |full| && AreaAt(full, |front|) == Some((" " + hood, borough))
  {
    var c, st := |front|, |street| + 1;
    assert full[..c] == front && full[c + 1..] == " " + borough by {
      CommaJoinSlices(front, borough);
    }
    assert GroupStart(front) == st by {
      GroupStartOfJoin(street, hood);
    }
    assert Trim(" " + borough) == borough by {
      TrimSpaced(borough);
    }
    assert full[st..c] == " " + hood by {
      SliceOfPrefix(full, st, c);
      CommaJoinSlices(street, hood);
    }
    AreaAtIs(full, c, st, borough);
  }

  /** The comma of a ", " join before a comma-free text is the last one. */
  lemma LastCommaOfJoin(x: string, y: string)
    requires ',' !in y
    ensures ',' in x + ", " + y && LastIndex(x + ", " + y, ',') == |x|
  {
    CommaFreeTail(x, y);
    LastIndexIs(x + ", " + y, ',', |x|);
  }

  lemma GroupStartOfJoin(x: string, y: string)
    requires ',' !in y
    ensures GroupStart(x + ", " + y) == |x| + 1
  {
    CommaFreeTail(x, y);
    GroupStartIs(x + ", " + y, |x| + 1);
  }

  lemma AreaMatchAt(full: string, c: nat)
    requires ',' in full && LastIndex(full, ',') == c
    ensures c < |full| && AreaMatch(full) == AreaAt(full, c)
  {
  }

  /** The two sides of a ", " join. */
  lemma CommaJoinSlices(x: string, y: string)
    ensures (x + ", " + y)[..|x|] == x && (x + ", " + y)[|x| + 1..] == " " + y
  {
  }

  lemma SliceOfPrefix(s: string, a: nat, b: nat)
    requires a <= b <= |s|
    ensures s[a..b] == s[..b][a..]
  {
  }

  lemma AreaAtIs(full: string, c: nat, st: nat, borough: string)
    requires st < c < |full| && GroupStart(full[..c]) == st
    requires Trim(full[c + 1..]) == borough && IsBorough(borough)
    ensures AreaAt(full, c) == Some((full[st..c], borough))
  {
  }

  /** The area split when the area ends the text after "<street>, ". */
  lemma AreaSplitSuffix(street: string, g1: string, rest: string)
    requires street != [] && IsTrimmed(street) && !IsStreetEnd(street[|street| - 1])
    requires g1 != [] && IsTrimmed(g1)
    ensures AreaSplit(street + ", " + (g1 + ", " + rest), " " + g1, rest) == (street, g1 + ", " + rest)
  {
    var pre := street + ", ";
    var area := g1 + ", " + rest;
    var full := pre + area;
    TrimSpaced(g1);
    LowerConcat(pre, area);
    LastIndexOfSuffix(Lower(pre), Lower(area));
    assert full[..|pre|] == pre;
    TrimStreetEndComma(street);
  }

  /** The borough form: "<street>, <neighbourhood>, <borough>" splits into the
      street and "<neighbourhood>, <borough>", when the neighbourhood and the
      borough hold no comma, the street does not end in a separator and the
      text holds no spaced "in". */
  lemma BoroughSplit(street: string, hood: string, borough: string)
    requires street != [] && IsTrimmed(street) && !IsStreetEnd(street[|street| - 1])
    requires hood != [] && IsTrimmed(hood) && ',' !in hood
    requires borough != [] && IsTrimmed(borough) && ',' !in borough && IsBorough(borough)
    requires NoInWord(street + ", " + hood + ", " + borough)
    ensures AddressSplit(street + ", " + hood + ", " + borough) == (street, hood + ", " + borough)
  {
    var full := street + ", " + hood + ", " + borough;
    assert full == street + ", " + (hood + ", " + borough);
    assert full[0] == street[0] && full[|full| - 1] == borough[|borough| - 1];
    assert IsTrimmed(full);
    NoFirstIn(full);
    AreaMatchBorough(street, hood, borough);
    AreaSplitSuffix(street, hood, borough);
  }

  /** The borough form in general: when no " in " form matches and the
      borough regex does, the area is the trimmed first group, ", " and the
      borough as written, which holds no comma; the street is the whole text,
      or a trimmed beginning of it that does not end in a separator. */
  lemma BoroughFormSplit(address: string)
    requires Trim(address) != "" && FirstInFrom(Trim(address), 0).None? && AreaMatch(Trim(address)).Some?
    ensures var full := Trim(address);
            var g1 := AreaMatch(full).value.0;
            var g2 := AreaMatch(full).value.1;
            var street := AddressSplit(address).0;
            && AddressSplit(address).1 == Trim(g1) + ", " + g2
            && g1 != [] && ',' !in g1 && IsBorough(g2) && IsTrimmed(g2) && ',' !in g2
            && (street == full
                || (|street| < |full| && street == full[..|street|] && IsTrimmed(street)
                    && (street == [] || !IsStreetEnd(street[|street| - 1]))))
  {
    var full := Trim(address);
    var g1 := AreaMatch(full).value.0;
    var g2 := AreaMatch(full).value.1;
    AreaMatchGroups(full);
    BoroughFormIs(address);
    AreaSplitStreet(full, g1, g2);
  }

  lemma BoroughFormIs(address: string)
    requires Trim(address) != "" && FirstInFrom(Trim(address), 0).None? && AreaMatch(Trim(address)).Some?
    ensures var full := Trim(address);
            AddressSplit(address) == AreaSplit(full, AreaMatch(full).value.0, AreaMatch(full).value.1)
  {
  }

  /** The street of the borough form is the whole text or a trimmed
      beginning of it that does not end in a separator. */
  lemma AreaSplitStreet(full: string, g1: string, g2: string)
    requires IsTrimmed(full)
    ensures var street := AreaSplit(full, g1, g2).0;
            && AreaSplit(full, g1, g2).1 == Trim(g1) + ", " + g2
            && (street == full
                || (|street| < |full| && street == full[..|street|] && IsTrimmed(street)
                    && (street == [] || !IsStreetEnd(street[|street| - 1]))))
  {
    var area := Trim(g1) + ", " + g2;
    var idx := LastIndexOf(Lower(full), Lower(area));
    if idx > 0 {
      assert idx + |area| <= |full|;
      StreetPrefix(full, idx);
    }
  }

  /** The groups of a borough match: a non-empty comma-free run, and a
      trimmed borough without a comma. */
  lemma AreaMatchGroups(full: string)
    requires AreaMatch(full).Some?
    ensures var g1 := AreaMatch(full).value.0;
            var g2 := AreaMatch(full).value.1;
            g1 != [] && ',' !in g1 && IsBorough(g2) && IsTrimmed(g2) && ',' !in g2
  {
    var c := LastIndex(full, ',');
    AreaMatchAt(full, c);
    var front := full[..c];
    GroupStartTail(front);
    SliceOfPrefix(full, GroupStart(front), c);
    NoCommaAfter(full, c);
    TrimKeepsOut(full[c + 1..], ',');
  }

  /** No comma follows the last one. */
  lemma NoCommaAfter(full: string, c: nat)
    requires ',' in full && c == LastIndex(full, ',')
    ensures ',' !in full[c + 1..]
  {
    var tail := full[c + 1..];
    forall i | 0 <= i < |tail| ensures tail[i] != ',' {
      assert tail[i] == full[c + 1 + i];
    }
  }

  /** The run at the end of `front` holds no comma. */
  lemma GroupStartTail(front: string)
    ensures ',' !in front[GroupStart(front)..]
  {
    if ',' in front {
      NoCommaAfter(front, LastIndex(front, ','));
    } else {
      assert front[0..] == front;
    }
  }

  /** The street cut before the area in a trimmed text is a trimmed
      beginning of it that does not end in a separator. */
  lemma StreetPrefix(full: string, idx: nat)
    requires IsTrimmed(full) && 0 < idx < |full|
    ensures var street := Trim(TrimStreetEnd(full[..idx]));
            && |street| < |full| && street == full[..|street|] && IsTrimmed(street)
            && (street == [] || !IsStreetEnd(street[|street| - 1]))
  {
    var q := TrimStreetEnd(full[..idx]);
    if q != [] {
      assert q[0] == full[0];
      assert q[|q| - 1] == full[|q| - 1];
      assert IsTrimmed(q);
      assert Trim(q) == q;
      assert full[..idx][..|q|] == full[..|q|];
    }
  }

  /** A two-part address "<street>, <borough>": the first group is the whole
      street, so the area found is the whole text, at index 0, and the street
      falls back to the whole text as well. */
  lemma TwoPartBoroughSplit(street: string, borough: string)
    requires street != [] && IsTrimmed(street) && ',' !in street
    requires borough != [] && IsTrimmed(borough) && ',' !in borough && IsBorough(borough)
    requires NoInWord(street + ", " + borough)
    ensures var full := street + ", " + borough;
            AddressSplit(full) == (full, full)
  {
    var full := street + ", " + borough;
    assert full[0] == street[0] && full[|full| - 1] == borough[|borough| - 1];
    assert IsTrimmed(full);
    NoFirstIn(full);
    TwoPartAreaMatch(street, borough);
    TwoPartAreaSplit(street, borough);
  }

  lemma TwoPartAreaMatch(street: string, borough: string)
    requires street != [] && ',' !in street
    requires borough != [] && IsTrimmed(borough) && ',' !in borough && IsBorough(borough)
    ensures AreaMatch(street + ", " + borough) == Some((street, borough))
  {
    var full := street + ", " + borough;
    var c := |street|;
    LastCommaOfJoin(street, borough);
    AreaMatchAt(full, c);
    CommaJoinSlices(street, borough);
    assert GroupStart(full[..c]) == 0;
    TrimSpaced(borough);
    AreaAtIs(full, c, 0, borough);
    assert full[0..c] == street;
  }

  lemma TwoPartAreaSplit(street: string, borough: string)
    requires IsTrimmed(street)
    ensures var full := street + ", " + borough;
            AreaSplit(full, street, borough) == (full, full)
  {
    var full := street + ", " + borough;
    LastIndexOfSuffix([], Lower(full));
    assert [] + Lower(full) == Lower(full);
  }
}
