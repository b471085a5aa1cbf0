/** The JavaScript string operations the extension relies on, written out:
    the `\s`, `\d` and `\w` character classes, `trim`, ASCII `toLowerCase`,
    `includes`, `split`, `join`, the whitespace collapse `replace(/\s+/g, ' ')`,
    integer-to-decimal conversion and the thousands-grouping replace
    `replace(/\B(?=(\d{3})+(?!\d))/g, ',')`. */
module JsText {
  import opened Seqs

  /** The `\s` class of JavaScript regular expressions, which is also the set
      of characters `String.prototype.trim` removes (WhiteSpace and
      LineTerminator). */
  predicate IsSpace(c: char) {
    c == ' ' || c == '\t' || c == '\n' || c == '\r' || c == '\U{B}' || c == '\U{C}'
    || c == '\U{A0}' || c == '\U{1680}' || ('\U{2000}' <= c <= '\U{200A}')
    || c == '\U{2028}' || c == '\U{2029}' || c == '\U{202F}' || c == '\U{205F}'
    || c == '\U{3000}' || c == '\U{FEFF}'
  }

  /** The characters `.` does not match (line terminators). */
  predicate IsLineTerminator(c: char) {
    c == '\n' || c == '\r' || c == '\U{2028}' || c == '\U{2029}'
  }

  /** `\d` */
  predicate IsDigit(c: char) { '0' <= c <= '9' }

  /** `\w` */
  predicate IsWordChar(c: char) {
    IsDigit(c) || ('a' <= c <= 'z') || ('A' <= c <= 'Z') || c == '_'
  }

  predicate AllDigits(s: string) { forall i :: 0 <= i < |s| ==> IsDigit(s[i]) }

  function LowerChar(c: char): char {
    if 'A' <= c <= 'Z' then (c as int + 32) as char else c
  }

  /** `s.toLowerCase()`, for the ASCII letters. */
  function Lower(s: string): (r: string)
    ensures |r| == |s|
  {
    seq(|s|, i requires 0 <= i < |s| => LowerChar(s[i]))
  }

  predicate StartsWith(s: string, prefix: string) {
    |prefix| <= |s| && s[..|prefix|] == prefix
  }

  /** `hay.includes(needle)` */
  predicate Contains(hay: string, needle: string)
    decreases |hay|
  {
    StartsWith(hay, needle) || (hay != [] && Contains(hay[1..], needle))
  }

  /** A case-insensitive test of a lower-case literal, as `/needle/i.test(hay)`. */
  predicate ContainsCI(hay: string, needle: string) {
    Contains(Lower(hay), needle)
  }

  lemma {:induction false} ContainsEmpty(hay: string)
    ensures Contains(hay, "")
  {
    assert StartsWith(hay, "");
  }

  lemma {:induction false} ContainsAt(hay: string, needle: string, i: nat)
    requires i + |needle| <= |hay| && hay[i..i + |needle|] == needle
    ensures Contains(hay, needle)
    decreases i
  {
    if i > 0 {
      assert hay[1..][i - 1..i - 1 + |needle|] == hay[i..i + |needle|];
      ContainsAt(hay[1..], needle, i - 1);
    }
  }

  // ---------------------------------------------------------------- trim

  function TrimStart(s: string): (r: string)
    ensures |r| <= |s| && r == s[|s| - |r|..]
    ensures forall i :: 0 <= i < |s| - |r| ==> IsSpace(s[i])
    ensures r != [] ==> !IsSpace(r[0])
  {
    if s != [] && IsSpace(s[0]) then
      var r := TrimStart(s[1..]);
      TrimStartStep(s, r);
      r
    else s
  }

  /** The suffix left after a whitespace character and more whitespace. */
  lemma TrimStartStep(s: string, r: string)
    requires s != [] && IsSpace(s[0]) && |r| <= |s| - 1
    requires r == s[1..][|s| - 1 - |r|..]
    requires forall i :: 0 <= i < |s| - 1 - |r| ==> IsSpace(s[1..][i])
    ensures r == s[|s| - |r|..]
    ensures forall i :: 0 <= i < |s| - |r| ==> IsSpace(s[i])
  {
    forall i | 0 < i < |s| - |r| ensures IsSpace(s[i]) {
      assert s[i] == s[1..][i - 1];
    }
  }

  function TrimEnd(s: string): (r: string)
    ensures |r| <= |s| && r == s[..|r|]
    ensures forall i :: |r| <= i < |s| ==> IsSpace(s[i])
    ensures r != [] ==> !IsSpace(r[|r| - 1])
  {
    if s != [] && IsSpace(s[|s| - 1]) then
      var r := TrimEnd(s[..|s| - 1]);
      TrimEndStep(s, s[..|s| - 1], r);
      r
    else s
  }

  /** The prefix left before more whitespace and a whitespace character. */
  lemma TrimEndStep(s: string, t: string, r: string)
    requires s != [] && IsSpace(s[|s| - 1]) && t == s[..|s| - 1] && |r| <= |t|
    requires r == t[..|r|]
    requires forall i :: |r| <= i < |t| ==> IsSpace(t[i])
    ensures r == s[..|r|]
    ensures forall i :: |r| <= i < |s| ==> IsSpace(s[i])
  {
    forall i | |r| <= i < |t| ensures IsSpace(s[i]) {
      assert s[i] == t[i];
    }
  }

  /** Neither end is whitespace. */
  predicate IsTrimmed(s: string) {
    s == [] || (!IsSpace(s[0]) && !IsSpace(s[|s| - 1]))
  }

  /** `s.trim()`: the slice of `s` between its leading and its trailing
      whitespace. */
  function Trim(s: string): (r: string)
    ensures |r| <= |s|
    ensures IsTrimmed(r)
    ensures IsTrimmed(s) ==> r == s
  {
    TrimTrimmed(s);
    TrimEnd(TrimStart(s))
  }

  lemma TrimTrimmed(s: string)
    ensures IsTrimmed(s) ==> TrimEnd(TrimStart(s)) == s
  {
    if s != [] && IsTrimmed(s) {
      assert TrimStart(s) == s;
      assert TrimEnd(s) == s;
    }
  }

  // ------------------------------------------------------- collapse runs

  /** Trimming a text whose first `k` characters are whitespace and whose
      next is not starts at `k`. */
  lemma {:induction false} TrimStartStops(s: string, k: nat)
    requires k < |s| && forall i :: 0 <= i < k ==> IsSpace(s[i])
    requires !IsSpace(s[k])
    ensures TrimStart(s) == s[k..]
    decreases k
  {
    if k > 0 {
      assert s[1..][k - 1] == s[k];
      TrimStartStops(s[1..], k - 1);
      assert s[1..][k - 1..] == s[k..];
    }
  }

  /** Trimming undoes a leading space. */
  lemma TrimSpaced(t: string)
    requires t != [] && IsTrimmed(t)
    ensures Trim(" " + t) == t
  {
    TrimStartStops(" " + t, 1);
    assert (" " + t)[1..] == t;
  }

  /** Trimming keeps only characters of the text. */
  lemma TrimKeepsOut(s: string, c: char)
    requires c !in s
    ensures c !in Trim(s)
  {
    var t := TrimStart(s);
    NotInSlice(s, |s| - |t|, c);
    var r := TrimEnd(t);
    NotInPrefix(t, |r|, c);
  }

  lemma NotInSlice(s: string, a: nat, c: char)
    requires a <= |s| && c !in s
    ensures c !in s[a..]
  {
    forall i | 0 <= i < |s| - a ensures s[a..][i] != c {
      assert s[a..][i] == s[a + i];
    }
  }

  lemma NotInPrefix(s: string, b: nat, c: char)
    requires b <= |s| && c !in s
    ensures c !in s[..b]
  {
    forall i | 0 <= i < b ensures s[..b][i] != c {
      assert s[..b][i] == s[i];
    }
  }

  /** No two adjacent whitespace characters, and the only whitespace is ' '. */
  predicate SingleSpaced(s: string) {
    && (forall i :: 0 <= i < |s| && IsSpace(s[i]) ==> s[i] == ' ')
    && (forall i :: 0 < i < |s| ==> !DoubleSpaceAt(s, i))
  }

  /** Whitespace at `i - 1` and at `i`. */
  predicate DoubleSpaceAt(s: string, i: nat)
    requires 0 < i < |s|
  {
    IsSpace(s[i - 1]) && IsSpace(s[i])
  }

  lemma SingleSpacedSlice(s: string, a: nat, b: nat)
    requires a <= b <= |s| && SingleSpaced(s)
    ensures SingleSpaced(s[a..b])
  {
    var t := s[a..b];
    assert forall i :: 0 <= i < |t| ==> t[i] == s[a + i];
    forall i | 0 < i < |t| ensures !DoubleSpaceAt(t, i) {
      assert !DoubleSpaceAt(s, a + i);
    }
  }

  /** Prepending a character keeps a text single-spaced unless it adds a
      second whitespace character to a leading one. */
  lemma SingleSpacedCons(c: char, t: string)
    requires SingleSpaced(t) && (IsSpace(c) ==> c == ' ')
    requires t != [] && IsSpace(c) ==> !IsSpace(t[0])
    ensures SingleSpaced([c] + t)
  {
    var s := [c] + t;
    forall i | 0 < i < |s| ensures !DoubleSpaceAt(s, i) {
      assert s[i] == t[i - 1];
      if i > 1 {
        assert s[i - 1] == t[i - 2];
        assert !DoubleSpaceAt(t, i - 1);
      }
    }
  }

  /** `s.replace(/\s+/g, ' ')`: every maximal run of whitespace becomes one
      space. */
  function CollapseRuns(s: string): (r: string)
    ensures |r| <= |s|
    ensures SingleSpaced(r)
    ensures r != [] <==> s != []
    ensures r != [] ==> (IsSpace(r[0]) <==> IsSpace(s[0]))
    decreases |s|
  {
    if s == [] then []
    else if IsSpace(s[0]) then
      var t := TrimStart(s);
      if t == [] then [' ']
      else
        var r := CollapseRuns(t);
        SingleSpacedCons(' ', r);
        [' '] + r
    else
      var r := CollapseRuns(s[1..]);
      SingleSpacedCons(s[0], r);
      [s[0]] + r
  }

  /** What `getCleanText` and the description de-duplication produce:
      trimmed and single-spaced. */
  predicate IsNormalized(s: string) {
    IsTrimmed(s) && SingleSpaced(s)
  }

  /** `s.replace(/\s+/g, ' ').trim()` */
  function Normalize(s: string): (r: string)
    ensures |r| <= |s|
    ensures IsNormalized(r)
  {
    var c := CollapseRuns(s);
    TrimSingleSpaced(c);
    Trim(c)
  }

  /** Trimming keeps a text single-spaced. */
  lemma TrimSingleSpaced(c: string)
    requires SingleSpaced(c)
    ensures SingleSpaced(Trim(c))
  {
    var t := TrimStart(c);
    SingleSpacedSuffix(c, t);
    SingleSpacedPrefix(t, TrimEnd(t));
  }

  lemma SingleSpacedSuffix(c: string, t: string)
    requires SingleSpaced(c) && |t| <= |c| && t == c[|c| - |t|..]
    ensures SingleSpaced(t)
  {
    SingleSpacedSlice(c, |c| - |t|, |c|);
    assert c[|c| - |t|..|c|] == t;
  }

  lemma SingleSpacedPrefix(t: string, r: string)
    requires SingleSpaced(t) && |r| <= |t| && r == t[..|r|]
    ensures SingleSpaced(r)
  {
    SingleSpacedSlice(t, 0, |r|);
    assert t[0..|r|] == r;
  }

  lemma {:induction false} CollapseRunsOfSingleSpaced(s: string)
    requires SingleSpaced(s)
    ensures CollapseRuns(s) == s
    decreases |s|
  {
    if s != [] {
      var rest := s[1..];
      SingleSpacedSlice(s, 1, |s|);
      assert rest == s[1..|s|];
      assert s == [s[0]] + rest;
      if IsSpace(s[0]) {
        SingleSpacedHead(s);
        if rest == [] {
          assert TrimStart(s) == [];
        } else {
          TrimStartStops(s, 1);
          CollapseRunsOfSingleSpaced(rest);
          CollapseRunsSpace(s, rest);
        }
      } else {
        CollapseRunsOfSingleSpaced(rest);
        CollapseRunsChar(s);
      }
    }
  }

  lemma SingleSpacedHead(s: string)
    requires SingleSpaced(s) && s != [] && IsSpace(s[0])
    ensures s[0] == ' ' && (|s| > 1 ==> !IsSpace(s[1]))
  {
    if |s| > 1 {
      assert !DoubleSpaceAt(s, 1);
    }
  }

  /** A run of whitespace before `t` becomes one space. */
  lemma CollapseRunsSpace(s: string, t: string)
    requires s != [] && IsSpace(s[0]) && TrimStart(s) == t && t != []
    ensures CollapseRuns(s) == [' '] + CollapseRuns(t)
  {
  }

  lemma CollapseRunsChar(s: string)
    requires s != [] && !IsSpace(s[0])
    ensures CollapseRuns(s) == [s[0]] + CollapseRuns(s[1..])
  {
  }

  lemma {:induction false} NormalizeOfNormalized(s: string)
    requires IsNormalized(s)
    ensures Normalize(s) == s
  {
    CollapseRunsOfSingleSpaced(s);
    if s != [] {
      assert TrimStart(s) == s;
    }
  }

  /** Normalising is idempotent: an already normalised text comes back unchanged. */
  lemma {:induction false} NormalizeIdempotent(s: string)
    ensures Normalize(Normalize(s)) == Normalize(s)
  {
    NormalizeOfNormalized(Normalize(s));
  }

  // --------------------------------------------------------------- words

  /** The length of the run of non-whitespace characters that starts at `p`. */
  function WordRun(s: string, p: nat): (n: nat)
    requires p <= |s|
    ensures p + n <= |s|
    ensures forall i :: p <= i < p + n ==> !IsSpace(s[i])
    ensures p + n < |s| ==> IsSpace(s[p + n])
    decreases |s| - p
  {
    if p < |s| && !IsSpace(s[p]) then 1 + WordRun(s, p + 1) else 0
  }

  /** No character of `w` is whitespace. */
  predicate SpaceFree(w: string) {
    forall i :: 0 <= i < |w| ==> !IsSpace(w[i])
  }

  /** The words of a text: its maximal runs of non-whitespace characters,
      in order. */
  function Words(s: string): (r: seq<string>)
    ensures forall i :: 0 <= i < |r| ==> r[i] != "" && SpaceFree(r[i])
    decreases |s|
  {
    if s == [] then []
    else if IsSpace(s[0]) then Words(s[1..])
    else
      var n := WordRun(s, 0);
      [s[..n]] + Words(s[n..])
  }

  /** Cleaning a text keeps its words and nothing else: they come out in
      order, one space apart. */
  lemma NormalizeWords(s: string)
    ensures Normalize(s) == Join(Words(s), " ")
  {
    var t := TrimStart(s);
    WordsTrimStart(s);
    if t == [] {
      NormalizeBlank(s);
    } else {
      CleanFromWord(t);
      if s != t {
        NormalizeLeadSpace(s, t);
      }
    }
  }

  lemma NormalizeBlank(s: string)
    requires TrimStart(s) == []
    ensures Trim(CollapseRuns(s)) == []
  {
    if s != [] {
      assert IsSpace(s[0]);
      assert CollapseRuns(s) == [' '];
      TrimOneSpace();
    }
  }

  lemma TrimOneSpace()
    ensures Trim([' ']) == []
  {
    assert TrimStart([' ']) == TrimStart([]);
  }

  lemma NormalizeLeadSpace(s: string, t: string)
    requires t == TrimStart(s) && t != [] && s != t
    ensures Trim(CollapseRuns(s)) == Trim(CollapseRuns(t))
  {
    assert IsSpace(s[0]);
    CollapseRunsSpace(s, t);
    var c := CollapseRuns(t);
    assert c != [] && !IsSpace(c[0]);
    TrimSpacedStart(c);
  }

  lemma TrimSpacedStart(c: string)
    requires c != [] && !IsSpace(c[0])
    ensures Trim([' '] + c) == Trim(c)
  {
    TrimStartStops(c, 0);
    assert c[0..] == c;
    var d := [' '] + c;
    TrimStartStops(d, 1);
    assert d[1..] == c;
  }

  /** Collapsing the whitespace runs keeps the words, in order. */
  lemma {:induction false} CollapseRunsWords(s: string)
    ensures Words(CollapseRuns(s)) == Words(s)
    decreases |s|
  {
    if s != [] {
      if IsSpace(s[0]) {
        var t := TrimStart(s);
        WordsTrimStart(s);
        if t == [] {
          assert CollapseRuns(s) == [' '];
          assert Words([' ']) == Words([' '][1..]);
        } else {
          CollapseRunsSpace(s, t);
          CollapseRunsWords(t);
          WordsSpace(CollapseRuns(t));
        }
      } else {
        var n := WordRun(s, 0);
        var w, r := s[..n], s[n..];
        WordSplit(s, n, w, r);
        CollapseWord(w, r);
        CollapseRunsWords(r);
        WordsAfterWord(w, CollapseRuns(r));
      }
    }
  }

  lemma WordsSpace(x: string)
    ensures Words([' '] + x) == Words(x)
  {
    assert ([' '] + x)[1..] == x;
  }

  /** A word followed by nothing or by whitespace is the first word. */
  lemma WordsAfterWord(w: string, x: string)
    requires w != [] && SpaceFree(w) && (x != [] ==> IsSpace(x[0]))
    ensures Words(w + x) == [w] + Words(x)
  {
    var s := w + x;
    WordRunPrefix(s, w, 0);
    assert s[..|w|] == w && s[|w|..] == x;
  }

  lemma {:induction false} WordRunPrefix(s: string, w: string, p: nat)
    requires SpaceFree(w) && |w| <= |s| && s[..|w|] == w && p <= |w|
    requires |w| < |s| ==> IsSpace(s[|w|])
    ensures WordRun(s, p) == |w| - p
    decreases |w| - p
  {
    if p < |w| {
      assert s[p] == w[p];
      WordRunPrefix(s, w, p + 1);
    }
  }

  /** Leading whitespace holds no word. */
  lemma {:induction false} WordsTrimStart(s: string)
    ensures Words(s) == Words(TrimStart(s))
    decreases |s|
  {
    if s != [] && IsSpace(s[0]) {
      WordsTrimStart(s[1..]);
    }
  }

  /** From a text that starts with a word, trimming the end of the collapsed
      text gives the words one space apart. */
  lemma {:induction false} CleanFromWord(t: string)
    requires t != [] && !IsSpace(t[0])
    ensures Trim(CollapseRuns(t)) == Join(Words(t), " ")
    ensures Words(t) != []
    decreases |t|
  {
    var n := WordRun(t, 0);
    var w, r := t[..n], t[n..];
    WordSplit(t, n, w, r);
    CollapseWord(w, r);
    var r' := TrimStart(r);
    WordsTrimStart(r);
    if r' == [] {
      LastWord(t, w, r);
    } else {
      CleanFromWord(r');
      NextWord(t, w, r, r');
    }
  }

  lemma WordSplit(t: string, n: nat, w: string, r: string)
    requires t != [] && !IsSpace(t[0]) && n == WordRun(t, 0) && w == t[..n] && r == t[n..]
    ensures t == w + r && Words(t) == [w] + Words(r) && w != [] && SpaceFree(w)
    ensures r != [] ==> IsSpace(r[0])
  {
  }

  /** Trimming a text that starts with a non-space character trims its end only. */
  lemma TrimNoLead(c: string)
    requires c != [] && !IsSpace(c[0])
    ensures Trim(c) == TrimEnd(c)
  {
    TrimStartStops(c, 0);
    assert c[0..] == c;
  }

  /** The last word: only whitespace follows it. */
  lemma LastWord(t: string, w: string, r: string)
    requires t == w + r && w != [] && SpaceFree(w) && TrimStart(r) == []
    requires Words(t) == [w] + Words(r) && Words(r) == Words(TrimStart(r))
    requires CollapseRuns(w + r) == w + CollapseRuns(r)
    ensures Trim(CollapseRuns(t)) == Join(Words(t), " ") && Words(t) != []
  {
    assert Words(r) == [];
    if r != [] {
      assert CollapseRuns(r) == [' '];
    }
    TrimNoLead(CollapseRuns(t));
    TrimEndWord(w, CollapseRuns(r));
  }

  /** A word followed by whitespace and more words. */
  lemma NextWord(t: string, w: string, r: string, r': string)
    requires t == w + r && w != [] && SpaceFree(w) && r' == TrimStart(r) && r' != []
    requires r != [] ==> IsSpace(r[0])
    requires Words(t) == [w] + Words(r) && Words(r) == Words(r')
    requires CollapseRuns(w + r) == w + CollapseRuns(r)
    requires Trim(CollapseRuns(r')) == Join(Words(r'), " ") && Words(r') != []
    ensures Trim(CollapseRuns(t)) == Join(Words(t), " ")
  {
    CollapseRunsSpace(r, r');
    var c' := CollapseRuns(r');
    assert CollapseRuns(t) == (w + " ") + c';
    TrimNoLead(c');
    TrimNoLead(CollapseRuns(t));
    TrimEndConcat(w + " ", c');
    JoinCons(w, Words(r'));
  }

  /** Collapsing leaves a word in front as it is. */
  lemma {:induction false} CollapseWord(w: string, r: string)
    requires SpaceFree(w)
    ensures CollapseRuns(w + r) == w + CollapseRuns(r)
    decreases |w|
  {
    if w != [] {
      var s, t := w + r, w[1..];
      assert s[0] == w[0] && s[1..] == t + r;
      assert SpaceFree(t) by {
        forall i | 0 <= i < |t| ensures !IsSpace(t[i]) { assert t[i] == w[i + 1]; }
      }
      CollapseRunsChar(s);
      CollapseWord(t, r);
      PrependWord(w, t, CollapseRuns(r));
    } else {
      assert w + r == r;
    }
  }

  lemma PrependWord(w: string, t: string, c: string)
    requires w != [] && t == w[1..]
    ensures [w[0]] + (t + c) == w + c
  {
  }

  /** Trimming a word followed by one space or nothing gives the word. */
  lemma TrimEndWord(w: string, tail: string)
    requires w != [] && SpaceFree(w) && (tail == [] || tail == [' '])
    ensures TrimEnd(w + tail) == w
  {
    if tail != [] {
      assert (w + tail)[..|w + tail| - 1] == w;
    }
    assert !IsSpace(w[|w| - 1]);
  }

  /** The end of `x + y` is trimmed within `y`, when `y` does not trim to "". */
  lemma {:induction false} TrimEndConcat(x: string, y: string)
    requires TrimEnd(y) != []
    ensures TrimEnd(x + y) == x + TrimEnd(y)
    decreases |y|
  {
    var s := x + y;
    assert s[|s| - 1] == y[|y| - 1];
    if IsSpace(y[|y| - 1]) {
      var y' := y[..|y| - 1];
      assert s[..|s| - 1] == x + y';
      assert TrimEnd(y) == TrimEnd(y');
      TrimEndConcat(x, y');
    }
  }

  lemma JoinCons(w: string, ws: seq<string>)
    requires ws != []
    ensures Join([w] + ws, " ") == w + " " + Join(ws, " ")
  {
    assert ([w] + ws)[1..] == ws;
  }

  /** A text that starts with a non-space character does not normalise to "". */
  lemma NormalizeNonEmpty(t: string)
    requires t != [] && !IsSpace(t[0])
    ensures Normalize(t) != []
  {
    var c := CollapseRuns(t);
    TrimStartStops(c, 0);
    assert c[0..] == c;
    assert TrimEnd(c) != [] by {
      assert !IsSpace(c[0]);
    }
  }

  // --------------------------------------------------------- split / join

  /** `s.split(sep)` for a one-character separator. */
  function Split(s: string, sep: char): (r: seq<string>)
    ensures |r| >= 1
    ensures forall i :: 0 <= i < |r| ==> sep !in r[i]
    decreases |s|
  {
    if sep !in s then [s]
    else
      var k := FirstIndex(s, sep);
      [s[..k]] + Split(s[k + 1..], sep)
  }

  /** `parts.join(sep)` */
  function Join(parts: seq<string>, sep: string): string {
    if parts == [] then ""
    else if |parts| == 1 then parts[0]
    else parts[0] + sep + Join(parts[1..], sep)
  }

  /** A separator-free prefix followed by the separator is cut off as the first piece. */
  lemma {:induction false} SplitCons(a: string, b: string, sep: char)
    requires sep !in a
    ensures Split(a + [sep] + b, sep) == [a] + Split(b, sep)
  {
    var s := a + [sep] + b;
    assert s[|a|] == sep;
    assert forall i :: 0 <= i < |a| ==> s[i] == a[i];
    var k := FirstIndex(s, sep);
    assert k == |a|;
    assert s[..k] == a;
    assert s[k + 1..] == b;
  }

  /** A separator-free prefix sticks to the first piece. */
  lemma {:induction false} SplitPrepend(t: string, x: string, sep: char)
    requires sep !in t
    ensures Split(t + x, sep) == [t + Split(x, sep)[0]] + Split(x, sep)[1..]
  {
    var s := t + x;
    if sep !in x {
      NoSepConcat(t, x, sep);
    } else {
      var j := FirstIndex(x, sep);
      var q, after := x[..j], x[j + 1..];
      assert x == q + [sep] + after;
      NoSepConcat(t, q, sep);
      assert s == (t + q) + [sep] + after;
      SplitCons(t + q, after, sep);
      SplitCons(q, after, sep);
      PiecesPrepend(Split(s, sep), Split(x, sep), t, q, Split(after, sep));
    }
  }

  lemma PiecesPrepend(ps: seq<string>, px: seq<string>, t: string, q: string, rest: seq<string>)
    requires ps == [t + q] + rest && px == [q] + rest
    ensures |px| >= 1 && ps == [t + px[0]] + px[1..]
  {
    assert px[1..] == rest;
  }

  lemma NoSepConcat(t: string, x: string, sep: char)
    requires sep !in t && sep !in x
    ensures sep !in t + x
  {
    var s := t + x;
    forall i | 0 <= i < |s| ensures s[i] != sep {
      if i < |t| { assert s[i] == t[i]; } else { assert s[i] == x[i - |t|]; }
    }
  }

  /** The first separator of `t + x` is the first one of `x` when `t` has none. */
  lemma FirstIndexAfter(t: string, x: string, sep: char)
    requires sep !in t && sep in x
    ensures sep in t + x && FirstIndex(t + x, sep) == |t| + FirstIndex(x, sep)
  {
    var s := t + x;
    var j := FirstIndex(x, sep);
    assert s[|t| + j] == sep;
    var k := FirstIndex(s, sep);
    assert forall i :: 0 <= i < |t| ==> s[i] == t[i];
    assert forall i :: |t| <= i < |t| + j ==> s[i] == x[i - |t|] && x[i - |t|] in x[..j];
    assert !(k < |t|) && !(k < |t| + j);
  }

  /** Splitting undoes joining with a separator (`sep` followed by `tail`)
      that no part contains: the pieces are the parts, each after the first
      preceded by `tail`. */
  lemma {:induction false} SplitJoin(parts: seq<string>, sep: char, tail: string)
    requires |parts| >= 1
    requires sep !in tail
    requires forall i :: 0 <= i < |parts| ==> sep !in parts[i]
    ensures |Split(Join(parts, [sep] + tail), sep)| == |parts|
    ensures forall i :: 0 <= i < |parts| ==>
      Split(Join(parts, [sep] + tail), sep)[i] == (if i == 0 then parts[0] else tail + parts[i])
    decreases |parts|
  {
    if |parts| == 1 {
    } else {
      var rest := Join(parts[1..], [sep] + tail);
      SplitJoin(parts[1..], sep, tail);
      SplitJoinStep(parts, sep, tail);
      PiecesShift(Split(Join(parts, [sep] + tail), sep), Split(rest, sep), parts, tail);
    }
  }

  lemma PiecesShift(pieces: seq<string>, r: seq<string>, parts: seq<string>, tail: string)
    requires |parts| >= 2 && |r| == |parts| - 1
    requires pieces == [parts[0]] + ([tail + r[0]] + r[1..])
    requires forall i :: 0 <= i < |r| ==> r[i] == (if i == 0 then parts[1..][0] else tail + parts[1..][i])
    ensures forall i :: 0 <= i < |parts| ==> pieces[i] == (if i == 0 then parts[0] else tail + parts[i])
  {
    forall i | 0 <= i < |parts| ensures pieces[i] == (if i == 0 then parts[0] else tail + parts[i]) {
      if i >= 1 {
        assert pieces[i] == (if i == 1 then tail + r[0] else r[i - 1]);
        assert parts[1..][i - 1] == parts[i];
      }
    }
  }

  /** One part off the front of a join, split again. */
  lemma SplitJoinStep(parts: seq<string>, sep: char, tail: string)
    requires |parts| >= 2
    requires sep !in tail && sep !in parts[0]
    ensures var r := Split(Join(parts[1..], [sep] + tail), sep);
            Split(Join(parts, [sep] + tail), sep) == [parts[0]] + ([tail + r[0]] + r[1..])
  {
    var rest := Join(parts[1..], [sep] + tail);
    assert Join(parts, [sep] + tail) == parts[0] + [sep] + (tail + rest);
    SplitCons(parts[0], tail + rest, sep);
    SplitPrepend(tail, rest, sep);
  }

  // ------------------------------------------------------- line splitting

  /** `s.split(/\n+/)`: cut at every maximal run of newlines. */
  function SplitLines(s: string): (r: seq<string>)
    ensures |r| >= 1
    ensures forall i :: 0 <= i < |r| ==> '\n' !in r[i]
    decreases |s|
  {
    if '\n' !in s then [s]
    else
      var k := FirstIndex(s, '\n');
      [s[..k]] + SplitLines(DropNewlines(s[k..]))
  }

  /** A line feed, the character `\n` matches. */
  predicate IsNewline(c: char) { c == '\n' }

  /** The length of the run of newlines that starts at `p`. */
  function NewlineRun(s: string, p: nat): (n: nat)
    requires p <= |s|
    ensures p + n <= |s|
    ensures forall i :: p <= i < p + n ==> IsNewline(s[i])
    ensures p + n < |s| ==> !IsNewline(s[p + n])
    decreases |s| - p
  {
    if p < |s| && s[p] == '\n' then 1 + NewlineRun(s, p + 1) else 0
  }

  /** A run of `n` newlines followed by something else has length `n`. */
  lemma {:induction false} NewlineRunIs(s: string, p: nat, n: nat)
    requires p + n <= |s|
    requires forall i :: p <= i < p + n ==> IsNewline(s[i])
    requires p + n < |s| ==> !IsNewline(s[p + n])
    ensures NewlineRun(s, p) == n
    decreases n
  {
    if n > 0 {
      NewlineRunIs(s, p + 1, n - 1);
    }
  }

  /** The text after its leading run of newlines. */
  function DropNewlines(s: string): (r: string)
    ensures |r| <= |s| && r == s[|s| - |r|..]
    ensures forall i :: 0 <= i < |s| - |r| ==> IsNewline(s[i])
    ensures r != [] ==> r[0] != '\n'
    ensures s != [] && s[0] == '\n' ==> |r| < |s|
  {
    s[NewlineRun(s, 0)..]
  }

  /** `n` newline characters. */
  function Newlines(n: nat): (r: string)
    ensures |r| == n && forall i :: 0 <= i < n ==> r[i] == '\n'
  {
    if n == 0 then [] else ['\n'] + Newlines(n - 1)
  }

  /** The lines put back together, with `breaks[i]` newlines between line
      `i` and line `i + 1`. */
  function JoinLines(lines: seq<string>, breaks: seq<nat>): string
    requires |lines| == |breaks| + 1
    decreases |breaks|
  {
    if breaks == [] then lines[0]
    else lines[0] + Newlines(breaks[0]) + JoinLines(lines[1..], breaks[1..])
  }

  /** What a cut at maximal newline runs leaves: lines without a newline,
      runs of at least one, and no empty line between two runs. */
  predicate IsLineCut(lines: seq<string>, breaks: seq<nat>) {
    && |lines| == |breaks| + 1
    && (forall i :: 0 <= i < |lines| ==> '\n' !in lines[i])
    && (forall i :: 0 < i < |lines| - 1 ==> lines[i] != "")
    && (forall i :: 0 <= i < |breaks| ==> breaks[i] >= 1)
  }

  /** A cut with one more line and run in front. */
  lemma IsLineCutCons(line: string, n: nat, lines: seq<string>, breaks: seq<nat>)
    requires IsLineCut(lines, breaks) && '\n' !in line && n >= 1 && (|lines| > 1 ==> lines[0] != "")
    ensures IsLineCut([line] + lines, [n] + breaks)
  {
    var ls, bs := [line] + lines, [n] + breaks;
    assert forall i :: 0 < i < |ls| ==> ls[i] == lines[i - 1];
    assert forall i :: 0 < i < |bs| ==> bs[i] == breaks[i - 1];
  }

  /** The cut without its first line and run. */
  lemma IsLineCutTail(lines: seq<string>, breaks: seq<nat>)
    requires IsLineCut(lines, breaks) && breaks != []
    ensures IsLineCut(lines[1..], breaks[1..])
    ensures |lines| > 2 ==> lines[1] != ""
  {
    assert forall i :: 0 <= i < |lines| - 1 ==> lines[1..][i] == lines[i + 1];
    assert forall i :: 0 <= i < |breaks| - 1 ==> breaks[1..][i] == breaks[i + 1];
  }

  /** The lengths of the newline runs of `s`, in order. */
  function LineBreaks(s: string): (r: seq<nat>)
    decreases |s|
  {
    if '\n' !in s then []
    else
      var k := FirstIndex(s, '\n');
      var d := DropNewlines(s[k..]);
      [|s[k..]| - |d|] + LineBreaks(d)
  }

  /** Every text is its lines put back with its newline runs. */
  lemma {:induction false} SplitLinesCover(s: string)
    ensures IsLineCut(SplitLines(s), LineBreaks(s))
    ensures JoinLines(SplitLines(s), LineBreaks(s)) == s
    decreases |s|
  {
    if '\n' in s {
      var k := FirstIndex(s, '\n');
      var d := DropNewlines(s[k..]);
      SplitLinesCover(d);
      var n := |s[k..]| - |d|;
      DropNewlinesRun(s[k..], d, n);
      CoverStep(s, k, d, n, SplitLines(d), LineBreaks(d));
    }
  }

  lemma CoverStep(s: string, k: nat, d: string, n: nat, ls: seq<string>, bs: seq<nat>)
    requires '\n' in s && k == FirstIndex(s, '\n') && d == DropNewlines(s[k..]) && n == |s[k..]| - |d|
    requires s[k..] == Newlines(n) + d && n >= 1
    requires ls == SplitLines(d) && bs == LineBreaks(d)
    requires IsLineCut(ls, bs) && JoinLines(ls, bs) == d
    ensures IsLineCut(SplitLines(s), LineBreaks(s))
    ensures JoinLines(SplitLines(s), LineBreaks(s)) == s
  {
    CoverUnfold(s, k, d, n);
    if |ls| > 1 && ls[0] == "" {
      JoinLinesHead(ls, bs);
    }
    IsLineCutCons(s[..k], n, ls, bs);
    JoinLinesCons(s[..k], n, ls, bs);
    SplitAt(s, k, Newlines(n), d);
  }

  lemma CoverUnfold(s: string, k: nat, d: string, n: nat)
    requires '\n' in s && k == FirstIndex(s, '\n') && d == DropNewlines(s[k..]) && n == |s[k..]| - |d|
    ensures SplitLines(s) == [s[..k]] + SplitLines(d) && LineBreaks(s) == [n] + LineBreaks(d)
    ensures '\n' !in s[..k]
  {
    SplitLinesUnfold(s);
    LineBreaksUnfold(s);
  }

  lemma SplitLinesUnfold(s: string)
    requires '\n' in s
    ensures var k := FirstIndex(s, '\n'); SplitLines(s) == [s[..k]] + SplitLines(DropNewlines(s[k..]))
  {
    assert '\n' in s;
  }

  lemma LineBreaksUnfold(s: string)
    requires '\n' in s
    ensures var k := FirstIndex(s, '\n'); var d := DropNewlines(s[k..]); LineBreaks(s) == [|s[k..]| - |d|] + LineBreaks(d)
  {
    assert '\n' in s;
  }

  lemma SplitAt(s: string, k: nat, a: string, b: string)
    requires k <= |s| && s[k..] == a + b
    ensures s == s[..k] + a + b
  {
    assert s == s[..k] + s[k..];
  }

  lemma JoinLinesCons(line: string, n: nat, lines: seq<string>, breaks: seq<nat>)
    requires |lines| == |breaks| + 1
    ensures JoinLines([line] + lines, [n] + breaks) == line + Newlines(n) + JoinLines(lines, breaks)
  {
    assert ([line] + lines)[1..] == lines && ([n] + breaks)[1..] == breaks;
  }

  /** The run `DropNewlines` skips is made of newlines. */
  lemma DropNewlinesRun(s: string, d: string, n: nat)
    requires d == DropNewlines(s) && n == |s| - |d|
    ensures s == Newlines(n) + d
    ensures s != [] && s[0] == '\n' ==> n >= 1
  {
    var a := s[..n];
    assert forall i :: 0 <= i < n ==> a[i] == s[i];
    assert a == Newlines(n);
    assert s == a + s[n..];
  }

  /** A join of two or more lines whose first is empty starts with a newline. */
  lemma JoinLinesHead(ls: seq<string>, bs: seq<nat>)
    requires IsLineCut(ls, bs) && |ls| > 1 && ls[0] == ""
    ensures JoinLines(ls, bs) != [] && JoinLines(ls, bs)[0] == '\n'
  {
    assert bs[0] >= 1;
    assert JoinLines(ls, bs) == Newlines(bs[0]) + JoinLines(ls[1..], bs[1..]);
  }

  /** Splitting undoes putting lines back: the lines come back. */
  lemma {:induction false} SplitLinesJoin(lines: seq<string>, breaks: seq<nat>)
    requires IsLineCut(lines, breaks)
    ensures SplitLines(JoinLines(lines, breaks)) == lines
    decreases |breaks|
  {
    if breaks == [] {
      assert '\n' !in lines[0];
      assert lines == [lines[0]];
    } else {
      IsLineCutTail(lines, breaks);
      SplitLinesJoin(lines[1..], breaks[1..]);
      JoinLinesStart(lines[1..], breaks[1..]);
      assert '\n' !in lines[0] && breaks[0] >= 1;
      SplitLinesJoinStep(lines, breaks);
    }
  }

  lemma SplitLinesJoinStep(lines: seq<string>, breaks: seq<nat>)
    requires |lines| == |breaks| + 1 && breaks != []
    requires '\n' !in lines[0] && breaks[0] >= 1
    requires var rest := JoinLines(lines[1..], breaks[1..]); rest == [] || rest[0] != '\n'
    requires SplitLines(JoinLines(lines[1..], breaks[1..])) == lines[1..]
    ensures SplitLines(JoinLines(lines, breaks)) == lines
  {
    var first, n, tl, tb := lines[0], breaks[0], lines[1..], breaks[1..];
    var rest := JoinLines(tl, tb);
    var j := JoinLines(lines, breaks);
    JoinLinesUnfold(lines, breaks);
    assert j == first + Newlines(n) + rest;
    SplitLinesStep(first, n, rest);
    assert SplitLines(j) == [first] + tl;
    assert lines == [first] + tl;
  }

  lemma JoinLinesUnfold(lines: seq<string>, breaks: seq<nat>)
    requires |lines| == |breaks| + 1 && breaks != []
    ensures JoinLines(lines, breaks) == lines[0] + Newlines(breaks[0]) + JoinLines(lines[1..], breaks[1..])
  {
  }

  /** A join starts with its first line, which is empty only when it is the
      last line. */
  lemma JoinLinesStart(lines: seq<string>, breaks: seq<nat>)
    requires IsLineCut(lines, breaks) && (|lines| > 1 ==> lines[0] != "")
    ensures var j := JoinLines(lines, breaks); j == [] || j[0] != '\n'
  {
    if lines[0] != "" {
      assert lines[0][0] != '\n';
      assert JoinLines(lines, breaks)[0] == lines[0][0];
    }
  }

  /** One line off the front. */
  lemma SplitLinesStep(line: string, n: nat, rest: string)
    requires '\n' !in line && n >= 1 && (rest == [] || rest[0] != '\n')
    ensures SplitLines(line + Newlines(n) + rest) == [line] + SplitLines(rest)
  {
    var x := Newlines(n) + rest;
    var s := line + x;
    assert line + Newlines(n) + rest == s;
    NewlinesStart(n, rest);
    FirstIndexHead(x, '\n');
    FirstIndexAfter(line, x, '\n');
    SplitLinesUnfold(s);
    CutAfter(line, x);
    DropNewlinesOf(n, rest);
  }

  lemma FirstIndexHead(x: string, c: char)
    requires x != [] && x[0] == c
    ensures c in x && FirstIndex(x, c) == 0
  {
    assert x[0] in x;
  }

  lemma CutAfter(t: string, x: string)
    ensures (t + x)[..|t|] == t && (t + x)[|t|..] == x
  {
  }

  lemma DropNewlinesOf(n: nat, rest: string)
    requires rest == [] || rest[0] != '\n'
    ensures DropNewlines(Newlines(n) + rest) == rest
  {
    var x := Newlines(n) + rest;
    assert forall i :: 0 <= i < n ==> x[i] == Newlines(n)[i];
    assert n < |x| ==> x[n] == rest[0];
    NewlineRunIs(x, 0, n);
    assert x[n..] == rest;
  }

  lemma NewlinesStart(n: nat, rest: string)
    requires n >= 1
    ensures (Newlines(n) + rest)[0] == '\n'
  {
    assert (Newlines(n) + rest)[0] == Newlines(n)[0];
  }

  // ---------------------------------------------------- decimal integers

  function DigitChar(d: nat): char
    requires d < 10
  {
    ('0' as int + d) as char
  }

  function DigitValue(c: char): nat
    requires IsDigit(c)
  {
    c as int - '0' as int
  }

  /** `n.toString()` for a non-negative integer: decimal digits without
      leading zeros. */
  function NatToString(n: nat): (r: string)
    ensures |r| >= 1 && AllDigits(r)
    ensures |r| > 1 ==> r[0] != '0'
  {
    if n < 10 then [DigitChar(n)] else NatToString(n / 10) + [DigitChar(n % 10)]
  }

  /** The value of a string of decimal digits (`parseFloat` of it). */
  function DigitsValue(d: string): nat
    requires AllDigits(d)
  {
    if d == [] then 0 else DigitsValue(d[..|d| - 1]) * 10 + DigitValue(d[|d| - 1])
  }

  lemma {:induction false} DigitsValueOfNatToString(n: nat)
    ensures DigitsValue(NatToString(n)) == n
  {
    if n >= 10 {
      var d := NatToString(n);
      assert d[..|d| - 1] == NatToString(n / 10);
      DigitsValueOfNatToString(n / 10);
    }
  }

  /** `s.replace(/,/g, '')` */
  function RemoveCommas(s: string): (r: string)
    ensures |r| <= |s|
  {
    if s == [] then []
    else (if s[0] == ',' then [] else [s[0]]) + RemoveCommas(s[1..])
  }

  /** The removal keeps every character but the comma. */
  lemma {:induction false} RemoveCommasMembers(s: string, c: char)
    ensures c in RemoveCommas(s) <==> c in s && c != ','
  {
    if s != [] {
      RemoveCommasMembers(s[1..], c);
      assert s == [s[0]] + s[1..];
    }
  }

  lemma {:induction false} RemoveCommasConcat(a: string, b: string)
    ensures RemoveCommas(a + b) == RemoveCommas(a) + RemoveCommas(b)
  {
    if a == [] {
      assert a + b == b;
    } else {
      assert (a + b)[0] == a[0];
      assert (a + b)[1..] == a[1..] + b;
      RemoveCommasConcat(a[1..], b);
    }
  }

  lemma {:induction false} RemoveCommasNoComma(a: string)
    requires ',' !in a
    ensures RemoveCommas(a) == a
  {
    if a != [] {
      RemoveCommasNoComma(a[1..]);
    }
  }

  // ------------------------------------------------- thousands grouping

  /** Length of the run of digits that starts at `p`. */
  function DigitRun(s: string, p: nat): (n: nat)
    requires p <= |s|
    ensures p + n <= |s|
    ensures forall i :: p <= i < p + n ==> IsDigit(s[i])
    ensures p + n < |s| ==> !IsDigit(s[p + n])
    decreases |s| - p
  {
    if p < |s| && IsDigit(s[p]) then 1 + DigitRun(s, p + 1) else 0
  }

  /** Where `/\B(?=(\d{3})+(?!\d))/` matches: not at a word boundary, and
      followed by a positive multiple of three digits and then a non-digit. */
  predicate CommaAt(s: string, p: nat)
    requires p <= |s|
  {
    0 < p < |s| && IsWordChar(s[p - 1]) && IsWordChar(s[p])
    && DigitRun(s, p) >= 3 && IsGroupCount(DigitRun(s, p))
  }

  /** `(\d{3})+` covers `n` digits: `n` is a multiple of three. */
  predicate IsGroupCount(n: nat)
    decreases n
  {
    n == 0 || (n >= 3 && IsGroupCount(n - 3))
  }

  function GroupFrom(s: string, p: nat): string
    requires p <= |s|
    decreases |s| - p
  {
    if p == |s| then []
    else (if CommaAt(s, p) then [','] else []) + [s[p]] + GroupFrom(s, p + 1)
  }

  /** `s.replace(/\B(?=(\d{3})+(?!\d))/g, ',')`: a comma is inserted at every
      position where the pattern matches in the original string. */
  function GroupThousands(s: string): string {
    GroupFrom(s, 0)
  }

  /** The reference reading of grouping: a comma before each full group of
      three digits counted from the right. */
  function Grouped(d: string): string
    decreases |d|
  {
    if |d| <= 3 then d else Grouped(d[..|d| - 3]) + "," + d[|d| - 3..]
  }

  lemma {:induction false} DigitRunAll(d: string, p: nat)
    requires AllDigits(d) && p <= |d|
    ensures DigitRun(d, p) == |d| - p
    decreases |d| - p
  {
    if p < |d| { DigitRunAll(d, p + 1); }
  }

  /** On a string of digits a comma goes before every position that has a
      positive multiple of three digits to its right. */
  lemma CommaAtDigits(d: string, p: nat)
    requires AllDigits(d) && p <= |d|
    ensures CommaAt(d, p) <==> 0 < p < |d| && IsGroupCount(|d| - p)
  {
    DigitRunAll(d, p);
    if 0 < p < |d| {
      assert IsWordChar(d[p - 1]) && IsWordChar(d[p]);
    }
  }

  /** Grouping by position alone: a comma before every position past the
      first with a positive multiple of three characters from it to the end. */
  function GroupDigits(d: string, p: nat): string
    requires p <= |d|
    decreases |d| - p
  {
    if p == |d| then []
    else (if 0 < p && IsGroupCount(|d| - p) then [','] else []) + [d[p]] + GroupDigits(d, p + 1)
  }

  /** On digits the regular expression puts the commas where counting from
      the right does. */
  lemma {:induction false} GroupFromDigits(d: string, p: nat)
    requires AllDigits(d) && p <= |d|
    ensures GroupFrom(d, p) == GroupDigits(d, p)
    decreases |d| - p
  {
    if p < |d| {
      CommaAtDigits(d, p);
      GroupFromDigits(d, p + 1);
      GroupFromStep(d, p);
      GroupDigitsStep(d, p);
      assert (if CommaAt(d, p) then [','] else []) == (if 0 < p && IsGroupCount(|d| - p) then [','] else []);
    }
  }

  lemma {:induction false} GroupDigitsSplit(e: string, t: string, p: nat)
    requires |e| > 0 && |t| == 3 && p <= |e|
    ensures GroupDigits(e + t, p) == GroupDigits(e, p) + "," + t
    decreases |e| - p
  {
    if p == |e| {
      GroupDigitsLastThree(e + t);
      assert (e + t)[|e|..] == t;
    } else {
      GroupDigitsSplit(e, t, p + 1);
      GroupDigitsStep(e + t, p);
      GroupDigitsStep(e, p);
      assert IsGroupCount(|e + t| - p) == IsGroupCount(|e| - p);
      assert (e + t)[p] == e[p];
      PrependBoth(if 0 < p && IsGroupCount(|e| - p) then [','] else [], [e[p]],
                  GroupDigits(e + t, p + 1), GroupDigits(e, p + 1), GroupDigits(e + t, p), GroupDigits(e, p),
                  "," + t);
    }
  }

  lemma GroupDigitsStep(d: string, p: nat)
    requires p < |d|
    ensures GroupDigits(d, p) == (if 0 < p && IsGroupCount(|d| - p) then [','] else []) + [d[p]] + GroupDigits(d, p + 1)
  {
  }

  lemma GroupFromStep(s: string, p: nat)
    requires p < |s|
    ensures GroupFrom(s, p) == (if CommaAt(s, p) then [','] else []) + [s[p]] + GroupFrom(s, p + 1)
  {
  }

  /** Putting the same front before both sides keeps a common tail. */
  lemma PrependBoth(c: string, x: string, rd: string, re: string, gd: string, ge: string, tail: string)
    requires rd == re + tail
    requires gd == c + x + rd && ge == c + x + re
    ensures gd == ge + tail
  {
    assert c + x + (re + tail) == (c + x + re) + tail;
  }

  lemma GroupDigitsLastThree(d: string)
    requires |d| > 3
    ensures GroupDigits(d, |d| - 3) == "," + d[|d| - 3..]
  {
    var p := |d| - 3;
    assert IsGroupCount(3) && !IsGroupCount(2) && !IsGroupCount(1);
    GroupDigitsStep(d, p + 2);
    assert GroupDigits(d, p + 2) == [d[p + 2]];
    GroupDigitsStep(d, p + 1);
    assert GroupDigits(d, p + 1) == [d[p + 1], d[p + 2]];
    GroupDigitsStep(d, p);
    assert d[p..] == [d[p], d[p + 1], d[p + 2]];
  }

  lemma {:induction false} GroupDigitsShort(d: string, p: nat)
    requires |d| <= 3 && p <= |d|
    ensures GroupDigits(d, p) == d[p..]
    decreases |d| - p
  {
    if p < |d| {
      assert !(0 < p && IsGroupCount(|d| - p)) by {
        if 0 < p { assert |d| - p < 3; assert !IsGroupCount(|d| - p - 0); }
      }
      GroupDigitsShort(d, p + 1);
    }
  }

  lemma {:induction false} GroupDigitsGrouped(d: string)
    ensures GroupDigits(d, 0) == Grouped(d)
    decreases |d|
  {
    if |d| <= 3 {
      GroupDigitsShort(d, 0);
    } else {
      var e, t := d[..|d| - 3], d[|d| - 3..];
      assert d == e + t;
      GroupDigitsSplit(e, t, 0);
      GroupDigitsGrouped(e);
    }
  }

  /** On a string of digits the regular-expression replace groups by three
      from the right. */
  lemma GroupThousandsDigits(d: string)
    requires AllDigits(d)
    ensures GroupThousands(d) == Grouped(d)
  {
    GroupFromDigits(d, 0);
    GroupDigitsGrouped(d);
  }

  lemma RemoveCommasComma(t: string)
    ensures RemoveCommas([','] + t) == RemoveCommas(t)
  {
    assert ([','] + t)[1..] == t;
  }

  /** Removing the commas from a group, a comma and comma-free digits. */
  lemma RemoveCommasGroup(g: string, e: string, tail: string)
    requires RemoveCommas(g) == e && ',' !in tail
    ensures RemoveCommas(g + "," + tail) == e + tail
  {
    var t := [','] + tail;
    assert g + "," + tail == g + t;
    RemoveCommasComma(tail);
    RemoveCommasNoComma(tail);
    assert RemoveCommas(t) == tail;
    RemoveCommasConcat(g, t);
  }

  /** Grouping only inserts commas. */
  lemma {:induction false} GroupedRemoveCommas(d: string)
    requires AllDigits(d)
    ensures RemoveCommas(Grouped(d)) == d
    decreases |d|
  {
    if |d| > 3 {
      var e := d[..|d| - 3];
      var tail := d[|d| - 3..];
      assert ',' !in tail by {
        forall i | 0 <= i < |tail| ensures tail[i] != ',' { assert IsDigit(tail[i]); }
      }
      GroupedRemoveCommas(e);
      RemoveCommasGroup(Grouped(e), e, tail);
      assert d == e + tail;
    } else {
      assert ',' !in d by {
        forall i | 0 <= i < |d| ensures d[i] != ',' { assert IsDigit(d[i]); }
      }
      RemoveCommasNoComma(d);
    }
  }
}
