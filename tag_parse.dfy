/**
 * The three tag parsers that turn a language-model reply into a bid or an
 * action: `SealBid.parse_bid` and `Clock.parse_action` (src/util_plan.py) and
 * `Ebay.parse_action_and_amount` (src/util_ebay.py).
 *
 * Each parser is a `re.search`: the leftmost start position at which the
 * pattern matches.  For every pattern, the backtracking matcher's first success
 * at a start position is written out directly (`BidAt`, `WordTagAt`,
 * `AmountAt`), and lemmas relate it to a plain description of "a match of the
 * pattern" (`ValidBidMatch`, `ValidWordMatch`, `ValidAmountMatch`): a match
 * exists exactly when the parser finds one, and what it finds is the leftmost
 * match, with the group the backtracking order settles on.
 */
module TagParse {
  import opened Base

  // ---------------------------------------------------------------------------
  // Character classes and case folding (ASCII)
  // ---------------------------------------------------------------------------

  /** `\d` restricted to ASCII digits. */
  predicate IsDigit(c: char)
  {
    '0' <= c <= '9'
  }

  /** `\s` in a str pattern: the characters for which Python's `str.isspace` holds. */
  predicate IsSpace(c: char)
  {
    var n := c as int;
    (9 <= n <= 13) || (0x1c <= n <= 0x20) || n == 0x85 || n == 0xa0 || n == 0x1680
    || (0x2000 <= n <= 0x200a) || n == 0x2028 || n == 0x2029 || n == 0x202f
    || n == 0x205f || n == 0x3000
  }

  /** `str.lower` on one ASCII character. */
  function Lower(c: char): (r: char)
    ensures IsDigit(c) ==> r == c
  {
    if 'A' <= c <= 'Z' then (c as int + 32) as char else c
  }

  function LowerString(s: string): (r: string)
    ensures |r| == |s|
    ensures forall i :: 0 <= i < |s| ==> r[i] == Lower(s[i])
  {
    seq(|s|, i requires 0 <= i < |s| => Lower(s[i]))
  }

  /** The lower-case literal `t` occurs at position `i` of `s`, ignoring case. */
  predicate TagAt(s: string, i: nat, t: string)
  {
    i + |t| <= |s| && forall k :: 0 <= k < |t| ==> Lower(s[i + k]) == t[k]
  }

  /** One of the alternatives `closers` occurs at position `k`. */
  predicate CloseAt(s: string, k: nat, closers: seq<string>)
  {
    exists c :: c in closers && TagAt(s, k, c)
  }

  /** Every alternative starts with `<`, as every closing tag here does. */
  predicate TagsStartWithLt(closers: seq<string>)
  {
    forall c :: c in closers ==> |c| > 0 && c[0] == '<'
  }

  lemma CloseAtLt(s: string, k: nat, closers: seq<string>)
    requires TagsStartWithLt(closers)
    requires CloseAt(s, k, closers)
    ensures k < |s| && s[k] == '<'
  {
    var c :| c in closers && TagAt(s, k, c);
    assert Lower(s[k + 0]) == c[0];
  }

  // ---------------------------------------------------------------------------
  // Runs of digits and of white space
  // ---------------------------------------------------------------------------

  /** End of the run of digits starting at `j` (greedy `\d*`). */
  function DigitEnd(s: string, j: nat): (e: nat)
    requires j <= |s|
    ensures j <= e <= |s|
    ensures forall k :: j <= k < e ==> IsDigit(s[k])
    ensures e == |s| || !IsDigit(s[e])
    decreases |s| - j
  {
    if j < |s| && IsDigit(s[j]) then DigitEnd(s, j + 1) else j
  }

  /** End of the run of white space starting at `j` (greedy `\s*`). */
  function SpaceEnd(s: string, j: nat): (e: nat)
    requires j <= |s|
    ensures j <= e <= |s|
    ensures forall k :: j <= k < e ==> IsSpace(s[k])
    ensures e == |s| || !IsSpace(s[e])
    decreases |s| - j
  {
    if j < |s| && IsSpace(s[j]) then SpaceEnd(s, j + 1) else j
  }

  /** The first digit at or after `j` (where a lazy `.*?` followed by `\d` stops). */
  function FirstDigit(s: string, j: nat): (r: Option<nat>)
    requires j <= |s|
    ensures r.Some? ==> j <= r.value < |s| && IsDigit(s[r.value])
    ensures r.Some? ==> forall k :: j <= k < r.value ==> !IsDigit(s[k])
    ensures r.None? ==> forall k :: j <= k < |s| ==> !IsDigit(s[k])
    decreases |s| - j
  {
    if j == |s| then None else if IsDigit(s[j]) then Some(j) else FirstDigit(s, j + 1)
  }

  /** A closing alternative occurs somewhere at or after `k` (a lazy `.*?` before it). */
  predicate CloseFrom(s: string, k: nat, closers: seq<string>)
    decreases |s| - k
  {
    k < |s| && (CloseAt(s, k, closers) || CloseFrom(s, k + 1, closers))
  }

  lemma {:induction false} CloseFromIff(s: string, k: nat, closers: seq<string>)
    ensures CloseFrom(s, k, closers) <==> exists m :: k <= m < |s| && CloseAt(s, m, closers)
    decreases |s| - k
  {
    if k < |s| {
      CloseFromIff(s, k + 1, closers);
      if CloseFrom(s, k + 1, closers) {
        var m :| k + 1 <= m < |s| && CloseAt(s, m, closers);
        assert k <= m < |s| && CloseAt(s, m, closers);
      }
      if exists m :: k <= m < |s| && CloseAt(s, m, closers) {
        var m :| k <= m < |s| && CloseAt(s, m, closers);
        if m != k {
          assert k + 1 <= m < |s| && CloseAt(s, m, closers);
        }
      }
    }
  }

  // ---------------------------------------------------------------------------
  // Numbers written in digits
  // ---------------------------------------------------------------------------

  function DigitValue(c: char): (r: nat)
    requires IsDigit(c)
    ensures r < 10
  {
    c as int - '0' as int
  }

  predicate AllDigits(d: string)
  {
    forall k :: 0 <= k < |d| ==> IsDigit(d[k])
  }

  /** Python's `int(d)` / `float(d)` on a string of ASCII digits. */
  function DigitsValue(d: string): (r: nat)
    requires AllDigits(d)
  {
    if d == [] then 0 else 10 * DigitsValue(d[..|d| - 1]) + DigitValue(d[|d| - 1])
  }

  function DigitChar(v: nat): (c: char)
    requires v < 10
    ensures IsDigit(c) && DigitValue(c) == v
  {
    ('0' as int + v) as char
  }

  /** The decimal notation of `n`, as `str(n)` writes it. */
  function NatToString(n: nat): (d: string)
    ensures |d| > 0 && AllDigits(d)
  {
    if n < 10 then [DigitChar(n)] else NatToString(n / 10) + [DigitChar(n % 10)]
  }

  lemma {:induction false} NatToStringValue(n: nat)
    ensures DigitsValue(NatToString(n)) == n
  {
    if n >= 10 {
      var d := NatToString(n);
      assert d[..|d| - 1] == NatToString(n / 10);
      NatToStringValue(n / 10);
    }
  }

  function Pow10(k: nat): (r: nat)
    ensures r > 0
  {
    if k == 0 then 1 else 10 * Pow10(k - 1)
  }

  /** `float(w + "." + f)` for digit strings `w` and `f` (no fraction when `f` is empty). */
  function Decimal(w: string, f: string): (r: real)
    requires AllDigits(w) && AllDigits(f)
    ensures r >= DigitsValue(w) as real
    ensures r < DigitsValue(w) as real + 1.0
  {
    DigitsValueBound(f);
    FractionBelowOne(DigitsValue(f) as real, Pow10(|f|) as real);
    DigitsValue(w) as real + DigitsValue(f) as real / Pow10(|f|) as real
  }

  lemma FractionBelowOne(a: real, b: real)
    requires 0.0 <= a < b
    ensures 0.0 <= a / b < 1.0
  {
    assert (a / b) * b == a;
  }

  /** Without a fractional part the value is the integer part's. */
  lemma DecimalWhole(w: string)
    requires AllDigits(w)
    ensures Decimal(w, []) == DigitsValue(w) as real
  {
    assert DigitsValue([]) == 0 && Pow10(0) == 1;
  }

  lemma {:induction false} DigitsValueBound(f: string)
    requires AllDigits(f)
    ensures DigitsValue(f) < Pow10(|f|)
  {
    if f != [] {
      DigitsValueBound(f[..|f| - 1]);
    }
  }

  // ---------------------------------------------------------------------------
  // re.search: the leftmost start position with a match
  // ---------------------------------------------------------------------------

  /**
   * Tries the start positions `i`, `i + 1`, ..., `n` in turn and returns the
   * first one at which `matchAt` succeeds, together with what it produced.
   */
  function Search<R>(n: nat, i: nat, matchAt: nat -> Option<R>): (r: Option<(nat, R)>)
    ensures r.Some? ==> i <= r.value.0 <= n && matchAt(r.value.0) == Some(r.value.1)
    ensures r.Some? ==> forall k :: i <= k < r.value.0 ==> matchAt(k).None?
    ensures r.None? <==> forall k :: i <= k <= n ==> matchAt(k).None?
    decreases n + 1 - i
  {
    if i > n then None
    else match matchAt(i)
      case Some(x) => Some((i, x))
      case None => Search(n, i + 1, matchAt)
  }

  // ---------------------------------------------------------------------------
  // parse_bid: <BID>.*?(\d+).*?<\\?BID>, IGNORECASE | DOTALL
  // ---------------------------------------------------------------------------

  /** The closing alternatives of `<\\?BID>`: `<BID>` and `<\BID>`. */
  const BidClosersAsWritten: seq<string> := ["<bid>", "<\\bid>"]

  /** The closing alternatives once `</BID>` is accepted as well. */
  const BidClosersCorrected: seq<string> := ["<bid>", "<\\bid>", "</bid>"]

  /**
   * A match of the bid pattern starting at `i`, with the group `s[j..e]` and
   * the closing tag at `k`, whatever order the matcher would try things in.
   */
  ghost predicate ValidBidMatch(s: string, i: nat, j: nat, e: nat, k: nat, closers: seq<string>)
  {
    TagAt(s, i, "<bid>") && i + 5 <= j < e <= k < |s|
    && (forall m :: j <= m < e ==> IsDigit(s[m]))
    && CloseAt(s, k, closers)
  }

  /**
   * The group bounds the backtracking matcher settles on at start `i`: the lazy
   * `.*?` stops at the first digit after the tag, the greedy `\d+` takes the
   * whole run, and the second `.*?` looks for a closing tag from there on.  If
   * that fails, no later digit can do better, since its run ends no earlier.
   */
  function BidAt(s: string, i: nat, closers: seq<string>): (r: Option<(nat, nat)>)
    ensures r.Some? ==> i + 5 <= r.value.0 < r.value.1 <= |s|
    ensures r.Some? ==> forall m :: r.value.0 <= m < r.value.1 ==> IsDigit(s[m])
  {
    if TagAt(s, i, "<bid>") then
      match FirstDigit(s, i + 5)
      case None => None
      case Some(p) => if CloseFrom(s, DigitEnd(s, p), closers) then Some((p, DigitEnd(s, p))) else None
    else None
  }

  lemma BidAtSound(s: string, i: nat, closers: seq<string>)
    requires TagsStartWithLt(closers)
    requires BidAt(s, i, closers).Some?
    ensures var (p, e) := BidAt(s, i, closers).value;
      (exists k :: ValidBidMatch(s, i, p, e, k, closers))
      && (e == |s| || !IsDigit(s[e]))
      && (forall j: nat, e': nat, k: nat :: ValidBidMatch(s, i, j, e', k, closers) ==> p <= j)
  {
    var (p, e) := BidAt(s, i, closers).value;
    CloseFromIff(s, e, closers);
    var k :| e <= k < |s| && CloseAt(s, k, closers);
    assert ValidBidMatch(s, i, p, e, k, closers);
    forall j: nat, e': nat, k': nat | ValidBidMatch(s, i, j, e', k', closers) ensures p <= j {
      assert IsDigit(s[j]);
    }
  }

  lemma BidAtComplete(s: string, i: nat, j: nat, e: nat, k: nat, closers: seq<string>)
    requires TagsStartWithLt(closers)
    requires ValidBidMatch(s, i, j, e, k, closers)
    ensures BidAt(s, i, closers).Some?
  {
    CloseAtLt(s, k, closers);
    assert IsDigit(s[j]);
    var p := FirstDigit(s, i + 5).value;
    assert p <= j;
    var d := DigitEnd(s, p);
    assert d <= k;
    CloseFromIff(s, d, closers);
  }

  /** `parse_bid` with the given closing alternatives. */
  function ParseBidWith(text: string, closers: seq<string>): (r: Result<real>)
  {
    match Search(|text|, 0, (i: nat) => BidAt(text, i, closers))
    case None => Err(BadFormat)
    case Some((_, (p, e))) => Ok(DigitsValue(text[p..e]) as real)
  }

  /** `SealBid.parse_bid` as written. */
  function ParseBid(text: string): (r: Result<real>)
    ensures r.Ok? ==> r.value >= 0.0
    ensures r.Err? ==> r.error == BadFormat
  {
    ParseBidWith(text, BidClosersAsWritten)
  }

  /** `parse_bid` accepting `</BID>` as a closing tag too. */
  function ParseBidCorrected(text: string): (r: Result<real>)
    ensures r.Ok? ==> r.value >= 0.0
    ensures r.Err? ==> r.error == BadFormat
  {
    ParseBidWith(text, BidClosersCorrected)
  }

  /**
   * The parser fails exactly when the text holds no match of the pattern;
   * otherwise it returns the digit run of the leftmost match: the match starts
   * at the first opening tag that has one, the run is the first one after that
   * tag, and it is taken whole.
   */
  lemma ParseBidSpec(text: string, closers: seq<string>)
    requires TagsStartWithLt(closers)
    ensures ParseBidWith(text, closers).Err? <==>
      forall i: nat, j: nat, e: nat, k: nat :: !ValidBidMatch(text, i, j, e, k, closers)
    ensures ParseBidWith(text, closers).Ok? ==>
      exists i: nat, p: nat, e: nat, k: nat :: ValidBidMatch(text, i, p, e, k, closers)
        && ParseBidWith(text, closers).value == DigitsValue(text[p..e]) as real
        && (e == |text| || !IsDigit(text[e]))
        && (forall i': nat, j': nat, e': nat, k': nat :: ValidBidMatch(text, i', j', e', k', closers) ==> i <= i')
        && (forall j': nat, e': nat, k': nat :: ValidBidMatch(text, i, j', e', k', closers) ==> p <= j')
  {
    var m := (i: nat) => BidAt(text, i, closers);
    var found := Search(|text|, 0, m);
    if exists i: nat, j: nat, e: nat, k: nat :: ValidBidMatch(text, i, j, e, k, closers) {
      var i: nat, j: nat, e: nat, k: nat :| ValidBidMatch(text, i, j, e, k, closers);
      BidAtComplete(text, i, j, e, k, closers);
      assert m(i).Some?;
    }
    if found.Some? {
      var i := found.value.0;
      var (p, e) := found.value.1;
      BidAtSound(text, i, closers);
      var k :| ValidBidMatch(text, i, p, e, k, closers);
      forall i': nat, j': nat, e': nat, k': nat | ValidBidMatch(text, i', j', e', k', closers) ensures i <= i' {
        BidAtComplete(text, i', j', e', k', closers);
        assert m(i').Some?;
      }
    }
  }

  lemma DigitsValueChars(s: string, a: nat, d: string)
    requires a + |d| <= |s| && s[a..a + |d|] == d
    ensures forall k :: 0 <= k < |d| ==> s[a + k] == d[k]
  {
    forall k | 0 <= k < |d| ensures s[a + k] == d[k] {
      assert s[a..a + |d|][k] == s[a + k];
    }
  }

  /** A bid written between an opening and a closing tag is read back as written. */
  lemma BidRoundTrip(n: nat, open: string, close: string, closers: seq<string>)
    requires TagAt(open, 0, "<bid>") && |open| == 5
    requires TagsStartWithLt(closers)
    requires exists c :: c in closers && TagAt(close, 0, c)
    ensures ParseBidWith(open + NatToString(n) + close, closers) == Ok(n as real)
  {
    var d := NatToString(n);
    var s := open + d + close;
    var e: nat := 5 + |d|;
    assert s[..5] == open;
    assert s[5..e] == d;
    assert s[e..] == close;
    assert TagAt(s, 0, "<bid>") by {
      forall k | 0 <= k < 5 ensures Lower(s[k]) == "<bid>"[k] {
        assert s[k] == open[k];
      }
    }
    assert IsDigit(s[5]) by { assert s[5] == d[0]; }
    assert FirstDigit(s, 5) == Some(5);
    var c :| c in closers && TagAt(close, 0, c);
    assert TagAt(s, e, c) by {
      forall k | 0 <= k < |c| ensures Lower(s[e + k]) == c[k] {
        assert s[e + k] == close[k];
      }
    }
    assert s[e] == '<' by { CloseAtLt(s, e, closers); }
    forall k | 5 <= k < e ensures IsDigit(s[k]) {
      assert s[k] == d[k - 5];
    }
    assert DigitEnd(s, 5) == e;
    CloseFromIff(s, e, closers);
    assert BidAt(s, 0, closers) == Some((5, e));
    NatToStringValue(n);
  }

  /** `<BID>n<\BID>`, the format the source comments give first, parses. */
  lemma ParseBidBackslashRoundTrip(n: nat)
    ensures ParseBid("<BID>" + NatToString(n) + "<\\BID>") == Ok(n as real)
  {
    assert TagAt("<\\BID>", 0, "<\\bid>");
    BidRoundTrip(n, "<BID>", "<\\BID>", BidClosersAsWritten);
  }

  /** A closing tag of `<\\?BID>` is `<` followed by `b` or a backslash. */
  lemma CloseAtAsWritten(s: string, k: nat)
    requires CloseAt(s, k, BidClosersAsWritten)
    ensures k + 1 < |s| && s[k] == '<' && (Lower(s[k + 1]) == 'b' || s[k + 1] == '\\')
  {
    var c :| c in BidClosersAsWritten && TagAt(s, k, c);
    assert Lower(s[k + 0]) == c[0] && Lower(s[k + 1]) == c[1];
  }

  /** `<BID>20</BID>`, the format the source comments give second, is rejected. */
  lemma ParseBidRejectsSlashClose()
    ensures ParseBid("<BID>20</BID>") == Err(BadFormat)
  {
    var s := "<BID>20</BID>";
    ParseBidSpec(s, BidClosersAsWritten);
    forall i: nat, j: nat, e: nat, k: nat | ValidBidMatch(s, i, j, e, k, BidClosersAsWritten)
      ensures false
    {
      NoBidCloseAfterDigits(k);
    }
  }

  lemma NoBidCloseAfterDigits(k: nat)
    requires 5 <= k
    ensures !CloseAt("<BID>20</BID>", k, BidClosersAsWritten)
  {
    var s := "<BID>20</BID>";
    if CloseAt(s, k, BidClosersAsWritten) {
      CloseAtAsWritten(s, k);
      if k == 7 {
        assert false;
      } else {
        assert false;
      }
    }
  }

  /** With `</BID>` accepted, `<BID>n</BID>` parses. */
  lemma ParseBidCorrectedSlashRoundTrip(n: nat)
    ensures ParseBidCorrected("<BID>" + NatToString(n) + "</BID>") == Ok(n as real)
  {
    assert TagAt("</BID>", 0, "</bid>");
    BidRoundTrip(n, "<BID>", "</BID>", BidClosersCorrected);
  }

  // ---------------------------------------------------------------------------
  // <open>\s*(w0|w1)\s*(?:closer|closer|closer) on lower-cased text
  // ---------------------------------------------------------------------------

  /** The closing alternatives `</action>`, `<\action>` and `<action>`. */
  const ActionClosers: seq<string> := ["</action>", "<\\action>", "<action>"]

  /** No alternative is empty and none starts with white space. */
  predicate WordsStartSolid(words: seq<string>)
  {
    forall w :: w in words ==> |w| > 0 && !IsSpace(w[0])
  }

  /**
   * A match of `<open>\s*(word)\s*(closers)` starting at `i`, with the word at
   * `w` and the closing tag at `c`.
   */
  ghost predicate ValidWordMatch(s: string, i: nat, open: string, word: string, w: nat, c: nat,
                                 closers: seq<string>)
  {
    TagAt(s, i, open) && i + |open| <= w && w + |word| <= c <= |s|
    && (forall m :: i + |open| <= m < w ==> IsSpace(s[m]))
    && TagAt(s, w, word)
    && (forall m :: w + |word| <= m < c ==> IsSpace(s[m]))
    && CloseAt(s, c, closers)
  }

  /** The first alternative, from index `k` on, that occurs at `w` and is followed by a closer. */
  function FirstWord(s: string, w: nat, words: seq<string>, closers: seq<string>, k: nat): (r: Option<nat>)
    requires w <= |s|
    ensures r.Some? ==> k <= r.value < |words|
    decreases |words| - k
  {
    if k >= |words| then None
    else if TagAt(s, w, words[k]) && CloseAt(s, SpaceEnd(s, w + |words[k]|), closers) then Some(k)
    else FirstWord(s, w, words, closers, k + 1)
  }

  /**
   * The match at `i`, as the index of the alternative it takes.  Neither `\s*`
   * needs to give anything back, since what follows each of them (a word, a
   * closing tag) does not start with white space.
   */
  function WordTagAt(s: string, i: nat, open: string, words: seq<string>, closers: seq<string>): (r: Option<nat>)
    ensures r.Some? ==> r.value < |words|
  {
    if TagAt(s, i, open) then FirstWord(s, SpaceEnd(s, i + |open|), words, closers, 0) else None
  }

  lemma {:induction false} FirstWordSound(s: string, w: nat, words: seq<string>, closers: seq<string>, k: nat)
    requires w <= |s|
    requires FirstWord(s, w, words, closers, k).Some?
    ensures var x := FirstWord(s, w, words, closers, k).value;
      TagAt(s, w, words[x]) && CloseAt(s, SpaceEnd(s, w + |words[x]|), closers)
    decreases |words| - k
  {
    if !(TagAt(s, w, words[k]) && CloseAt(s, SpaceEnd(s, w + |words[k]|), closers)) {
      FirstWordSound(s, w, words, closers, k + 1);
    }
  }

  lemma {:induction false} FirstWordComplete(s: string, w: nat, words: seq<string>, closers: seq<string>, k: nat, x: nat)
    requires w <= |s| && k <= x < |words|
    requires TagAt(s, w, words[x]) && CloseAt(s, SpaceEnd(s, w + |words[x]|), closers)
    ensures FirstWord(s, w, words, closers, k).Some?
    ensures FirstWord(s, w, words, closers, k).value <= x
    decreases x - k
  {
    if k < x && !(TagAt(s, w, words[k]) && CloseAt(s, SpaceEnd(s, w + |words[k]|), closers)) {
      FirstWordComplete(s, w, words, closers, k + 1, x);
    }
  }

  lemma WordTagAtSound(s: string, i: nat, open: string, words: seq<string>, closers: seq<string>)
    requires WordTagAt(s, i, open, words, closers).Some?
    ensures var x := WordTagAt(s, i, open, words, closers).value;
      exists w: nat, c: nat :: ValidWordMatch(s, i, open, words[x], w, c, closers)
  {
    assert TagAt(s, i, open);
    var w := SpaceEnd(s, i + |open|);
    FirstWordSound(s, w, words, closers, 0);
    var x := FirstWord(s, w, words, closers, 0).value;
    var c := SpaceEnd(s, w + |words[x]|);
    WordMatchIntro(s, i, open, words[x], w, c, closers);
  }

  lemma WordMatchIntro(s: string, i: nat, open: string, word: string, w: nat, c: nat, closers: seq<string>)
    requires TagAt(s, i, open) && i + |open| <= |s| && w == SpaceEnd(s, i + |open|)
    requires TagAt(s, w, word) && w + |word| <= |s| && c == SpaceEnd(s, w + |word|)
    requires CloseAt(s, c, closers)
    ensures ValidWordMatch(s, i, open, word, w, c, closers)
  {
  }

  /** Any match at `i` is found there, taking the same or an earlier alternative. */
  lemma WordTagAtComplete(s: string, i: nat, open: string, words: seq<string>, closers: seq<string>,
                          x: nat, w: nat, c: nat)
    requires WordsStartSolid(words) && TagsStartWithLt(closers) && x < |words|
    requires ValidWordMatch(s, i, open, words[x], w, c, closers)
    ensures WordTagAt(s, i, open, words, closers).Some?
    ensures WordTagAt(s, i, open, words, closers).value <= x
  {
    assert Lower(s[w + 0]) == words[x][0];
    assert !IsSpace(s[w]);
    assert SpaceEnd(s, i + |open|) == w;
    CloseAtLt(s, c, closers);
    assert SpaceEnd(s, w + |words[x]|) == c;
    FirstWordComplete(s, w, words, closers, 0, x);
  }

  lemma ActionClosersStartWithLt()
    ensures TagsStartWithLt(ActionClosers)
  {
  }

  /** Some alternative of `words` matches the action pattern at `i`. */
  ghost predicate WordMatchAt(s: string, i: nat, words: seq<string>)
  {
    exists x: nat, w: nat, c: nat :: x < |words| && ValidWordMatch(s, i, "<action>", words[x], w, c, ActionClosers)
  }

  /** `re.search` for the action pattern: the start of the leftmost match and its alternative. */
  function FindAction(s: string, words: seq<string>): (r: Option<(nat, nat)>)
    ensures r.Some? ==> r.value.1 < |words|
  {
    Search(|s|, 0, (i: nat) => WordTagAt(s, i, "<action>", words, ActionClosers))
  }

  /**
   * Leftmost-match characterisation shared by both action parsers: no match
   * anywhere means no result; a result comes from the leftmost match.
   */
  lemma FindActionSpec(s: string, words: seq<string>)
    requires WordsStartSolid(words)
    ensures FindAction(s, words).None? <==> forall i: nat :: !WordMatchAt(s, i, words)
    ensures FindAction(s, words).Some? ==>
      var (i, x) := FindAction(s, words).value;
      (exists w: nat, c: nat :: ValidWordMatch(s, i, "<action>", words[x], w, c, ActionClosers))
      && forall i': nat :: WordMatchAt(s, i', words) ==> i <= i'
  {
    forall i: nat | WordMatchAt(s, i, words) ensures FindAction(s, words).Some? && FindAction(s, words).value.0 <= i {
      FindActionFinds(s, words, i);
    }
    if FindAction(s, words).Some? {
      var (i, x) := FindAction(s, words).value;
      WordTagAtSound(s, i, "<action>", words, ActionClosers);
      assert WordTagAt(s, i, "<action>", words, ActionClosers) == Some(x);
      var w: nat, c: nat :| ValidWordMatch(s, i, "<action>", words[x], w, c, ActionClosers);
      assert WordMatchAt(s, i, words);
    }
  }

  lemma FindActionFinds(s: string, words: seq<string>, i: nat)
    requires WordsStartSolid(words)
    requires WordMatchAt(s, i, words)
    ensures FindAction(s, words).Some? && FindAction(s, words).value.0 <= i
  {
    ActionClosersStartWithLt();
    var x: nat, w: nat, c: nat :| x < |words| && ValidWordMatch(s, i, "<action>", words[x], w, c, ActionClosers);
    WordTagAtComplete(s, i, "<action>", words, ActionClosers, x, w, c);
    var m := (i: nat) => WordTagAt(s, i, "<action>", words, ActionClosers);
    assert m(i).Some?;
    assert i <= |s|;
  }

  /** Alternatives whose first letters differ pairwise. */
  predicate FirstLettersDiffer(words: seq<string>)
  {
    forall a, b :: 0 <= a < b < |words| ==> |words[a]| > 0 && |words[b]| > 0 && words[a][0] != words[b][0]
  }

  /** A match at the very start is the one found, and with its own alternative. */
  lemma FindActionAtStart(s: string, words: seq<string>, x: nat, w: nat, c: nat)
    requires WordsStartSolid(words) && FirstLettersDiffer(words) && x < |words|
    requires ValidWordMatch(s, 0, "<action>", words[x], w, c, ActionClosers)
    ensures FindAction(s, words) == Some((0, x))
  {
    ActionClosersStartWithLt();
    WordTagAtComplete(s, 0, "<action>", words, ActionClosers, x, w, c);
    var v := SpaceEnd(s, 8);
    assert v == w by {
      assert Lower(s[w + 0]) == words[x][0];
    }
    FirstWordSound(s, v, words, closers := ActionClosers, k := 0);
    var y := WordTagAt(s, 0, "<action>", words, ActionClosers).value;
    SameLeadingWord(s, w, words, x, y);
  }

  /** Two alternatives that both occur at one place are the same alternative. */
  lemma SameLeadingWord(s: string, w: nat, words: seq<string>, x: nat, y: nat)
    requires WordsStartSolid(words) && FirstLettersDiffer(words) && x < |words| && y < |words|
    requires TagAt(s, w, words[x]) && TagAt(s, w, words[y])
    ensures x == y
  {
    assert words[x] in words && words[y] in words;
    assert Lower(s[w + 0]) == words[x][0];
    assert Lower(s[w + 0]) == words[y][0];
  }

  /** Writes `t` in the characters of `u` at offset `a`, ignoring case. */
  lemma TagAtShift(u: string, a: nat, part: string, t: string)
    requires a + |part| <= |u| && u[a..a + |part|] == part
    requires TagAt(part, 0, t)
    ensures TagAt(u, a, t)
  {
    forall k | 0 <= k < |t| ensures Lower(u[a + k]) == t[k] {
      assert u[a + k] == u[a..a + |part|][k];
    }
  }

  /** The amount tags, being lower case already, match themselves. */
  lemma AmountTagsMatchThemselves()
    ensures TagAt("<amount>", 0, "<amount>") && TagAt("</amount>", 0, "</amount>")
  {
    var o := "<amount>";
    var c := "</amount>";
    forall k | 0 <= k < 8 ensures Lower(o[0 + k]) == o[k] {
      assert !('A' <= o[k] <= 'Z');
    }
    forall k | 0 <= k < 9 ensures Lower(c[0 + k]) == c[k] {
      assert !('A' <= c[k] <= 'Z');
    }
  }

  lemma SliceOfConcat<T>(a: seq<T>, b: seq<T>, i: nat, j: nat)
    requires i <= j <= |b|
    ensures (a + b)[|a| + i..|a| + j] == b[i..j]
  {
  }

  lemma TagAtLower(u: string, a: nat, t: string)
    requires TagAt(u, a, t)
    ensures TagAt(LowerString(u), a, t)
  {
    forall k | 0 <= k < |t| ensures Lower(LowerString(u)[a + k]) == t[k] {
      assert Lower(Lower(u[a + k])) == Lower(u[a + k]);
    }
  }

  // ---------------------------------------------------------------------------
  // parse_action (clock): <action>\s*(yes|no)\s*(...)
  // ---------------------------------------------------------------------------

  /** A bidder's answer in a clock tick: stay in ("yes") or drop out ("no"). */
  datatype Decision = Yes | No

  const DecisionWords: seq<string> := ["yes", "no"]

  function DecisionWord(d: Decision): (w: string)
    ensures w in DecisionWords
  {
    if d == Yes then "yes" else "no"
  }

  /** `Clock.parse_action`: ValueError unless the lower-cased reply holds an action tag. */
  function ParseAction(text: string): (r: Result<Decision>)
    ensures r.Err? ==> r.error == BadFormat
  {
    match FindAction(LowerString(text), DecisionWords)
    case None => Err(BadFormat)
    case Some((_, x)) => Ok(if x == 0 then Yes else No)
  }

  /**
   * `parse_action` fails exactly when the lower-cased reply holds no match, and
   * otherwise answers with the word of the leftmost match.
   */
  lemma ParseActionSpec(text: string)
    ensures ParseAction(text).Err? <==> forall i: nat :: !WordMatchAt(LowerString(text), i, DecisionWords)
    ensures ParseAction(text).Ok? ==>
      exists i: nat, w: nat, c: nat ::
        ValidWordMatch(LowerString(text), i, "<action>", DecisionWord(ParseAction(text).value), w, c, ActionClosers)
        && forall i': nat :: WordMatchAt(LowerString(text), i', DecisionWords) ==> i <= i'
  {
    var s := LowerString(text);
    FindActionSpec(s, DecisionWords);
    if FindAction(s, DecisionWords).Some? {
      var (i, x) := FindAction(s, DecisionWords).value;
      assert DecisionWord(ParseAction(text).value) == DecisionWords[x];
      var w: nat, c: nat :| ValidWordMatch(s, i, "<action>", DecisionWords[x], w, c, ActionClosers);
    }
  }

  /**
   * A reply that opens with an action tag around alternative `x`, the tags and
   * the word written in any letter case, has that as its leftmost match.
   */
  lemma FindActionOpening(t: string, words: seq<string>, x: nat, open: string, word: string, close: string, rest: string)
    requires WordsStartSolid(words) && FirstLettersDiffer(words) && x < |words|
    requires |open| == 8 && TagAt(open, 0, "<action>")
    requires |word| == |words[x]| && TagAt(word, 0, words[x])
    requires |close| == 9 && TagAt(close, 0, "</action>")
    requires t == open + word + close + rest
    ensures FindAction(LowerString(t), words) == Some((0, x))
    ensures TagAt(LowerString(t), 0, "<action>") && TagAt(LowerString(t), 8, words[x])
    ensures TagAt(LowerString(t), 8 + |word|, "</action>")
  {
    var s := LowerString(t);
    var c := 8 + |word|;
    OpeningTags(t, words[x], open, word, close, rest);
    assert CloseAt(s, c, ActionClosers) by {
      assert "</action>" in ActionClosers;
    }
    assert ValidWordMatch(s, 0, "<action>", words[x], 8, c, ActionClosers);
    FindActionAtStart(s, words, x, 8, c);
  }

  /** The three tags of such an opening, lower-cased, sit at 0, 8 and just after the word. */
  lemma OpeningTags(t: string, expected: string, open: string, word: string, close: string, rest: string)
    requires |open| == 8 && TagAt(open, 0, "<action>")
    requires |word| == |expected| && TagAt(word, 0, expected)
    requires |close| == 9 && TagAt(close, 0, "</action>")
    requires t == open + word + close + rest
    ensures TagAt(LowerString(t), 0, "<action>") && TagAt(LowerString(t), 8, expected)
    ensures TagAt(LowerString(t), 8 + |word|, "</action>")
  {
    var c := 8 + |word|;
    assert t[0..8] == open;
    assert t[8..c] == word;
    assert t[c..c + 9] == close;
    TagAtShift(t, 0, open, "<action>");
    TagAtLower(t, 0, "<action>");
    TagAtShift(t, 8, word, expected);
    TagAtLower(t, 8, expected);
    TagAtShift(t, c, close, "</action>");
    TagAtLower(t, c, "</action>");
  }

  lemma DecisionWordsShape()
    ensures WordsStartSolid(DecisionWords) && FirstLettersDiffer(DecisionWords)
  {
  }

  /** An action tag around "yes" or "no", in any letter case, is read back. */
  lemma ParseActionRoundTrip(d: Decision, open: string, word: string, close: string)
    requires |open| == 8 && TagAt(open, 0, "<action>")
    requires |word| == |DecisionWord(d)| && TagAt(word, 0, DecisionWord(d))
    requires |close| == 9 && TagAt(close, 0, "</action>")
    ensures ParseAction(open + word + close) == Ok(d)
  {
    var x: nat := if d == Yes then 0 else 1;
    DecisionWordsShape();
    FindActionOpening(open + word + close, DecisionWords, x, open, word, close, "");
  }

  // ---------------------------------------------------------------------------
  // parse_action_and_amount (eBay):
  //   <action>\s*(bid|hold)\s*(...)   and   <amount>\s*(\d+(?:\.\d+)?)\s*(...)
  // ---------------------------------------------------------------------------

  /** What an eBay bidder does in a turn: raise its maximum bid, or hold. */
  datatype Move = Bid | Hold

  /** The pair `(action, amount)` that `parse_action_and_amount` returns. */
  datatype Offer = Offer(action: Move, amount: real)

  const MoveWords: seq<string> := ["bid", "hold"]

  /** The closing alternatives `</amount>`, `<\amount>` and `<amount>`. */
  const AmountClosers: seq<string> := ["</amount>", "<\\amount>", "<amount>"]

  lemma AmountClosersStartWithLt()
    ensures TagsStartWithLt(AmountClosers)
  {
  }

  /** The optional fraction's digits: `s[e + 1..f]` after the point, none when `f == e`. */
  function FractionDigits(s: string, e: nat, f: nat): (d: string)
    requires e <= f <= |s|
    requires f == e || e + 1 <= f
  {
    if f == e then [] else s[e + 1..f]
  }

  /**
   * A match of the amount pattern starting at `i`: the integer part is
   * `s[w..e]`, an optional fraction follows the point at `e` up to `f`, and the
   * closing tag sits at `c`.
   */
  ghost predicate ValidAmountMatch(s: string, i: nat, w: nat, e: nat, f: nat, c: nat)
  {
    TagAt(s, i, "<amount>") && i + 8 <= w < e <= f <= c <= |s|
    && (forall m :: i + 8 <= m < w ==> IsSpace(s[m]))
    && (forall m :: w <= m < e ==> IsDigit(s[m]))
    && (f == e || (e + 1 < f && s[e] == '.' && forall m :: e + 1 <= m < f ==> IsDigit(s[m])))
    && (forall m :: f <= m < c ==> IsSpace(s[m]))
    && CloseAt(s, c, AmountClosers)
  }

  /**
   * The match at `i`.  The greedy `\d+` takes the whole integer run and the
   * greedy `(?:\.\d+)?` takes the whole fraction when a point and a digit
   * follow; giving either back cannot help, because what would come next (a
   * digit or the point) is neither white space nor the `<` of a closing tag.
   */
  function AmountAt(s: string, i: nat): (r: Option<(nat, nat, nat)>)
    ensures r.Some? ==> var (w, e, f) := r.value;
      w < e <= f <= |s| && (f == e || e + 1 < f)
      && (forall m :: w <= m < e ==> IsDigit(s[m]))
      && (forall m :: e + 1 <= m < f ==> IsDigit(s[m]))
  {
    if !TagAt(s, i, "<amount>") then None
    else
      var w := SpaceEnd(s, i + 8);
      if w == |s| || !IsDigit(s[w]) then None
      else
        var e := DigitEnd(s, w);
        if e + 1 < |s| && s[e] == '.' && IsDigit(s[e + 1]) then
          var f := DigitEnd(s, e + 1);
          if CloseAt(s, SpaceEnd(s, f), AmountClosers) then Some((w, e, f)) else None
        else if CloseAt(s, SpaceEnd(s, e), AmountClosers) then Some((w, e, e)) else None
  }

  /** Whatever match exists at `i` is the one found there, with its value. */
  lemma AmountAtExact(s: string, i: nat, w: nat, e: nat, f: nat, c: nat)
    requires ValidAmountMatch(s, i, w, e, f, c)
    ensures AmountAt(s, i) == Some((w, e, f))
  {
    AmountClosersStartWithLt();
    CloseAtLt(s, c, AmountClosers);
    SpaceRunIs(s, i + 8, w);
    if f == e {
      WholeAmountAt(s, i, w, e, c);
    } else {
      FractionAmountAt(s, i, w, e, f, c);
    }
  }

  /** A match without a fraction: the integer run ends at a space or at the closing tag. */
  lemma WholeAmountAt(s: string, i: nat, w: nat, e: nat, c: nat)
    requires ValidAmountMatch(s, i, w, e, e, c)
    requires SpaceEnd(s, i + 8) == w && c < |s| && s[c] == '<'
    ensures AmountAt(s, i) == Some((w, e, e))
  {
    assert e < |s| && (IsSpace(s[e]) || s[e] == '<') by {
      if c != e {
        assert IsSpace(s[e]);
      }
    }
    DigitRunIs(s, w, e);
    SpaceRunIs(s, e, c);
  }

  /** A match with a fraction: the fraction's run ends at a space or at the closing tag. */
  lemma FractionAmountAt(s: string, i: nat, w: nat, e: nat, f: nat, c: nat)
    requires ValidAmountMatch(s, i, w, e, f, c) && f != e
    requires SpaceEnd(s, i + 8) == w && c < |s| && s[c] == '<'
    ensures AmountAt(s, i) == Some((w, e, f))
  {
    assert f < |s| && (IsSpace(s[f]) || s[f] == '<') by {
      if c != f {
        assert IsSpace(s[f]);
      }
    }
    DigitRunIs(s, w, e);
    assert IsDigit(s[e + 1]);
    DigitRunIs(s, e + 1, f);
    SpaceRunIs(s, f, c);
  }

  /** A run of digits ended by a non-digit is the run `DigitEnd` finds. */
  lemma DigitRunIs(s: string, j: nat, e: nat)
    requires j <= e <= |s|
    requires forall m :: j <= m < e ==> IsDigit(s[m])
    requires e == |s| || !IsDigit(s[e])
    ensures DigitEnd(s, j) == e
  {
  }

  /** A run of spaces ended by a non-space is the run `SpaceEnd` finds. */
  lemma SpaceRunIs(s: string, j: nat, e: nat)
    requires j <= e <= |s|
    requires forall m :: j <= m < e ==> IsSpace(s[m])
    requires e == |s| || !IsSpace(s[e])
    ensures SpaceEnd(s, j) == e
  {
  }

  lemma AmountAtSound(s: string, i: nat)
    requires AmountAt(s, i).Some?
    ensures exists w: nat, e: nat, f: nat, c: nat :: ValidAmountMatch(s, i, w, e, f, c)
  {
    var w := SpaceEnd(s, i + 8);
    var e := DigitEnd(s, w);
    if e + 1 < |s| && s[e] == '.' && IsDigit(s[e + 1]) {
      var f := DigitEnd(s, e + 1);
      assert ValidAmountMatch(s, i, w, e, f, SpaceEnd(s, f));
    } else {
      assert ValidAmountMatch(s, i, w, e, e, SpaceEnd(s, e));
    }
  }

  /** The value `float` gives the group `s[w..f]`. */
  function AmountValue(s: string, w: nat, e: nat, f: nat): (r: real)
    requires w <= e <= f <= |s| && (f == e || e + 1 <= f)
    requires forall m :: w <= m < e ==> IsDigit(s[m])
    requires forall m :: e + 1 <= m < f ==> IsDigit(s[m])
    ensures r >= 0.0
  {
    Decimal(s[w..e], FractionDigits(s, e, f))
  }

  /** `re.search` for the amount pattern: start of the leftmost match and its group. */
  function FindAmount(s: string): (r: Option<(nat, (nat, nat, nat))>)
  {
    Search(|s|, 0, (i: nat) => AmountAt(s, i))
  }

  lemma FindAmountSpec(s: string)
    ensures FindAmount(s).None? <==>
      forall i: nat, w: nat, e: nat, f: nat, c: nat :: !ValidAmountMatch(s, i, w, e, f, c)
    ensures FindAmount(s).Some? ==>
      var (i, (w, e, f)) := FindAmount(s).value;
      (exists c: nat :: ValidAmountMatch(s, i, w, e, f, c))
      && forall i': nat, w': nat, e': nat, f': nat, c': nat ::
           ValidAmountMatch(s, i', w', e', f', c') ==> i <= i'
  {
    var m := (i: nat) => AmountAt(s, i);
    forall i: nat, w: nat, e: nat, f: nat, c: nat | ValidAmountMatch(s, i, w, e, f, c)
      ensures FindAmount(s).Some? && FindAmount(s).value.0 <= i
    {
      AmountAtExact(s, i, w, e, f, c);
      assert m(i).Some?;
    }
    if FindAmount(s).Some? {
      var (i, (w, e, f)) := FindAmount(s).value;
      AmountAtSound(s, i);
      var w': nat, e': nat, f': nat, c: nat :| ValidAmountMatch(s, i, w', e', f', c);
      AmountAtExact(s, i, w', e', f', c);
    }
  }

  /** `Ebay.parse_action_and_amount`. */
  function ParseActionAndAmount(text: string): (r: Result<Offer>)
    ensures r.Ok? ==> r.value.amount >= 0.0
    ensures r.Ok? && r.value.action == Hold ==> r.value.amount == 0.0
    ensures r.Err? ==> r.error == BadFormat
  {
    var s := LowerString(text);
    match FindAction(s, MoveWords)
    case None => Err(BadFormat)
    case Some((_, x)) =>
      if x == 1 then Ok(Offer(Hold, 0.0))
      else
        match FindAmount(s)
        case None => Err(BadFormat)
        case Some((_, (w, e, f))) => Ok(Offer(Bid, AmountValue(s, w, e, f)))
  }

  /**
   * The eBay parser fails exactly when the lower-cased reply has no action
   * match, or its leftmost action match says "bid" and no amount matches
   * anywhere; a bid carries the value of the leftmost amount match.
   */
  lemma ParseActionAndAmountSpec(text: string)
    ensures var s := LowerString(text);
      ParseActionAndAmount(text).Err? <==>
        (forall i: nat :: !WordMatchAt(s, i, MoveWords))
        || (FindAction(s, MoveWords).Some? && FindAction(s, MoveWords).value.1 == 0
            && forall i: nat, w: nat, e: nat, f: nat, c: nat :: !ValidAmountMatch(s, i, w, e, f, c))
    ensures var s := LowerString(text);
      ParseActionAndAmount(text).Ok? && ParseActionAndAmount(text).value.action == Bid ==>
        FindAction(s, MoveWords).value.1 == 0
        && exists i: nat, w: nat, e: nat, f: nat, c: nat ::
             ValidAmountMatch(s, i, w, e, f, c)
             && ParseActionAndAmount(text).value.amount == AmountValue(s, w, e, f)
             && forall i': nat, w': nat, e': nat, f': nat, c': nat ::
                  ValidAmountMatch(s, i', w', e', f', c') ==> i <= i'
  {
    var s := LowerString(text);
    FindActionSpec(s, MoveWords);
    FindAmountSpec(s);
  }

  lemma MoveWordsShape()
    ensures WordsStartSolid(MoveWords) && FirstLettersDiffer(MoveWords)
  {
  }

  /** What the lower-cased opening `<action>bid</action>` fixes about its characters. */
  lemma BidOpeningChars(s: string)
    requires TagAt(s, 0, "<action>") && TagAt(s, 8, MoveWords[0]) && TagAt(s, 11, "</action>")
    ensures forall k :: 0 <= k < 20 && k != 0 && k != 11 ==> Lower(s[k]) != '<'
    ensures Lower(s[2]) == 'c' && Lower(s[12]) == '/'
  {
    forall k | 0 <= k < 20 && k != 0 && k != 11 ensures Lower(s[k]) != '<' {
      if k < 8 {
        assert Lower(s[0 + k]) == "<action>"[k];
      } else if k < 11 {
        assert Lower(s[8 + (k - 8)]) == MoveWords[0][k - 8];
      } else {
        assert Lower(s[11 + (k - 11)]) == "</action>"[k - 11];
      }
    }
    assert Lower(s[0 + 2]) == "<action>"[2];
    assert Lower(s[11 + 1]) == "</action>"[1];
  }

  lemma AmountTagChars(s: string, i: nat)
    requires TagAt(s, i, "<amount>")
    ensures Lower(s[i]) == '<' && Lower(s[i + 1]) == 'a' && Lower(s[i + 2]) == 'm'
  {
    assert Lower(s[i + 0]) == "<amount>"[0];
    assert Lower(s[i + 1]) == "<amount>"[1];
    assert Lower(s[i + 2]) == "<amount>"[2];
  }

  /** No amount tag starts inside the opening `<action>bid</action>`. */
  lemma NoAmountTagInBidOpening(s: string, i: nat)
    requires TagAt(s, 0, "<action>") && TagAt(s, 8, MoveWords[0]) && TagAt(s, 11, "</action>")
    requires i < 20
    ensures !TagAt(s, i, "<amount>")
  {
    if TagAt(s, i, "<amount>") {
      AmountTagChars(s, i);
      BidOpeningChars(s);
      if i == 0 {
        assert false;
      } else {
        assert false;
      }
    }
  }

  /** After the opening `<action>bid</action>`, the amount tag at 20 is the leftmost match. */
  lemma BidAmountFound(s: string, d: string)
    requires TagAt(s, 0, "<action>") && TagAt(s, 8, MoveWords[0]) && TagAt(s, 11, "</action>")
    requires TagAt(s, 20, "<amount>") && 28 + |d| <= |s| && s[28..28 + |d|] == d && |d| > 0 && AllDigits(d)
    requires TagAt(s, 28 + |d|, "</amount>")
    ensures FindAmount(s).Some? && FindAmount(s).value == (20, (28, 28 + |d|, 28 + |d|))
    ensures forall m :: 28 <= m < 28 + |d| ==> IsDigit(s[m])
  {
    var e: nat := 28 + |d|;
    forall m | 28 <= m < e ensures IsDigit(s[m]) {
      assert s[m] == s[28..e][m - 28];
    }
    assert CloseAt(s, e, AmountClosers) by {
      assert "</amount>" in AmountClosers;
    }
    assert ValidAmountMatch(s, 20, 28, e, e, e);
    FindAmountSpec(s);
    var i := FindAmount(s).value.0;
    assert i <= 20;
    AmountAtSound(s, i);
    assert i == 20 by {
      if i < 20 {
        NoAmountTagInBidOpening(s, i);
      }
    }
    AmountAtExact(s, 20, 28, e, e, e);
  }

  /** What lower-casing a bid reply leaves of its amount tags and digits. */
  lemma BidReplyAmountPart(head: string, d: string)
    requires |head| == 20 && |d| > 0 && AllDigits(d)
    ensures var s := LowerString(head + ("<amount>" + d + "</amount>"));
      TagAt(s, 20, "<amount>") && 28 + |d| <= |s| && s[28..28 + |d|] == d
      && TagAt(s, 28 + |d|, "</amount>")
  {
    var rest := "<amount>" + d + "</amount>";
    var t := head + rest;
    var s := LowerString(t);
    var e: nat := 28 + |d|;
    assert rest[0..8] == "<amount>" && rest[8..8 + |d|] == d && rest[8 + |d|..8 + |d| + 9] == "</amount>";
    SliceOfConcat(head, rest, 0, 8);
    SliceOfConcat(head, rest, 8 + |d|, 8 + |d| + 9);
    AmountTagsMatchThemselves();
    TagAtShift(t, 20, "<amount>", "<amount>");
    TagAtLower(t, 20, "<amount>");
    TagAtShift(t, e, "</amount>", "</amount>");
    TagAtLower(t, e, "</amount>");
    assert s[28..e] == d by {
      forall k | 0 <= k < |d| ensures s[28 + k] == d[k] {
        assert t[28 + k] == rest[8 + k];
      }
    }
  }

  /** A bid of `n`, in the tags the prompts ask for, is read back. */
  lemma ParseBidOfferRoundTrip(n: nat, open: string, word: string, close: string)
    requires |open| == 8 && TagAt(open, 0, "<action>")
    requires |word| == 3 && TagAt(word, 0, "bid")
    requires |close| == 9 && TagAt(close, 0, "</action>")
    ensures ParseActionAndAmount(open + word + close + ("<amount>" + NatToString(n) + "</amount>"))
            == Ok(Offer(Bid, n as real))
  {
    var rest := "<amount>" + NatToString(n) + "</amount>";
    MoveWordsShape();
    FindActionOpening(open + word + close + rest, MoveWords, 0, open, word, close, rest);
    var e := BidReplyAmount(n, open, word, close);
    ParseBidFromMatches(open + word + close + rest, 28, e);
  }

  /** Where the amount of such a reply is found, and what it is worth. */
  lemma BidReplyAmount(n: nat, open: string, word: string, close: string) returns (e: nat)
    requires |open| == 8 && TagAt(open, 0, "<action>")
    requires |word| == 3 && TagAt(word, 0, "bid")
    requires |close| == 9 && TagAt(close, 0, "</action>")
    ensures var s := LowerString(open + word + close + ("<amount>" + NatToString(n) + "</amount>"));
      28 <= e <= |s| && FindAmount(s) == Some((20, (28, e, e)))
      && (forall m :: 28 <= m < e ==> IsDigit(s[m]))
      && AmountValue(s, 28, e, e) == n as real
  {
    var d := NatToString(n);
    var rest := "<amount>" + d + "</amount>";
    var t := open + word + close + rest;
    var s := LowerString(t);
    OpeningTags(t, MoveWords[0], open, word, close, rest);
    assert TagAt(s, 0, "<action>") && TagAt(s, 8, MoveWords[0]) && TagAt(s, 11, "</action>");
    BidReplyAmountPart(open + word + close, d);
    assert TagAt(s, 20, "<amount>") && 28 + |d| <= |s| && s[28..28 + |d|] == d && TagAt(s, 28 + |d|, "</amount>");
    BidAmountWorth(s, d, n);
    e := 28 + |d|;
  }

  /** The amount after the opening `<action>bid</action>` is found, and is worth `n`. */
  lemma BidAmountWorth(s: string, d: string, n: nat)
    requires TagAt(s, 0, "<action>") && TagAt(s, 8, MoveWords[0]) && TagAt(s, 11, "</action>")
    requires TagAt(s, 20, "<amount>") && 28 + |d| <= |s| && s[28..28 + |d|] == d && |d| > 0 && AllDigits(d)
    requires TagAt(s, 28 + |d|, "</amount>") && d == NatToString(n)
    ensures FindAmount(s).Some? && FindAmount(s).value == (20, (28, 28 + |d|, 28 + |d|))
    ensures forall m :: 28 <= m < 28 + |d| ==> IsDigit(s[m])
    ensures AmountValue(s, 28, 28 + |d|, 28 + |d|) == n as real
  {
    BidAmountFound(s, d);
    WholeAmountValue(s, d, n);
  }

  /** A leftmost "bid" action and a leftmost whole amount give a bid of that amount. */
  lemma ParseBidFromMatches(text: string, w: nat, e: nat)
    requires var s := LowerString(text);
      FindAction(s, MoveWords) == Some((0, 0)) && w <= e <= |s|
      && exists i :: FindAmount(s) == Some((i, (w, e, e)))
    requires forall m :: w <= m < e ==> IsDigit(LowerString(text)[m])
    ensures ParseActionAndAmount(text) == Ok(Offer(Bid, AmountValue(LowerString(text), w, e, e)))
  {
  }

  /** The whole-number amount `d`, the decimal writing of `n`, is worth `n`. */
  lemma WholeAmountValue(s: string, d: string, n: nat)
    requires d == NatToString(n) && 28 + |d| <= |s| && s[28..28 + |d|] == d
    requires forall m :: 28 <= m < 28 + |d| ==> IsDigit(s[m])
    ensures AmountValue(s, 28, 28 + |d|, 28 + |d|) == n as real
  {
    NatToStringValue(n);
    DecimalWhole(d);
  }

  /** A hold needs no amount at all. */
  lemma ParseHoldRoundTrip(open: string, word: string, close: string)
    requires |open| == 8 && TagAt(open, 0, "<action>")
    requires |word| == 4 && TagAt(word, 0, "hold")
    requires |close| == 9 && TagAt(close, 0, "</action>")
    ensures ParseActionAndAmount(open + word + close) == Ok(Offer(Hold, 0.0))
  {
    MoveWordsShape();
    FindActionOpening(open + word + close, MoveWords, 1, open, word, close, "");
  }
}
