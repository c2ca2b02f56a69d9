/**
 * The one regular expression of the scraper, DATE_PAT = \d{4}/\d{1,2}/\d{1,2},
 * and the leftmost-match semantics of `DATE_PAT.search(href).group()`.
 *
 * The search is written out by hand: `MatchLenAt` follows the order in which a
 * backtracking matcher tries the alternatives at one position (month of two
 * digits before month of one digit, day of two digits before day of one), and
 * `FindFrom` tries the positions from left to right.  The reference definition
 * `DateShaped` says what a match looks like, independently of that order.
 */
module DatePattern {
  import opened Wrappers

  /** `\d`, restricted to the ASCII digits. */
  predicate IsDigit(c: char) {
    '0' <= c <= '9'
  }

  /** Every character of `t` at a position in [lo, hi) is a digit. */
  predicate DigitsIn(t: string, lo: nat, hi: nat) {
    forall k :: lo <= k < hi && k < |t| ==> IsDigit(t[k])
  }

  /** `t` is four digits, '/', `ml` digits, '/', `dl` digits, and nothing else. */
  predicate ShapeWith(t: string, ml: nat, dl: nat) {
    && |t| == 6 + ml + dl
    && DigitsIn(t, 0, 4) && t[4] == '/'
    && DigitsIn(t, 5, 5 + ml) && t[5 + ml] == '/'
    && DigitsIn(t, 6 + ml, |t|)
  }

  /** `t` is a whole match of \d{4}/\d{1,2}/\d{1,2}. */
  predicate DateShaped(t: string) {
    ShapeWith(t, 1, 1) || ShapeWith(t, 1, 2) || ShapeWith(t, 2, 1) || ShapeWith(t, 2, 2)
  }

  /** A match of the pattern of length `n` starts at position `i` of `s`. */
  predicate ShapeAt(s: string, i: nat, n: nat) {
    i + n <= |s| && DateShaped(s[i..i + n])
  }

  /** Greedy \d{1,2} at position `d`: the number of digits taken, 0 when none. */
  function DayLen(s: string, d: nat): (n: nat)
    requires d <= |s|
    ensures n <= 2 && d + n <= |s|
    ensures DigitsIn(s, d, d + n)
    ensures n < 2 && d + n < |s| ==> !IsDigit(s[d + n])
  {
    if d < |s| && IsDigit(s[d]) then
      (if d + 1 < |s| && IsDigit(s[d + 1]) then 2 else 1)
    else 0
  }

  /**
   * The length of the match a backtracking matcher finds when it starts at
   * position `i`, or 0 when the pattern does not match there.  A match is
   * eight to ten characters long and lies within `s`.
   */
  function MatchLenAt(s: string, i: nat): (n: nat)
    ensures n == 0 || (8 <= n <= 10 && i + n <= |s|)
  {
    if !(i + 5 <= |s| && DigitsIn(s, i, i + 4) && s[i + 4] == '/') then 0
    // month of two digits, then '/'
    else if i + 7 < |s| && IsDigit(s[i + 5]) && IsDigit(s[i + 6]) && s[i + 7] == '/' && DayLen(s, i + 8) > 0
    then 8 + DayLen(s, i + 8)
    // backtrack: month of one digit, then '/'
    else if i + 6 < |s| && IsDigit(s[i + 5]) && s[i + 6] == '/' && DayLen(s, i + 7) > 0
    then 7 + DayLen(s, i + 7)
    else 0
  }

  /**
   * The matcher's choice at `i` is a match, and it is the longest match
   * starting at `i`; when it reports none, no match starts at `i`.
   */
  lemma MatchAtIsLongestShape(s: string, i: nat)
    ensures MatchLenAt(s, i) > 0 ==> ShapeAt(s, i, MatchLenAt(s, i))
    ensures forall n: nat :: ShapeAt(s, i, n) ==> 0 < n <= MatchLenAt(s, i)
  {
    var r := MatchLenAt(s, i);
    if r > 0 {
      MatchIsShape(s, i);
    }
    forall n: nat | ShapeAt(s, i, n) ensures 0 < n <= r {
      ShapeBound(s, i, n);
    }
  }

  lemma MatchIsShape(s: string, i: nat)
    requires MatchLenAt(s, i) > 0
    ensures ShapeAt(s, i, MatchLenAt(s, i))
  {
    var r := MatchLenAt(s, i);
    var t := s[i..i + r];
    var ml: nat := if i + 7 < |s| && IsDigit(s[i + 5]) && IsDigit(s[i + 6]) && s[i + 7] == '/' && DayLen(s, i + 8) > 0
                   then 2 else 1;
    var dl: nat := DayLen(s, i + 6 + ml);
    assert r == 6 + ml + dl;
    assert DigitsIn(t, 0, 4) by {
      forall k | 0 <= k < 4 ensures IsDigit(t[k]) {
        assert t[k] == s[i + k];
      }
    }
    assert t[4] == s[i + 4];
    assert DigitsIn(t, 5, 5 + ml) by {
      forall k | 5 <= k < 5 + ml ensures IsDigit(t[k]) {
        assert t[k] == s[i + k];
      }
    }
    assert t[5 + ml] == s[i + 5 + ml];
    assert DigitsIn(t, 6 + ml, |t|) by {
      forall k | 6 + ml <= k < |t| ensures IsDigit(t[k]) {
        assert t[k] == s[i + k];
      }
    }
    assert ShapeWith(t, ml, dl);
  }

  lemma ShapeBound(s: string, i: nat, n: nat)
    requires ShapeAt(s, i, n)
    ensures 0 < n <= MatchLenAt(s, i)
  {
    var t := s[i..i + n];
    if ShapeWith(t, 1, 1) { ShapeWithBound(s, i, 1, 1); }
    else if ShapeWith(t, 1, 2) { ShapeWithBound(s, i, 1, 2); }
    else if ShapeWith(t, 2, 1) { ShapeWithBound(s, i, 2, 1); }
    else { ShapeWithBound(s, i, 2, 2); }
  }

  lemma ShapeWithBound(s: string, i: nat, ml: nat, dl: nat)
    requires ml in {1, 2} && dl in {1, 2}
    requires i + 6 + ml + dl <= |s| && ShapeWith(s[i..i + 6 + ml + dl], ml, dl)
    ensures 6 + ml + dl <= MatchLenAt(s, i)
  {
    var t := s[i..i + 6 + ml + dl];
    assert DigitsIn(s, i, i + 4) by {
      forall k | i <= k < i + 4 ensures IsDigit(s[k]) {
        assert s[k] == t[k - i];
      }
    }
    assert s[i + 4] == t[4] == '/';
    assert IsDigit(t[5]) && s[i + 5] == t[5];
    if ml == 2 {
      assert IsDigit(t[6]) && s[i + 6] == t[6];
      assert s[i + 7] == t[7] == '/';
      assert IsDigit(t[8]) && s[i + 8] == t[8];
      assert dl == 2 ==> IsDigit(t[9]) && s[i + 9] == t[9];
      assert DayLen(s, i + 8) >= dl;
    } else {
      assert s[i + 6] == t[6] == '/';
      assert IsDigit(t[7]) && s[i + 7] == t[7];
      assert dl == 2 ==> IsDigit(t[8]) && s[i + 8] == t[8];
      assert DayLen(s, i + 7) >= dl;
    }
  }

  /**
   * Regex search from position `i`: the first position at or after `i` where
   * the matcher succeeds.
   */
  function FindFrom(s: string, i: nat): (r: Option<nat>)
    ensures r.Some? ==> i <= r.value < |s| && MatchLenAt(s, r.value) > 0
    ensures r.Some? ==> forall j :: i <= j < r.value ==> MatchLenAt(s, j) == 0
    ensures r.None? ==> forall j :: i <= j ==> MatchLenAt(s, j) == 0
    decreases |s| - i
  {
    if i >= |s| then None
    else if MatchLenAt(s, i) > 0 then Some(i)
    else FindFrom(s, i + 1)
  }

  /** `DATE_PAT.search(s)`: where the leftmost match starts. */
  function DateMatch(s: string): Option<nat>
  {
    FindFrom(s, 0)
  }

  /**
   * `DATE_PAT.search(s).group()`, or None when the search finds nothing.  A
   * result is date-shaped and is read from `s` where the search landed.
   */
  function DateText(s: string): (r: Option<string>)
    ensures r.Some? <==> DateMatch(s).Some?
    ensures r.Some? ==> DateShaped(r.value) && r.value <= s[DateMatch(s).value..]
  {
    match DateMatch(s)
    case None => None
    case Some(i) =>
      MatchIsShape(s, i);
      Some(s[i..i + MatchLenAt(s, i)])
  }

  /**
   * What the search returns: a match exists iff the result is Some; the result
   * is a match at the leftmost position where one starts, and it is the longest
   * match starting there.
   */
  lemma DateTextIsLeftmostLongest(s: string)
    ensures DateText(s).Some? <==> exists i: nat, n: nat :: ShapeAt(s, i, n)
    ensures DateMatch(s).Some? <==> DateText(s).Some?
    ensures DateText(s).Some? ==>
      var i, m := DateMatch(s).value, DateText(s).value;
      && s[i..i + |m|] == m && DateShaped(m)
      && (forall j: nat, n: nat :: j < i ==> !ShapeAt(s, j, n))
      && (forall n: nat :: ShapeAt(s, i, n) ==> n <= |m|)
  {
    match DateMatch(s)
    case None =>
      forall i: nat, n: nat | ShapeAt(s, i, n) ensures false {
        MatchAtIsLongestShape(s, i);
      }
    case Some(i) =>
      MatchAtIsLongestShape(s, i);
      forall j: nat, n: nat | j < i ensures !ShapeAt(s, j, n) {
        MatchAtIsLongestShape(s, j);
      }
  }

  /** A search that fails at every position in [0, k) and succeeds at `k` returns `k`. */
  lemma DateMatchAt(s: string, k: nat)
    requires MatchLenAt(s, k) > 0
    requires forall j :: 0 <= j < k ==> MatchLenAt(s, j) == 0
    ensures DateMatch(s) == Some(k)
  {
  }

  /** No match starts at a character that is not a digit. */
  lemma NoMatchAtNonDigit(s: string, j: nat)
    requires j < |s| && !IsDigit(s[j])
    ensures MatchLenAt(s, j) == 0
  {
  }

  /** The pattern with a two-digit month and a two-digit day matches ten characters. */
  lemma TenCharMatch(s: string, i: nat)
    requires i + 10 <= |s|
    requires IsDigit(s[i]) && IsDigit(s[i + 1]) && IsDigit(s[i + 2]) && IsDigit(s[i + 3]) && s[i + 4] == '/'
    requires IsDigit(s[i + 5]) && IsDigit(s[i + 6]) && s[i + 7] == '/'
    requires IsDigit(s[i + 8]) && IsDigit(s[i + 9])
    ensures MatchLenAt(s, i) == 10
  {
    assert DigitsIn(s, i, i + 4);
  }

  /** No match starts inside a prefix that holds no digit. */
  lemma NoMatchInDigitFreePrefix(s: string, p: string)
    requires p <= s
    requires forall k :: 0 <= k < |p| ==> !IsDigit(p[k])
    ensures forall j :: 0 <= j < |p| ==> MatchLenAt(s, j) == 0
  {
    forall j | 0 <= j < |p| ensures MatchLenAt(s, j) == 0 {
      assert s[j] == p[j];
      NoMatchAtNonDigit(s, j);
    }
  }

  /** In "/articles/2019/09/10/...", the search lands on position 10 and takes ten characters. */
  lemma ArticleHrefMatch(s: string)
    requires s == "/articles/2019/09/10/7227374/"
    ensures DateMatch(s) == Some(10) && MatchLenAt(s, 10) == 10
  {
    TenCharMatch(s, 10);
    var p := "/articles/";
    assert p <= s;
    assert forall k :: 0 <= k < |p| ==> !IsDigit(p[k]);
    NoMatchInDigitFreePrefix(s, p);
    DateMatchAt(s, 10);
  }

  /** The day takes two digits: "/articles/2019/09/10/..." yields "2019/09/10". */
  lemma ExampleArticleHref(s: string)
    requires s == "/articles/2019/09/10/7227374/"
    ensures DateText(s) == Some("2019/09/10")
  {
    ArticleHrefMatch(s);
    assert s[10..20] == "2019/09/10";
  }

  /**
   * The leftmost start wins, and the month falls back to one digit when a '/'
   * follows it: "12019/9/1x" yields "2019/9/1" (position 0 fails, since "1201"
   * is not followed by '/').
   */
  lemma ExampleOneDigitMonth(s: string)
    requires s == "12019/9/1x"
    ensures DateText(s) == Some("2019/9/1")
  {
    assert s[4] != '/';
    assert MatchLenAt(s, 0) == 0;
    assert DigitsIn(s, 1, 5);
    assert DayLen(s, 8) == 1;
    assert MatchLenAt(s, 1) == 8;
    DateMatchAt(s, 1);
    assert s[1..9] == "2019/9/1";
  }

  /** An href without a date: "/news/123" gives no match. */
  lemma ExampleNoDate(s: string)
    requires s == "/news/123"
    ensures DateText(s) == None
  {
  }
}
