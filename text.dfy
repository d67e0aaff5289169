/** The string helpers of the matching strategies: `safe_string`, Python's
    `str.split()`, `' '.join`, `str.casefold` (ASCII only) and `unique_words`. */
module Text {
  import opened Wrappers
  import opened Seqs

  /** Python's `str.isspace`, the set `split()` and `strip()` use. */
  predicate IsSpace(c: char) {
    var n := c as int;
    (9 <= n <= 13) || (28 <= n <= 32) || n == 0x85 || n == 0xA0 || n == 0x1680
    || (0x2000 <= n <= 0x200A) || n == 0x2028 || n == 0x2029 || n == 0x202F
    || n == 0x205F || n == 0x3000
  }

  /** `casefold`, restricted to the ASCII letters. */
  function LowerChar(c: char): char {
    if 'A' <= c <= 'Z' then (c as int + 32) as char else c
  }

  function Lower(s: string): string {
    seq(|s|, i requires 0 <= i < |s| => LowerChar(s[i]))
  }

  // ---------------------------------------------------------------------------
  // safe_string

  function Other(c: char): char -> bool {
    x => x != c
  }

  /** `s.replace(c, "")`: every occurrence of `c` is removed, everything else kept. */
  function Without(s: string, c: char): (r: string)
    ensures c !in r
    ensures forall x :: x != c ==> (x in r <==> x in s)
    decreases |s|
  {
    if s == [] then []
    else
      var n := |s| - 1;
      Without(s[..n], c) + (if s[n] == c then [] else [s[n]])
  }

  /** `replace` keeps the other characters in their order: it is the filter
      that drops `c`. */
  lemma {:induction false} WithoutKeepsOrder(s: string, c: char)
    ensures Without(s, c) == Filter(s, Other(c))
    decreases |s|
  {
    if s != [] {
      WithoutKeepsOrder(s[..|s| - 1], c);
    }
  }

  lemma {:induction false} WithoutAbsent(s: string, c: char)
    requires c !in s
    ensures Without(s, c) == s
    decreases |s|
  {
    if s != [] {
      var n := |s| - 1;
      assert c !in s[..n] by {
        assert forall k :: 0 <= k < n ==> s[..n][k] == s[k];
      }
      WithoutAbsent(s[..n], c);
      assert s == s[..n] + [s[n]];
    }
  }

  /** Number of whitespace characters `strip()` removes at the front. */
  function LeadingSpaces(s: string): (n: nat)
    ensures n <= |s|
    ensures forall k :: 0 <= k < n ==> IsSpace(s[k])
    ensures n == |s| || !IsSpace(s[n])
    decreases |s|
  {
    if s != [] && IsSpace(s[0]) then 1 + LeadingSpaces(s[1..]) else 0
  }

  /** Number of whitespace characters `strip()` removes at the back. */
  function TrailingSpaces(s: string): (n: nat)
    ensures n <= |s|
    ensures forall k :: |s| - n <= k < |s| ==> IsSpace(s[k])
    ensures n == |s| || !IsSpace(s[|s| - 1 - n])
    decreases |s|
  {
    if s != [] && IsSpace(s[|s| - 1]) then 1 + TrailingSpaces(s[..|s| - 1]) else 0
  }

  /** Neither end of `s` is whitespace. */
  predicate Trimmed(s: string) {
    s == [] || (!IsSpace(s[0]) && !IsSpace(s[|s| - 1]))
  }

  /** `r` is the slice `s[i..j]`, and only whitespace lies outside it. */
  predicate SliceWithinSpaces(r: string, s: string, i: int, j: int) {
    && 0 <= i <= j <= |s| && r == s[i..j]
    && (forall k :: 0 <= k < i ==> IsSpace(s[k]))
    && (forall k :: j <= k < |s| ==> IsSpace(s[k]))
  }

  /** `s.strip()`: the slice of `s` left after removing the whitespace at both ends. */
  function Strip(s: string): (r: string)
    ensures Trimmed(r)
    ensures exists i, j :: SliceWithinSpaces(r, s, i, j)
  {
    var i := LeadingSpaces(s);
    var t := s[i..];
    var n := TrailingSpaces(t);
    var j := i + |t| - n;
    assert forall k :: j <= k < |s| ==> IsSpace(s[k]) by {
      forall k | j <= k < |s|
        ensures IsSpace(s[k])
      {
        assert s[k] == t[k - i];
      }
    }
    assert i < j ==> s[j - 1] == t[|t| - 1 - n];
    assert SliceWithinSpaces(s[i..j], s, i, j);
    s[i..j]
  }

  lemma StripTrimmed(s: string)
    requires Trimmed(s)
    ensures Strip(s) == s
  {
    assert LeadingSpaces(s) == 0;
    assert TrailingSpaces(s[LeadingSpaces(s)..]) == 0;
  }

  predicate HasNoControls(s: string) {
    '\n' !in s && '\r' !in s && '\t' !in s
  }

  /** The characters `safe_string` keeps before stripping. */
  predicate NotControl(c: char) {
    c != '\n' && c != '\r' && c != '\t'
  }

  predicate NotNewlineOrReturn(c: char) {
    c != '\n' && c != '\r'
  }

  /** The three replacements together drop exactly the newlines, carriage
      returns and tabs, and keep the rest in order. */
  lemma WithoutControls(s: string)
    ensures Without(Without(Without(s, '\n'), '\r'), '\t') == Filter(s, NotControl)
  {
    WithoutKeepsOrder(s, '\n');
    WithoutKeepsOrder(Without(s, '\n'), '\r');
    WithoutKeepsOrder(Without(Without(s, '\n'), '\r'), '\t');
    FilterFilter(s, Other('\n'), Other('\r'), NotNewlineOrReturn);
    FilterFilter(s, NotNewlineOrReturn, Other('\t'), NotControl);
  }

  /** `safe_string`: drop every newline, carriage return and tab, then strip. */
  function SafeString(s: string): (r: string)
    ensures HasNoControls(r) && Trimmed(r)
  {
    var cleaned := Without(Without(Without(s, '\n'), '\r'), '\t');
    var r := Strip(cleaned);
    r
  }

  /** What `safe_string` keeps: once the newlines, carriage returns and tabs
      are gone, the result is the run of the remaining characters, in their
      order, left after the whitespace at both ends is removed. */
  lemma SafeStringKeeps(s: string)
    ensures exists i, j :: SliceWithinSpaces(SafeString(s), Filter(s, NotControl), i, j)
  {
    var kept := Filter(s, NotControl);
    assert SafeString(s) == Strip(kept) by {
      WithoutControls(s);
    }
    var i, j :| SliceWithinSpaces(Strip(kept), kept, i, j);
    assert SliceWithinSpaces(SafeString(s), kept, i, j);
  }

  lemma SafeStringOfClean(s: string)
    requires HasNoControls(s) && Trimmed(s)
    ensures SafeString(s) == s
  {
    WithoutAbsent(s, '\n');
    WithoutAbsent(s, '\r');
    WithoutAbsent(s, '\t');
    StripTrimmed(s);
  }

  /** Applying `safe_string` twice is the same as applying it once. */
  lemma SafeStringIdempotent(s: string)
    ensures SafeString(SafeString(s)) == SafeString(s)
  {
    SafeStringOfClean(SafeString(s));
  }

  // ---------------------------------------------------------------------------
  // split and join

  /** A token produced by `split()`: non-empty, no whitespace. */
  predicate IsWord(w: string) {
    w != [] && forall c :: c in w ==> !IsSpace(c)
  }

  /** The longest prefix of `s` that holds no whitespace. */
  function WordPrefix(s: string): (w: string)
    ensures w <= s
    ensures forall c :: c in w ==> !IsSpace(c)
    ensures |w| == |s| || IsSpace(s[|w|])
    decreases |s|
  {
    if s == [] || IsSpace(s[0]) then [] else [s[0]] + WordPrefix(s[1..])
  }

  /** `s.split()`: the maximal runs of non-whitespace characters, in order. */
  function Split(s: string): (ws: seq<string>)
    ensures forall w :: w in ws ==> IsWord(w)
    decreases |s|
  {
    if s == [] then []
    else if IsSpace(s[0]) then Split(s[1..])
    else
      var w := WordPrefix(s);
      [w] + Split(s[|w|..])
  }

  /** `' '.join(ws)`. */
  function Join(ws: seq<string>): string
    decreases |ws|
  {
    if ws == [] then ""
    else if |ws| == 1 then ws[0]
    else ws[0] + " " + Join(ws[1..])
  }

  /** `filter(None, parts)`: the non-empty strings, in order. */
  function NonEmpty(parts: seq<string>): seq<string>
    decreases |parts|
  {
    if parts == [] then []
    else (if parts[0] == "" then [] else [parts[0]]) + NonEmpty(parts[1..])
  }

  /** `' '.join(filter(None, parts))`. */
  function JoinNonEmpty(parts: seq<string>): string {
    Join(NonEmpty(parts))
  }

  /** The tokens of each part, concatenated. */
  function Tokens(parts: seq<string>): seq<string>
    decreases |parts|
  {
    if parts == [] then [] else Split(parts[0]) + Tokens(parts[1..])
  }

  lemma {:induction false} WordPrefixStops(a: string, c: string)
    requires c == [] || IsSpace(c[0])
    ensures WordPrefix(a + c) == WordPrefix(a)
    decreases |a|
  {
    if a == [] {
      assert a + c == c;
    } else if !IsSpace(a[0]) {
      assert (a + c)[1..] == a[1..] + c;
      WordPrefixStops(a[1..], c);
    }
  }

  /** Splitting two strings joined by a space gives the tokens of each, in order. */
  lemma {:induction false} SplitAroundSpace(a: string, b: string)
    ensures Split(a + " " + b) == Split(a) + Split(b)
    decreases |a|
  {
    if a == [] {
      SplitSkipsSpace(" " + b);
      assert (" " + b)[1..] == b && a + " " + b == " " + b;
    } else if IsSpace(a[0]) {
      SplitSkipsSpace(a);
      SplitSkipsSpace(a + " " + b);
      assert (a + " " + b)[1..] == a[1..] + " " + b;
      SplitAroundSpace(a[1..], b);
    } else {
      var w := WordPrefix(a);
      SplitWordFirst(a, b);
      SplitAroundSpace(a[|w|..], b);
      assert [w] + (Split(a[|w|..]) + Split(b)) == ([w] + Split(a[|w|..])) + Split(b);
    }
  }

  /** Leading whitespace is skipped. */
  lemma SplitSkipsSpace(s: string)
    requires s != [] && IsSpace(s[0])
    ensures Split(s) == Split(s[1..])
  {
  }

  /** A string starting with a word keeps that word first when a space and
      more text follow it. */
  lemma SplitWordFirst(a: string, b: string)
    requires a != [] && !IsSpace(a[0])
    ensures Split(a + " " + b) == [WordPrefix(a)] + Split(a[|WordPrefix(a)|..] + " " + b)
  {
    var s := a + " " + b;
    assert s == a + (" " + b);
    WordPrefixStops(a, " " + b);
    var w := WordPrefix(a);
    assert s[0] == a[0];
    assert s[|w|..] == a[|w|..] + " " + b;
  }

  lemma {:induction false} SplitJoinParts(parts: seq<string>)
    ensures Split(Join(parts)) == Tokens(parts)
    decreases |parts|
  {
    if |parts| == 1 {
      assert Tokens(parts) == Split(parts[0]) + Tokens([]);
    } else if |parts| > 1 {
      SplitAroundSpace(parts[0], Join(parts[1..]));
      SplitJoinParts(parts[1..]);
    }
  }

  lemma {:induction false} TokensNonEmpty(parts: seq<string>)
    ensures Tokens(NonEmpty(parts)) == Tokens(parts)
    decreases |parts|
  {
    if parts != [] {
      TokensNonEmpty(parts[1..]);
      if parts[0] == "" {
        assert Split(parts[0]) == [];
        assert NonEmpty(parts) == NonEmpty(parts[1..]);
      } else {
        assert NonEmpty(parts) == [parts[0]] + NonEmpty(parts[1..]);
        assert ([parts[0]] + NonEmpty(parts[1..]))[1..] == NonEmpty(parts[1..]);
      }
    }
  }

  /** `' '.join(filter(None, parts))` splits back into the tokens of the parts. */
  lemma JoinNonEmptyTokens(parts: seq<string>)
    ensures Split(JoinNonEmpty(parts)) == Tokens(parts)
  {
    SplitJoinParts(NonEmpty(parts));
    TokensNonEmpty(parts);
  }

  /** An empty part contributes no token: leaving it out changes nothing. */
  lemma JoinNonEmptySkipsEmpty(parts: seq<string>, k: nat)
    requires k < |parts| && parts[k] == ""
    ensures Split(JoinNonEmpty(parts)) == Split(JoinNonEmpty(parts[..k] + parts[k + 1..]))
  {
    JoinNonEmptyTokens(parts);
    JoinNonEmptyTokens(parts[..k] + parts[k + 1..]);
    TokensSkipEmpty(parts, k);
  }

  lemma {:induction false} TokensSkipEmpty(parts: seq<string>, k: nat)
    requires k < |parts| && parts[k] == ""
    ensures Tokens(parts) == Tokens(parts[..k] + parts[k + 1..])
    decreases k
  {
    if k == 0 {
      assert parts[..k] + parts[k + 1..] == parts[1..];
      assert Split(parts[0]) == [];
    } else {
      TokensSkipEmpty(parts[1..], k - 1);
      assert parts[..k] + parts[k + 1..] == [parts[0]] + (parts[1..][..k - 1] + parts[1..][k..]);
    }
  }

  lemma {:induction false} WordPrefixOfWord(w: string)
    requires forall c :: c in w ==> !IsSpace(c)
    ensures WordPrefix(w) == w
    decreases |w|
  {
    if w != [] {
      assert w[0] in w;
      assert forall c :: c in w[1..] ==> c in w;
      WordPrefixOfWord(w[1..]);
    }
  }

  /** A word splits into itself. */
  lemma SplitWord(w: string)
    requires IsWord(w)
    ensures Split(w) == [w]
  {
    WordPrefixOfWord(w);
    assert w[0] in w;
    assert w[|w|..] == [];
  }

  /** Joining whitespace-free tokens with single spaces and splitting again
      gives the tokens back. */
  lemma {:induction false} SplitJoin(ws: seq<string>)
    requires forall w :: w in ws ==> IsWord(w)
    ensures Split(Join(ws)) == ws
    decreases |ws|
  {
    if ws != [] {
      var w := ws[0];
      assert w in ws;
      SplitWord(w);
      if |ws| == 1 {
        assert Join(ws) == w && ws == [w];
      } else {
        assert Join(ws) == w + " " + Join(ws[1..]);
        SplitAroundSpace(w, Join(ws[1..]));
        assert forall x :: x in ws[1..] ==> x in ws;
        SplitJoin(ws[1..]);
        assert ws == [w] + ws[1..];
      }
    }
  }

  // ---------------------------------------------------------------------------
  // unique_words

  predicate Distinct<T(==)>(s: seq<T>) {
    forall i, j :: 0 <= i < j < |s| ==> s[i] != s[j]
  }

  /** Position of the first occurrence of `x` in `s`. */
  function FirstIndex<T(==)>(s: seq<T>, x: T): (k: nat)
    requires x in s
    ensures k < |s| && s[k] == x && x !in s[..k]
    decreases |s|
  {
    if s[0] == x then 0 else 1 + FirstIndex(s[1..], x)
  }

  /** Repeated elements removed, first occurrences kept: the list that the
      comprehension of `unique_words` builds while it fills its `seen` set. */
  function Dedup(s: seq<string>): (r: seq<string>)
    ensures forall x :: x in r <==> x in s
    ensures Distinct(r)
    decreases |s|
  {
    if s == [] then []
    else
      var n := |s| - 1;
      assert s == s[..n] + [s[n]];
      var d := Dedup(s[..n]);
      if s[n] in d then d else d + [s[n]]
  }

  lemma FirstIndexExtend<T>(s: seq<T>, x: T, y: T)
    requires y in s
    ensures FirstIndex(s + [x], y) == FirstIndex(s, y)
  {
    var k := FirstIndex(s, y);
    assert (s + [x])[k] == y;
    assert (s + [x])[..k] == s[..k];
  }

  /** The kept elements appear in the order of their first occurrences. */
  lemma {:induction false} DedupFirstOccurrenceOrder(s: seq<string>)
    ensures forall a, b :: 0 <= a < b < |Dedup(s)| ==>
              FirstIndex(s, Dedup(s)[a]) < FirstIndex(s, Dedup(s)[b])
    decreases |s|
  {
    if s != [] {
      var n := |s| - 1;
      var t := s[..n];
      assert s == t + [s[n]];
      DedupFirstOccurrenceOrder(t);
      var d := Dedup(t);
      forall y | y in t
        ensures FirstIndex(s, y) == FirstIndex(t, y)
      {
        FirstIndexExtend(t, s[n], y);
      }
      if s[n] !in d {
        assert s[n] !in t;
        assert FirstIndex(s, s[n]) == n;
        forall a, b | 0 <= a < b < |Dedup(s)|
          ensures FirstIndex(s, Dedup(s)[a]) < FirstIndex(s, Dedup(s)[b])
        {
          assert Dedup(s)[a] == d[a] && d[a] in t;
          if b == |d| {
            assert FirstIndex(t, d[a]) < |t|;
          } else {
            assert Dedup(s)[b] == d[b] && d[b] in t;
          }
        }
      }
    }
  }

  /** A sequence without repetitions is left as it is. */
  lemma {:induction false} DedupOfDistinct(s: seq<string>)
    requires Distinct(s)
    ensures Dedup(s) == s
    decreases |s|
  {
    if s != [] {
      var n := |s| - 1;
      assert s == s[..n] + [s[n]];
      DedupOfDistinct(s[..n]);
      assert s[n] !in s[..n];
    }
  }

  /** `unique_words(string)`. */
  function UniqueWords(s: string): string {
    Join(Dedup(Split(s)))
  }

  /** The tokens of `unique_words(s)` are the distinct tokens of `s`, in the
      order of their first occurrence. */
  lemma UniqueWordsTokens(s: string)
    ensures Split(UniqueWords(s)) == Dedup(Split(s))
    ensures Distinct(Split(UniqueWords(s)))
    ensures forall w :: w in Split(UniqueWords(s)) <==> w in Split(s)
  {
    SplitJoin(Dedup(Split(s)));
  }

  /** `unique_words(unique_words(s)) == unique_words(s)`. */
  lemma UniqueWordsIdempotent(s: string)
    ensures UniqueWords(UniqueWords(s)) == UniqueWords(s)
  {
    UniqueWordsTokens(s);
    DedupOfDistinct(Dedup(Split(s)));
  }

  /** `unique_words("A B A C B") == "A B C"`. */
  lemma UniqueWordsExample()
    ensures UniqueWords("A B A C B") == "A B C"
  {
    var ws := Split("A B A C B");
    assert ws == ["A", "B", "A", "C", "B"] by {
      SplitExample();
    }
    assert Dedup(ws) == ["A", "B", "C"] by {
      DedupExample();
    }
    JoinDistinctExample();
  }

  lemma JoinDistinctExample()
    ensures Join(["A", "B", "C"]) == "A B C"
  {
    assert Join(["C"]) == "C";
    assert Join(["B", "C"]) == "B C";
  }

  lemma SplitExample()
    ensures Split("A B A C B") == ["A", "B", "A", "C", "B"]
  {
    var ws := ["A", "B", "A", "C", "B"];
    JoinExample();
    assert forall w :: w in ws ==> IsWord(w);
    SplitJoin(ws);
  }

  lemma JoinExample()
    ensures Join(["A", "B", "A", "C", "B"]) == "A B A C B"
  {
    assert Join(["B"]) == "B";
    assert Join(["C", "B"]) == "C B";
    assert Join(["A", "C", "B"]) == "A C B";
    assert Join(["B", "A", "C", "B"]) == "B A C B";
  }

  lemma DedupExample()
    ensures Dedup(["A", "B", "A", "C", "B"]) == ["A", "B", "C"]
  {
    DedupPrefixExample();
    DedupSnoc(["A", "B", "A", "C"], "B");
    assert ["A", "B", "A", "C"] + ["B"] == ["A", "B", "A", "C", "B"];
    assert "B" in ["A", "B", "C"];
  }

  lemma DedupPrefixExample()
    ensures Dedup(["A", "B", "A", "C"]) == ["A", "B", "C"]
  {
    DedupPairExample();
    DedupSnoc(["A", "B"], "A");
    assert ["A", "B"] + ["A"] == ["A", "B", "A"];
    DedupSnoc(["A", "B", "A"], "C");
    assert ["A", "B", "A"] + ["C"] == ["A", "B", "A", "C"];
    assert "C" != "A" && "C" != "B";
    assert "C" !in ["A", "B"];
  }

  lemma DedupPairExample()
    ensures Dedup(["A", "B"]) == ["A", "B"]
  {
    DedupOfDistinct(["A", "B"]);
  }

  lemma DedupSnoc(s: seq<string>, x: string)
    ensures Dedup(s + [x]) == if x in Dedup(s) then Dedup(s) else Dedup(s) + [x]
  {
    assert (s + [x])[..|s|] == s;
  }

  /** `unique_words` as the Python code runs it: one pass over the tokens with a
      `seen` set, keeping a token the first time it is met. */
  method UniqueWordsScan(s: string) returns (r: string)
    ensures r == UniqueWords(s)
  {
    var words := Split(s);
    var seen: set<string> := {};
    var kept: seq<string> := [];
    for i := 0 to |words|
      invariant kept == Dedup(words[..i])
      invariant forall w :: w in seen <==> w in kept
    {
      var w := words[i];
      assert words[..i + 1][..i] == words[..i];
      if w !in seen {
        seen := seen + {w};
        kept := kept + [w];
      }
    }
    assert words[..|words|] == words;
    r := Join(kept);
  }
}
