/** The Python string built-ins the scraper, the language detector and the
    route handler rely on: `str.strip()`, `str.split()`, `sep.join(parts)`,
    `str.lower()`, slicing and `str(int)`, stated over `seq<char>`. */
module PyStr {

  /** `c.isspace()`: the characters `str.split()` and `str.strip()` treat as
      whitespace when called without an argument (the ASCII controls
      U+0009..U+000D and U+001C..U+001F, the space, and the Unicode spaces
      and separators). */
  predicate IsSpace(c: char) {
    || ('\t' <= c <= '\r')
    || ('\U{1C}' <= c <= '\U{1F}')
    || c == ' '
    || c == '\U{85}'
    || c == '\U{A0}'
    || c == '\U{1680}'
    || ('\U{2000}' <= c <= '\U{200A}')
    || c == '\U{2028}'
    || c == '\U{2029}'
    || c == '\U{202F}'
    || c == '\U{205F}'
    || c == '\U{3000}'
  }

  predicate NoSpace(s: string) {
    forall k :: 0 <= k < |s| ==> !IsSpace(s[k])
  }

  predicate AllSpace(s: string) {
    forall k :: 0 <= k < |s| ==> IsSpace(s[k])
  }

  /** One item of `s.split()`: non-empty and free of whitespace. */
  predicate IsWord(w: string) {
    w != [] && NoSpace(w)
  }

  predicate AllWords(ws: seq<string>) {
    forall i :: 0 <= i < |ws| ==> IsWord(ws[i])
  }

  // ---------------------------------------------------------------------
  // strip

  /** `s.lstrip()`: drops exactly the leading run of whitespace. */
  function LStrip(s: string): (r: string)
    ensures |r| <= |s| && r == s[|s| - |r|..]
    ensures r != [] ==> !IsSpace(r[0])
    ensures forall k :: 0 <= k < |s| - |r| ==> IsSpace(s[k])
  {
    if s != [] && IsSpace(s[0]) then LStrip(s[1..]) else s
  }

  /** `s.rstrip()`: drops exactly the trailing run of whitespace. */
  function RStrip(s: string): (r: string)
    ensures |r| <= |s| && r == s[..|r|]
    ensures r != [] ==> !IsSpace(r[|r| - 1])
    ensures forall k :: |r| <= k < |s| ==> IsSpace(s[k])
  {
    if s != [] && IsSpace(s[|s| - 1]) then RStrip(s[..|s| - 1]) else s
  }

  /** `r` is what is left of `s` once the first `i` characters and
      everything after `r` are removed, and all of those are whitespace. */
  ghost predicate TrimmedAt(s: string, r: string, i: int) {
    && 0 <= i <= i + |r| <= |s|
    && s[i..i + |r|] == r
    && (forall k :: 0 <= k < i ==> IsSpace(s[k]))
    && (forall k :: i + |r| <= k < |s| ==> IsSpace(s[k]))
  }

  /** `s.strip()`: the part of `s` between its leading and its trailing
      whitespace. */
  function Strip(s: string): (r: string)
    ensures r != [] ==> !IsSpace(r[0]) && !IsSpace(r[|r| - 1])
    ensures exists i :: TrimmedAt(s, r, i)
  {
    var l := LStrip(s);
    var r := RStrip(l);
    assert TrimmedAt(s, r, |s| - |l|);
    r
  }

  // ---------------------------------------------------------------------
  // lower

  /** Lower-case one character; only the ASCII letters are mapped. */
  function LowerChar(c: char): char {
    if 'A' <= c <= 'Z' then (c as int - 'A' as int + 'a' as int) as char else c
  }

  /** `s.lower()`, restricted to the ASCII letters. */
  function Lower(s: string): string {
    seq(|s|, k requires 0 <= k < |s| => LowerChar(s[k]))
  }

  // ---------------------------------------------------------------------
  // join

  /** `sep.join(parts)`. */
  function Join(sep: string, parts: seq<string>): string
    decreases |parts|
  {
    if parts == [] then ""
    else if |parts| == 1 then parts[0]
    else parts[0] + sep + Join(sep, parts[1..])
  }

  /** `''.join(parts)`. */
  function Concat(parts: seq<string>): string
    decreases |parts|
  {
    if parts == [] then "" else parts[0] + Concat(parts[1..])
  }

  // ---------------------------------------------------------------------
  // split

  /** Length of the run of non-whitespace characters that `s` starts with. */
  function WordLen(s: string): (n: nat)
    ensures n <= |s|
    ensures forall k :: 0 <= k < n ==> !IsSpace(s[k])
    ensures n < |s| ==> IsSpace(s[n])
  {
    if s == [] || IsSpace(s[0]) then 0 else 1 + WordLen(s[1..])
  }

  /** `s.split()`: the maximal runs of non-whitespace characters, in order. */
  function Split(s: string): (words: seq<string>)
    ensures AllWords(words)
    decreases |s|
  {
    if s == [] then []
    else if IsSpace(s[0]) then Split(s[1..])
    else
      var n := WordLen(s);
      [s[..n]] + Split(s[n..])
  }

  /** `' '.join(s.split())`: whitespace runs collapsed to one space, the ends
      trimmed. */
  function Normalize(s: string): string {
    Join(" ", Split(s))
  }

  /** The shape of a string `Normalize` leaves: no whitespace at either end,
      no whitespace other than the plain space, and never two whitespace
      characters in a row. */
  predicate IsNormalized(s: string) {
    && (s != [] ==> !IsSpace(s[0]) && !IsSpace(s[|s| - 1]))
    && (forall k :: 0 <= k < |s| && IsSpace(s[k]) ==> s[k] == ' ')
    && (forall k :: 0 <= k < |s| - 1 && IsSpace(s[k]) ==> !IsSpace(s[k + 1]))
  }

  /** The non-whitespace characters of `s`, in order. */
  function Letters(s: string): string
    decreases |s|
  {
    if s == [] then ""
    else (if IsSpace(s[0]) then "" else [s[0]]) + Letters(s[1..])
  }

  /** `s[:n]`: Python's slice, which stops at the end of a shorter string
      or list. */
  function Prefix<T>(s: seq<T>, n: nat): seq<T> {
    if |s| <= n then s else s[..n]
  }

  /** `s[:n]` is the first min(n, len(s)) items of `s`, in order. */
  lemma PrefixIsLeading<T>(s: seq<T>, n: nat)
    ensures Prefix(s, n) <= s
    ensures |Prefix(s, n)| == if |s| < n then |s| else n
  {
  }

  // ---------------------------------------------------------------------
  // str(int)

  function DigitChar(d: nat): char
    requires d < 10
  {
    ('0' as int + d) as char
  }

  predicate IsDigit(c: char) {
    '0' <= c <= '9'
  }

  /** `str(n)` for a natural number: its decimal digits. */
  function NatToString(n: nat): (r: string)
    ensures r != []
    ensures forall k :: 0 <= k < |r| ==> IsDigit(r[k])
    decreases n
  {
    if n < 10 then [DigitChar(n)] else NatToString(n / 10) + [DigitChar(n % 10)]
  }

  /** `str(i)` for any integer. */
  function IntToString(i: int): string {
    if i < 0 then "-" + NatToString(-i) else NatToString(i)
  }

  /** `int(s)` for a string of decimal digits; the inverse of `NatToString`. */
  function ParseNat(s: string): nat
    requires forall k :: 0 <= k < |s| ==> IsDigit(s[k])
    decreases |s|
  {
    if s == [] then 0
    else
      assert IsDigit(s[|s| - 1]);
      10 * ParseNat(s[..|s| - 1]) + (s[|s| - 1] as int - '0' as int)
  }

  // ---------------------------------------------------------------------
  // lemmas

  /** Reading the digits back gives the number: `int(str(n)) == n`. */
  lemma {:induction false} NatToStringRoundTrip(n: nat)
    ensures ParseNat(NatToString(n)) == n
    decreases n
  {
    if n >= 10 {
      var s := NatToString(n);
      assert s[..|s| - 1] == NatToString(n / 10);
      NatToStringRoundTrip(n / 10);
    }
  }

  /** Distinct numbers are printed differently. */
  lemma NatToStringInjective(m: nat, n: nat)
    requires NatToString(m) == NatToString(n)
    ensures m == n
  {
    NatToStringRoundTrip(m);
    NatToStringRoundTrip(n);
  }

  /** Joining non-empty whitespace-free words with single spaces gives a
      normalized string, empty exactly when there are no words. */
  lemma {:induction false} JoinWordsNormalized(ws: seq<string>)
    requires AllWords(ws)
    ensures IsNormalized(Join(" ", ws))
    ensures Join(" ", ws) == [] <==> ws == []
    decreases |ws|
  {
    if |ws| >= 2 {
      var w, rest := ws[0], ws[1..];
      assert IsWord(ws[1]);
      assert AllWords(rest) by {
        forall i | 0 <= i < |rest| ensures IsWord(rest[i]) {
          assert rest[i] == ws[i + 1];
        }
      }
      JoinWordsNormalized(rest);
      var t := Join(" ", rest);
      var j := Join(" ", ws);
      assert j == w + " " + t;
      assert IsWord(w);
      assert forall k :: 0 <= k < |w| ==> j[k] == w[k];
      assert j[|w|] == ' ';
      assert forall k :: |w| < k < |j| ==> j[k] == t[k - |w| - 1];
    } else if |ws| == 1 {
      assert IsWord(ws[0]);
    }
  }

  /** Splitting a space-joined list of words gives the words back. */
  lemma {:induction false} SplitJoin(ws: seq<string>)
    requires AllWords(ws)
    ensures Split(Join(" ", ws)) == ws
    decreases |ws|
  {
    if |ws| == 1 {
      var w := ws[0];
      assert IsWord(w);
      assert WordLen(w) == |w|;
      assert w[..|w|] == w && w[|w|..] == [];
    } else if |ws| >= 2 {
      var w, rest := ws[0], ws[1..];
      assert IsWord(w);
      assert AllWords(rest) by {
        forall i | 0 <= i < |rest| ensures IsWord(rest[i]) {
          assert rest[i] == ws[i + 1];
        }
      }
      var t := Join(" ", rest);
      var s := w + " " + t;
      assert Join(" ", ws) == s;
      assert s[|w|] == ' ';
      assert forall k :: 0 <= k < |w| ==> s[k] == w[k];
      assert WordLen(s) == |w|;
      assert s[..|w|] == w;
      assert s[|w|..][1..] == t;
      calc {
        Split(s);
        [w] + Split(s[|w|..]);
        [w] + Split(t);
        { SplitJoin(rest); }
        [w] + rest;
        ws;
      }
    }
  }

  /** A non-empty string that starts with a non-whitespace character has at
      least one word. */
  lemma SplitNonEmpty(s: string)
    requires s != [] && !IsSpace(s[0])
    ensures Split(s) != []
  {
  }

  /** Joining a word in front of a non-empty list puts one separator
      between them. */
  lemma JoinCons(sep: string, w: string, ws: seq<string>)
    requires ws != []
    ensures Join(sep, [w] + ws) == w + sep + Join(sep, ws)
  {
    assert ([w] + ws)[1..] == ws;
  }

  /** What follows a space inside a normalized string is normalized. */
  lemma NormalizedAfterSpace(s: string, n: nat)
    requires IsNormalized(s) && n < |s| && IsSpace(s[n])
    ensures n + 1 < |s| && IsNormalized(s[n + 1..])
  {
    var t := s[n + 1..];
    assert forall k :: 0 <= k < |t| ==> t[k] == s[n + 1 + k];
  }

  /** Normalizing a normalized string changes nothing. */
  lemma {:induction false} NormalizedIsFixed(s: string)
    requires IsNormalized(s)
    ensures Normalize(s) == s
    decreases |s|
  {
    if s != [] {
      var n := WordLen(s);
      var w := s[..n];
      assert IsWord(w);
      if n == |s| {
        assert w == s;
        SplitWord(s);
      } else {
        NormalizedAfterSpace(s, n);
        var t := s[n + 1..];
        assert s[n] == ' ';
        assert s == w + [s[n]] + t;
        assert Split(s) == [w] + Split(t) by {
          SplitWordThenSpace(w, [s[n]], t);
        }
        NormalizedIsFixed(t);
        SplitNonEmpty(t);
        JoinCons(" ", w, Split(t));
      }
    }
  }

  /** `' '.join(s.split())` always yields a normalized string. */
  lemma NormalizeIsNormalized(s: string)
    ensures IsNormalized(Normalize(s))
  {
    JoinWordsNormalized(Split(s));
  }

  /** A string is a fixed point of normalization exactly when it has the
      normalized shape. */
  lemma NormalizedIffFixed(s: string)
    ensures IsNormalized(s) <==> Normalize(s) == s
  {
    if IsNormalized(s) {
      NormalizedIsFixed(s);
    } else {
      NormalizeIsNormalized(s);
    }
  }

  /** Normalizing twice is normalizing once. */
  lemma NormalizeIdempotent(s: string)
    ensures Normalize(Normalize(s)) == Normalize(s)
  {
    SplitJoin(Split(s));
  }

  lemma {:induction false} LettersAppend(a: string, b: string)
    ensures Letters(a + b) == Letters(a) + Letters(b)
    decreases |a|
  {
    if a != [] {
      var head := if IsSpace(a[0]) then "" else [a[0]];
      assert (a + b)[0] == a[0];
      assert (a + b)[1..] == a[1..] + b;
      LettersAppend(a[1..], b);
      calc {
        Letters(a + b);
        head + Letters(a[1..] + b);
        head + (Letters(a[1..]) + Letters(b));
        (head + Letters(a[1..])) + Letters(b);
        Letters(a) + Letters(b);
      }
    } else {
      assert a + b == b;
    }
  }

  lemma {:induction false} LettersOfNoSpace(w: string)
    requires NoSpace(w)
    ensures Letters(w) == w
    decreases |w|
  {
    if w != [] {
      LettersOfNoSpace(w[1..]);
    }
  }

  /** The words of `s` hold exactly its non-whitespace characters. */
  lemma {:induction false} LettersOfSplit(s: string)
    ensures Concat(Split(s)) == Letters(s)
    decreases |s|
  {
    if s != [] {
      if IsSpace(s[0]) {
        LettersOfSplit(s[1..]);
      } else {
        var n := WordLen(s);
        var ws := [s[..n]] + Split(s[n..]);
        assert ws[1..] == Split(s[n..]);
        LettersOfSplit(s[n..]);
        assert s == s[..n] + s[n..];
        LettersAppend(s[..n], s[n..]);
        LettersOfNoSpace(s[..n]);
      }
    }
  }

  lemma AllWordsSplit(ws: seq<string>)
    requires AllWords(ws) && ws != []
    ensures IsWord(ws[0]) && AllWords(ws[1..])
  {
    forall i | 0 <= i < |ws[1..]| ensures IsWord(ws[1..][i]) {
      assert ws[1..][i] == ws[i + 1];
    }
  }

  /** Joining words with spaces adds whitespace only. */
  lemma {:induction false} LettersOfJoin(ws: seq<string>)
    requires AllWords(ws)
    ensures Letters(Join(" ", ws)) == Concat(ws)
    decreases |ws|
  {
    if ws != [] {
      var w, rest := ws[0], ws[1..];
      AllWordsSplit(ws);
      LettersOfNoSpace(w);
      if rest == [] {
        assert Concat(ws) == w + Concat(rest) == w;
      } else {
        LettersOfJoin(rest);
        var t := Join(" ", rest);
        assert Letters(" ") == "";
        LettersAppend(w, " ");
        LettersAppend(w + " ", t);
        calc {
          Letters(Join(" ", ws));
          Letters((w + " ") + t);
          Letters(w + " ") + Letters(t);
          (Letters(w) + Letters(" ")) + Letters(t);
          w + Concat(rest);
          Concat(ws);
        }
      }
    }
  }

  /** Normalization keeps every non-whitespace character, in order, and
      drops none: it only rewrites whitespace. */
  lemma NormalizeKeepsLetters(s: string)
    ensures Letters(Normalize(s)) == Letters(s)
  {
    LettersOfJoin(Split(s));
    LettersOfSplit(s);
  }

  /** Normalization keeps the words, each whole and in order: whitespace
      between two words becomes one space, never nothing. */
  lemma NormalizeKeepsWords(s: string)
    ensures Split(Normalize(s)) == Split(s)
  {
    SplitJoin(Split(s));
  }

  /** Leading whitespace does not change the words. */
  lemma {:induction false} SplitSkipsSpace(g: string, t: string)
    requires AllSpace(g)
    ensures Split(g + t) == Split(t)
    decreases |g|
  {
    if g == [] {
      assert g + t == t;
    } else {
      assert (g + t)[0] == g[0];
      assert (g + t)[1..] == g[1..] + t;
      SplitSkipsSpace(g[1..], t);
    }
  }

  /** A word followed by whitespace is split off as the first word. */
  lemma SplitWordThenSpace(w: string, g: string, t: string)
    requires IsWord(w) && g != [] && AllSpace(g)
    ensures Split(w + g + t) == [w] + Split(t)
  {
    var s := w + g + t;
    assert forall k :: 0 <= k < |w| ==> s[k] == w[k];
    assert s[|w|] == g[0];
    assert WordLen(s) == |w|;
    assert s[..|w|] == w;
    assert s[|w|..] == g + t;
    SplitSkipsSpace(g, t);
  }

  /** A single word splits into itself. */
  lemma SplitWord(w: string)
    requires IsWord(w)
    ensures Split(w) == [w]
  {
    SplitJoin([w]);
  }

  /** `lstrip` stops at the first non-whitespace character. */
  lemma LStripSurrounded(g: string, t: string)
    requires AllSpace(g) && t != [] && !IsSpace(t[0])
    ensures LStrip(g + t) == t
  {
    var s := g + t;
    var l := LStrip(s);
    assert s[|g|] == t[0];
    assert |s| - |l| == |g|;
  }

  /** `rstrip` stops at the last non-whitespace character. */
  lemma RStripSurrounded(t: string, g: string)
    requires AllSpace(g) && t != [] && !IsSpace(t[|t| - 1])
    ensures RStrip(t + g) == t
  {
    var s := t + g;
    var r := RStrip(s);
    assert s[|t| - 1] == t[|t| - 1];
    assert |r| == |t|;
  }

  /** Stripping removes exactly the whitespace around a text that starts and
      ends with non-whitespace. */
  lemma StripSurrounded(g1: string, t: string, g2: string)
    requires AllSpace(g1) && AllSpace(g2)
    requires t != [] && !IsSpace(t[0]) && !IsSpace(t[|t| - 1])
    ensures Strip(g1 + t + g2) == t
  {
    assert g1 + t + g2 == g1 + (t + g2);
    LStripSurrounded(g1, t + g2);
    RStripSurrounded(t, g2);
  }
}
