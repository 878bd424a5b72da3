/**
 * The PHP string built-ins that the framework's SQL and route builders rely on,
 * written out with the semantics of PHP 7: truthiness of strings, strtr and
 * str_replace, trim/ltrim/rtrim, strpos/stristr, explode/implode, addslashes,
 * integer-to-string conversion and is_numeric.
 */
module PhpStrings {
  import opened Wrappers

  /** PHP reads a string as false exactly when it is '' or '0'. */
  predicate Truthy(s: string) {
    s != "" && s != "0"
  }

  predicate IsPrefix(p: string, s: string) {
    |p| <= |s| && s[..|p|] == p
  }

  // ---------------------------------------------------------------- strtr

  /** The longest key of `pairs`, of length 1 to `len`, that begins `s`. */
  function LongestKeyAt(s: string, pairs: map<string, string>, len: nat): (k: Option<string>)
    requires len <= |s|
    ensures k.Some? ==> k.value in pairs && 0 < |k.value| <= len && IsPrefix(k.value, s)
    ensures k.Some? ==> forall n :: |k.value| < n <= len ==> s[..n] !in pairs
    ensures k.None? ==> forall n :: 0 < n <= len ==> s[..n] !in pairs
    decreases len
  {
    if len == 0 then None
    else if s[..len] in pairs then Some(s[..len])
    else LongestKeyAt(s, pairs, len - 1)
  }

  /**
   * strtr(s, pairs): scanning left to right, the longest key that starts at
   * the current position is replaced by its value and scanning resumes after
   * it, so replaced text is never searched again; where no key starts, the
   * character is copied. An empty key never matches.
   */
  function Strtr(s: string, pairs: map<string, string>): string
    decreases |s|
  {
    if s == [] then []
    else match LongestKeyAt(s, pairs, |s|)
      case Some(k) => pairs[k] + Strtr(s[|k|..], pairs)
      case None => [s[0]] + Strtr(s[1..], pairs)
  }

  /** Text in which no key can start is copied through unchanged. */
  lemma {:induction false} StrtrCopiesPlainText(a: string, b: string, pairs: map<string, string>, c: char)
    requires forall k :: k in pairs && k != [] ==> k[0] == c
    requires c !in a
    ensures Strtr(a + b, pairs) == a + Strtr(b, pairs)
  {
    if a != [] {
      var s := a + b;
      assert s[0] == a[0];
      var m := LongestKeyAt(s, pairs, |s|);
      assert m.None?;
      assert s[1..] == a[1..] + b;
      assert Strtr(s, pairs) == [a[0]] + Strtr(a[1..] + b, pairs);
      StrtrCopiesPlainText(a[1..], b, pairs, c);
      assert a == [a[0]] + a[1..];
    } else {
      assert a + b == b;
    }
  }

  /** With a single key, text at whose positions the key does not occur is copied through unchanged. */
  lemma {:induction false} StrtrSkipsNonMatches(a: string, b: string, k: string, v: string)
    requires k != []
    requires forall j :: 0 <= j < |a| ==> !OccursAt(a + b, k, j)
    ensures Strtr(a + b, map[k := v]) == a + Strtr(b, map[k := v])
  {
    if a != [] {
      var s := a + b;
      var pairs := map[k := v];
      assert !OccursAt(s, k, 0);
      var m := LongestKeyAt(s, pairs, |s|);
      assert m.None?;
      assert s[1..] == a[1..] + b;
      forall j | 0 <= j < |a[1..]| ensures !OccursAt(a[1..] + b, k, j) {
        assert !OccursAt(s, k, j + 1);
        if j + |k| <= |s| - 1 {
          assert (a[1..] + b)[j..j + |k|] == s[j + 1..j + 1 + |k|];
        }
      }
      StrtrSkipsNonMatches(a[1..], b, k, v);
      assert Strtr(s, pairs) == [a[0]] + Strtr(a[1..] + b, pairs);
      assert a == [a[0]] + a[1..];
    } else {
      assert a + b == b;
    }
  }

  /**
   * A key followed by a character that no key contains is replaced by its
   * value as a whole, and the scan resumes right after it: no longer key can
   * win and the replacement is not rescanned.
   */
  lemma StrtrTakesKey(k: string, rest: string, pairs: map<string, string>, stop: char)
    requires k in pairs && k != []
    requires forall key :: key in pairs ==> stop !in key
    requires rest == [] || rest[0] == stop
    ensures Strtr(k + rest, pairs) == pairs[k] + Strtr(rest, pairs)
  {
    var s := k + rest;
    assert s[..|k|] == k;
    var m := LongestKeyAt(s, pairs, |s|);
    assert m.Some?;
    assert m == Some(k);
    assert s[|k|..] == rest;
  }

  /**
   * A key set off by spaces, after text in which no key can start, is the
   * only thing replaced before the text that follows it.
   */
  lemma StrtrSplicedKey(before: string, k: string, after: string, pairs: map<string, string>, c: char)
    requires forall key :: key in pairs ==> key != [] && key[0] == c && ' ' !in key
    requires c !in before && c != ' '
    requires k in pairs
    ensures Strtr(before + " " + k + " " + after, pairs) == before + " " + pairs[k] + " " + Strtr(after, pairs)
  {
    var rest := k + (" " + after);
    assert before + " " + k + " " + after == (before + " ") + rest;
    StrtrCopiesPlainText(before + " ", rest, pairs, c);
    StrtrTakesKey(k, " " + after, pairs, ' ');
    StrtrCopiesPlainText(" ", after, pairs, c);
  }

  /** A string that is itself a key is replaced as a whole. */
  lemma StrtrWhole(k: string, pairs: map<string, string>)
    requires k in pairs && k != []
    ensures Strtr(k, pairs) == pairs[k]
  {
    assert k[..|k|] == k;
    var m := LongestKeyAt(k, pairs, |k|);
    assert m == Some(k);
    assert k[|k|..] == [];
  }

  /** str_replace with one search string replaces the same occurrences as strtr with one pair. */
  function ReplaceAll(s: string, search: string, replace: string): string
    requires search != []
  {
    Strtr(s, map[search := replace])
  }

  /** Replacing one character by another rewrites exactly the positions holding it. */
  lemma {:induction false} ReplaceCharEverywhere(s: string, from: char, to: char)
    ensures ReplaceAll(s, [from], [to]) == seq(|s|, i requires 0 <= i < |s| => if s[i] == from then to else s[i])
  {
    var pairs := map[[from] := [to]];
    if s != [] {
      ReplaceCharEverywhere(s[1..], from, to);
      var m := LongestKeyAt(s, pairs, |s|);
      if s[0] == from {
        assert s[..1] == [from];
        assert m.Some? && |m.value| == 1;
      } else {
        assert m.None?;
      }
    }
  }

  /** Replacing a character by a different one leaves none of it. */
  lemma ReplaceCharRemoves(s: string, from: char, to: char)
    requires from != to
    ensures from !in ReplaceAll(s, [from], [to])
  {
    ReplaceCharEverywhere(s, from, to);
  }

  // ---------------------------------------------------------------- trim

  /** The characters PHP's trim removes by default. */
  const TrimDefault: set<char> := {' ', '\t', '\n', '\r', '\0', '\U{0B}'}

  /** ltrim(s, cs): drops the longest prefix made of characters of cs. */
  function LTrim(s: string, cs: set<char>): (r: string)
    ensures |r| <= |s| && r == s[|s| - |r|..]
    ensures r == [] || r[0] !in cs
    ensures forall i :: 0 <= i < |s| - |r| ==> s[i] in cs
  {
    if s != [] && s[0] in cs then LTrim(s[1..], cs) else s
  }

  /** rtrim(s, cs): drops the longest suffix made of characters of cs. */
  function RTrim(s: string, cs: set<char>): (r: string)
    ensures |r| <= |s| && r == s[..|r|]
    ensures r == [] || r[|r| - 1] !in cs
    ensures forall i :: |r| <= i < |s| ==> s[i] in cs
  {
    if s != [] && s[|s| - 1] in cs then RTrim(s[..|s| - 1], cs) else s
  }

  /** trim(s, cs). */
  function Trim(s: string, cs: set<char>): string {
    RTrim(LTrim(s, cs), cs)
  }

  lemma LTrimOfClean(s: string, cs: set<char>)
    requires s == [] || s[0] !in cs
    ensures LTrim(s, cs) == s
  {
  }

  lemma RTrimOfClean(s: string, cs: set<char>)
    requires s == [] || s[|s| - 1] !in cs
    ensures RTrim(s, cs) == s
  {
  }

  /** ltrim takes off one leading trimmed character in front of clean text. */
  lemma LTrimOne(c: char, t: string, cs: set<char>)
    requires c in cs && (t == [] || t[0] !in cs)
    ensures LTrim([c] + t, cs) == t
  {
    assert ([c] + t)[1..] == t;
  }

  /** rtrim takes off one trailing trimmed character after clean text. */
  lemma RTrimOne(t: string, c: char, cs: set<char>)
    requires c in cs && (t == [] || t[|t| - 1] !in cs)
    ensures RTrim(t + [c], cs) == t
  {
    assert (t + [c])[..|t|] == t;
  }

  /** A trimmed string neither starts nor ends with a trimmed character. */
  lemma TrimmedEnds(s: string, cs: set<char>)
    ensures var t := Trim(s, cs); t == [] || (t[0] !in cs && t[|t| - 1] !in cs)
  {
    var l := LTrim(s, cs);
    var t := RTrim(l, cs);
    if t != [] {
      assert t[0] == l[0];
    }
  }

  /** trim cuts a run of characters of cs from each end and keeps the slice between. */
  lemma TrimIsSlice(s: string, cs: set<char>)
    ensures exists i, j ::
      (&& 0 <= i <= j <= |s| && Trim(s, cs) == s[i..j]
       && (forall m :: 0 <= m < i ==> s[m] in cs) && (forall m :: j <= m < |s| ==> s[m] in cs))
  {
    var i, j := TrimBounds(s, cs);
  }

  /** The two cut points of trim. */
  lemma TrimBounds(s: string, cs: set<char>) returns (i: nat, j: nat)
    ensures i <= j <= |s| && Trim(s, cs) == s[i..j]
    ensures forall m :: 0 <= m < i ==> s[m] in cs
    ensures forall m :: j <= m < |s| ==> s[m] in cs
  {
    var l := LTrim(s, cs);
    i := |s| - |l|;
    assert l == s[i..];
    var t := RTrim(l, cs);
    j := i + |t|;
    assert t == l[..|t|];
    assert l[..|t|] == s[i..j];
    forall m | j <= m < |s| ensures s[m] in cs {
      assert s[m] == l[m - i];
    }
  }

  /** Trimming only removes characters: one absent before is absent after. */
  lemma TrimKeepsAbsent(s: string, cs: set<char>, c: char)
    requires c !in s
    ensures c !in Trim(s, cs)
  {
    var l := LTrim(s, cs);
    assert forall i :: 0 <= i < |l| ==> l[i] == s[|s| - |l| + i];
    var r := RTrim(l, cs);
    assert forall i :: 0 <= i < |r| ==> r[i] == l[i];
  }

  /** Trimming a string that trim has already produced changes nothing. */
  lemma TrimIdempotent(s: string, cs: set<char>)
    ensures Trim(Trim(s, cs), cs) == Trim(s, cs)
  {
    var t := Trim(s, cs);
    var l := LTrim(s, cs);
    assert t == RTrim(l, cs);
    if t != [] {
      assert t[0] == l[0];
    }
    LTrimOfClean(t, cs);
    RTrimOfClean(t, cs);
  }

  /** Padding trimmed text with one space each side, then trimming, gives the text back. */
  lemma TrimPadded(t: string, cs: set<char>)
    requires ' ' in cs
    requires t == [] || (t[0] !in cs && t[|t| - 1] !in cs)
    ensures Trim(" " + t + " ", cs) == t
  {
    var v := t + " ";
    assert " " + t + " " == [' '] + v;
    if t == [] {
      assert ([' '] + v)[1..] == v && v[1..] == [];
      assert LTrim([' '] + v, cs) == [];
    } else {
      TrimPaddedNonEmpty(t, v, cs);
    }
  }

  /** The case of TrimPadded with text between the spaces. */
  lemma TrimPaddedNonEmpty(t: string, v: string, cs: set<char>)
    requires ' ' in cs && t != [] && t[0] !in cs && t[|t| - 1] !in cs
    requires v == t + " "
    ensures RTrim(LTrim([' '] + v, cs), cs) == t
  {
    assert v[0] == t[0];
    LTrimOne(' ', v, cs);
    RTrimOne(t, ' ', cs);
  }

  // ---------------------------------------------------------------- search

  /** p occurs in s starting at index j. */
  predicate OccursAt(s: string, p: string, j: int) {
    0 <= j && j + |p| <= |s| && s[j..j + |p|] == p
  }

  /** strpos(s, p, from): the first index at or after `from` where p occurs. */
  function IndexFrom(s: string, p: string, from: nat): (r: Option<nat>)
    requires p != []
    ensures r.Some? ==> from <= r.value && OccursAt(s, p, r.value)
    ensures r.Some? ==> forall j :: from <= j < r.value ==> !OccursAt(s, p, j)
    ensures r.None? ==> forall j :: from <= j ==> !OccursAt(s, p, j)
    decreases |s| - from
  {
    if from + |p| > |s| then None
    else if s[from..from + |p|] == p then Some(from)
    else IndexFrom(s, p, from + 1)
  }

  /** strpos(s, p) and the position strstr(s, p) cuts at: the first occurrence of p in s. */
  function IndexOf(s: string, p: string): (r: Option<nat>)
    requires p != []
    ensures r.Some? ==> OccursAt(s, p, r.value) && forall j :: 0 <= j < r.value ==> !OccursAt(s, p, j)
    ensures r.None? ==> forall j :: !OccursAt(s, p, j)
  {
    IndexFrom(s, p, 0)
  }

  /** Whether strstr(s, p) is truthy, or strpos(s, p) !== false: p occurs somewhere in s. */
  predicate Contains(s: string, p: string): (b: bool)
    requires p != []
    ensures b <==> exists j :: OccursAt(s, p, j)
  {
    IndexOf(s, p).Some?
  }

  /** ASCII lower-casing, as PHP's case-insensitive search does in the C locale. */
  function LowerChar(c: char): char {
    if 'A' <= c <= 'Z' then (c as int + 32) as char else c
  }

  function Lower(s: string): (r: string)
    ensures |r| == |s| && forall i :: 0 <= i < |s| ==> r[i] == LowerChar(s[i])
  {
    seq(|s|, i requires 0 <= i < |s| => LowerChar(s[i]))
  }

  /** p, which is lower case, occurs in s at index j when case is ignored. */
  predicate OccursAtIgnoreCase(s: string, p: string, j: int) {
    0 <= j && j + |p| <= |s| && Lower(s[j..j + |p|]) == p
  }

  /** The position stristr(s, p) finds, for a lower-case p: the first case-insensitive match. */
  function IndexOfIgnoreCase(s: string, p: string): (r: Option<nat>)
    requires p != []
    ensures r.Some? ==> OccursAtIgnoreCase(s, p, r.value)
    ensures r.Some? ==> forall j :: 0 <= j < r.value ==> !OccursAtIgnoreCase(s, p, j)
    ensures r.None? ==> forall j :: !OccursAtIgnoreCase(s, p, j)
  {
    LowerOccurrences(s, p);
    IndexOf(Lower(s), p)
  }

  /** Matching in the lower-cased string is matching with case ignored. */
  lemma LowerOccurrences(s: string, p: string)
    ensures forall j :: OccursAt(Lower(s), p, j) <==> OccursAtIgnoreCase(s, p, j)
  {
    forall j | 0 <= j && j + |p| <= |s|
      ensures OccursAt(Lower(s), p, j) <==> OccursAtIgnoreCase(s, p, j)
    {
      assert Lower(s)[j..j + |p|] == Lower(s[j..j + |p|]);
    }
  }

  // ---------------------------------------------------------------- explode / implode

  /** A prefix that ends before the first occurrence of p does not contain p. */
  lemma NoOccurrenceBefore(s: string, p: string, i: nat)
    requires p != [] && i <= |s|
    requires forall j :: 0 <= j < i ==> !OccursAt(s, p, j)
    ensures !Contains(s[..i], p)
  {
    var r := IndexOf(s[..i], p);
    if r.Some? {
      assert s[..i][r.value..r.value + |p|] == s[r.value..r.value + |p|];
      assert OccursAt(s, p, r.value);
    }
  }

  /** explode(sep, s): the pieces between the occurrences of sep, left to right. */
  function Explode(s: string, sep: string): (pieces: seq<string>)
    requires sep != []
    ensures |pieces| >= 1
    ensures forall k :: 0 <= k < |pieces| ==> !Contains(pieces[k], sep)
    decreases |s|
  {
    match IndexOf(s, sep)
    case None => NoOccurrenceBefore(s, sep, |s|); assert s[..|s|] == s; [s]
    case Some(i) => NoOccurrenceBefore(s, sep, i); [s[..i]] + Explode(s[i + |sep|..], sep)
  }

  /** implode(sep, pieces). */
  function Join(pieces: seq<string>, sep: string): string {
    if |pieces| == 0 then ""
    else if |pieces| == 1 then pieces[0]
    else pieces[0] + sep + Join(pieces[1..], sep)
  }

  /** Joining the pieces of explode with the separator gives back the string. */
  lemma {:induction false} ExplodeJoin(s: string, sep: string)
    requires sep != []
    ensures Join(Explode(s, sep), sep) == s
  {
    match IndexOf(s, sep)
    case None =>
    case Some(i) =>
      var rest := s[i + |sep|..];
      var e := Explode(rest, sep);
      ExplodeJoin(rest, sep);
      var pieces := [s[..i]] + e;
      assert Explode(s, sep) == pieces;
      assert pieces[1..] == e;
      assert Join(pieces, sep) == s[..i] + sep + Join(e, sep);
      assert OccursAt(s, sep, i);
      assert s[i..i + |sep|] == sep;
      assert s == s[..i] + s[i..i + |sep|] + rest;
  }

  /** Joining one more piece adds the separator and the piece at the end. */
  lemma {:induction false} JoinSnoc(init: seq<string>, x: string, sep: string)
    ensures Join(init + [x], sep) == if init == [] then x else Join(init, sep) + sep + x
  {
    if |init| >= 2 {
      assert (init + [x])[1..] == init[1..] + [x];
      JoinSnoc(init[1..], x, sep);
    } else if |init| == 1 {
      assert (init + [x])[1..] == [x];
    } else {
      assert init + [x] == [x];
    }
  }

  /** The first piece of explode is everything before the first separator. */
  lemma ExplodeFirst(s: string, sep: string)
    requires sep != []
    ensures Explode(s, sep)[0] == match IndexOf(s, sep) case None => s case Some(i) => s[..i]
  {
  }

  /** A string that lacks the first character of p does not contain p. */
  lemma NotContainsLead(s: string, p: string)
    requires p != [] && p[0] !in s
    ensures !Contains(s, p)
  {
    forall j | 0 <= j && j + |p| <= |s| ensures !OccursAt(s, p, j) {
      assert s[j..j + |p|][0] == s[j];
    }
  }

  /** The first occurrence is the one strpos reports. */
  lemma FirstOccurrence(s: string, p: string, i: nat)
    requires p != [] && OccursAt(s, p, i)
    requires forall j :: 0 <= j < i ==> !OccursAt(s, p, j)
    ensures IndexOf(s, p) == Some(i)
  {
  }

  /** The first case-insensitive occurrence is the one stristr reports. */
  lemma FirstOccurrenceIgnoreCase(s: string, p: string, i: nat)
    requires p != [] && OccursAtIgnoreCase(s, p, i)
    requires forall j :: 0 <= j < i ==> !OccursAtIgnoreCase(s, p, j)
    ensures IndexOfIgnoreCase(s, p) == Some(i)
  {
  }

  /** One separator between two pieces, with no other occurrence: explode yields the two pieces. */
  lemma ExplodeTwo(a: string, sep: string, b: string)
    requires sep != []
    requires forall j :: 0 <= j < |a| ==> !OccursAt(a + sep + b, sep, j)
    requires !Contains(b, sep)
    ensures Explode(a + sep + b, sep) == [a, b]
  {
    var s := a + sep + b;
    assert s[|a|..|a| + |sep|] == sep;
    FirstOccurrence(s, sep, |a|);
    assert s[..|a|] == a;
    assert s[|a| + |sep|..] == b;
  }

  /** A single-character separator absent from the first piece: explode splits there first. */
  lemma ExplodeHeadAtChar(a: string, c: char, rest: string)
    requires c !in a
    ensures Explode(a + [c] + rest, [c]) == [a] + Explode(rest, [c])
  {
    var s := a + [c] + rest;
    assert s[|a|..|a| + 1] == [c];
    forall j | 0 <= j < |a| ensures !OccursAt(s, [c], j) {
      assert s[j..j + 1][0] == a[j];
    }
    FirstOccurrence(s, [c], |a|);
    assert s[..|a|] == a;
    assert s[|a| + 1..] == rest;
  }

  /** With a single-character separator found once, explode splits around it. */
  lemma ExplodeAtChar(a: string, c: char, b: string)
    requires c !in a && c !in b
    ensures Explode(a + [c] + b, [c]) == [a, b]
  {
    var s := a + [c] + b;
    forall j | 0 <= j < |a| ensures !OccursAt(s, [c], j) {
      assert s[j] == a[j];
      assert s[j..j + 1][0] == s[j];
    }
    NotContainsLead(b, [c]);
    ExplodeTwo(a, [c], b);
  }

  // ---------------------------------------------------------------- addslashes

  /** addslashes: a backslash before ', " and \, and NUL written as backslash-zero. */
  function AddSlashes(s: string): string
    decreases |s|
  {
    if s == [] then []
    else
      (if s[0] == '\0' then "\\0"
       else if s[0] == '\'' || s[0] == '"' || s[0] == '\\' then ['\\', s[0]]
       else [s[0]])
      + AddSlashes(s[1..])
  }

  /** stripslashes, the inverse PHP provides: drops each escaping backslash, reads backslash-zero as NUL. */
  function StripSlashes(s: string): string
    decreases |s|
  {
    if s == [] then []
    else if s[0] == '\\' && |s| >= 2 then (if s[1] == '0' then ['\0'] else [s[1]]) + StripSlashes(s[2..])
    else if s[0] == '\\' then []
    else [s[0]] + StripSlashes(s[1..])
  }

  /** Escaping loses nothing: stripslashes recovers the original value. */
  lemma {:induction false} StripAddSlashes(s: string)
    ensures StripSlashes(AddSlashes(s)) == s
  {
    if s != [] {
      StripAddSlashes(s[1..]);
      var rest := AddSlashes(s[1..]);
      if s[0] == '\0' {
        assert AddSlashes(s) == "\\0" + rest;
        assert (AddSlashes(s))[2..] == rest;
      } else if s[0] == '\'' || s[0] == '"' || s[0] == '\\' {
        assert AddSlashes(s) == ['\\', s[0]] + rest;
        assert (AddSlashes(s))[2..] == rest;
      } else {
        assert AddSlashes(s) == [s[0]] + rest;
        assert (AddSlashes(s))[1..] == rest;
      }
      assert s == [s[0]] + s[1..];
    }
  }

  // ---------------------------------------------------------------- numbers

  predicate IsDigit(c: char) {
    '0' <= c <= '9'
  }

  function DigitChar(d: nat): (c: char)
    requires d < 10
    ensures IsDigit(c)
  {
    ('0' as int + d) as char
  }

  /** The decimal text of a natural number, as PHP's (string) cast writes it. */
  function NatToString(n: nat): (r: string)
    ensures r != [] && forall i :: 0 <= i < |r| ==> IsDigit(r[i])
    ensures n < 10 <==> |r| == 1
    ensures DecimalValue(r) == n
    ensures r[0] == '0' <==> n == 0
    decreases n
  {
    if n < 10 then [DigitChar(n)]
    else
      var r := NatToString(n / 10) + [DigitChar(n % 10)];
      assert r[..|r| - 1] == NatToString(n / 10);
      r
  }

  /** A non-empty run of decimal digits without a leading zero, or "0" itself. */
  ghost predicate DecimalText(r: string) {
    && r != [] && (forall i :: 0 <= i < |r| ==> IsDigit(r[i]))
    && (r[0] == '0' ==> r == "0")
  }

  /** The number a string of decimal digits denotes. */
  function DecimalValue(r: string): nat
    requires forall i :: 0 <= i < |r| ==> IsDigit(r[i])
  {
    if r == [] then 0
    else
      assert IsDigit(r[|r| - 1]);
      DecimalValue(r[..|r| - 1]) * 10 + (r[|r| - 1] as int - '0' as int)
  }

  /** Distinct numbers have distinct decimal texts. */
  lemma {:induction false} NatToStringInjective(a: nat, b: nat)
    requires NatToString(a) == NatToString(b)
    ensures a == b
    decreases a
  {
    if 10 <= a {
      var sa, sb := NatToString(a), NatToString(b);
      assert sa[|sa| - 1] == DigitChar(a % 10);
      assert sb[|sb| - 1] == DigitChar(b % 10);
      assert sa[..|sa| - 1] == NatToString(a / 10);
      assert sb[..|sb| - 1] == NatToString(b / 10);
      NatToStringInjective(a / 10, b / 10);
    }
  }

  /** The decimal text of an integer, with a leading minus sign when negative. */
  function IntToString(i: int): (r: string)
    ensures |r| >= 1 && (r[0] == '-' <==> i < 0)
    ensures i < 0 ==> DecimalText(r[1..]) && DecimalValue(r[1..]) == -i
    ensures 0 <= i ==> DecimalText(r) && DecimalValue(r) == i
  {
    if i < 0 then "-" + NatToString(-i) else NatToString(i)
  }

  /** The number of leading decimal digits of s. */
  function DigitRun(s: string): (n: nat)
    ensures n <= |s| && forall i :: 0 <= i < n ==> IsDigit(s[i])
    ensures n == |s| || !IsDigit(s[n])
  {
    if s != [] && IsDigit(s[0]) then 1 + DigitRun(s[1..]) else 0
  }

  /** The white space that is_numeric accepts before a number. */
  const NumericLeadingSpace: set<char> := {' ', '\t', '\n', '\r', '\U{0B}', '\U{0C}'}

  /** An optional exponent: e or E, an optional sign, at least one digit. */
  predicate ExponentOk(e: string) {
    e == [] ||
    (e[0] in {'e', 'E'} &&
     var f := if |e| > 1 && e[1] in {'+', '-'} then e[2..] else e[1..];
     f != [] && DigitRun(f) == |f|)
  }

  /**
   * is_numeric on a string (PHP 7): leading white space, an optional sign,
   * digits with an optional decimal point (at least one digit in all), an
   * optional exponent, and nothing after.
   */
  predicate IsNumericString(s: string) {
    var t := LTrim(s, NumericLeadingSpace);
    var u := if t != [] && (t[0] == '+' || t[0] == '-') then t[1..] else t;
    var i := DigitRun(u);
    if i < |u| && u[i] == '.' then
      var j := DigitRun(u[i + 1..]);
      (i > 0 || j > 0) && ExponentOk(u[i + 1 + j..])
    else
      i > 0 && ExponentOk(u[i..])
  }

  /** Every decimal text that IntToString writes is numeric for is_numeric. */
  lemma IntTextIsNumeric(n: int)
    ensures IsNumericString(IntToString(n))
  {
    var s := IntToString(n);
    var d := NatToString(if n < 0 then -n else n);
    assert s[0] !in NumericLeadingSpace;
    LTrimOfClean(s, NumericLeadingSpace);
    var u := if s[0] == '-' then s[1..] else s;
    assert u == d;
    DigitsRunToEnd(d);
  }

  lemma {:induction false} DigitsRunToEnd(s: string)
    requires forall i :: 0 <= i < |s| ==> IsDigit(s[i])
    ensures DigitRun(s) == |s|
  {
    if s != [] {
      DigitsRunToEnd(s[1..]);
    }
  }
}
