/** The string operations of the JavaScript runtime that the generator relies on:
    `trim`, ASCII case mapping, `includes`, `split`/`join` (over a substring
    search), the regular-expression helpers it uses, and decimal rendering
    and parsing of integers. Strings are sequences of characters. */
module Strings {
  import opened Options

  /** The characters that JavaScript's `trim` removes and that the regular
      expression class `\s` matches: TAB, LF, VT, FF, CR, SPACE, NO-BREAK SPACE,
      OGHAM SPACE MARK, U+2000 to U+200A, LINE and PARAGRAPH SEPARATOR, NARROW
      NO-BREAK SPACE, MEDIUM MATHEMATICAL SPACE, IDEOGRAPHIC SPACE and the byte
      order mark. */
  predicate IsSpace(c: char) {
    || c == ' ' || '\t' <= c <= '\r' || c == '\U{A0}' || c == '\U{1680}'
    || '\U{2000}' <= c <= '\U{200A}' || c == '\U{2028}' || c == '\U{2029}'
    || c == '\U{202F}' || c == '\U{205F}' || c == '\U{3000}' || c == '\U{FEFF}'
  }

  predicate IsDigit(c: char) { '0' <= c <= '9' }
  predicate IsUpper(c: char) { 'A' <= c <= 'Z' }
  predicate IsLower(c: char) { 'a' <= c <= 'z' }
  predicate IsLetter(c: char) { IsUpper(c) || IsLower(c) }

  function LowerChar(c: char): char {
    if IsUpper(c) then (c as int + 32) as char else c
  }

  function UpperChar(c: char): char {
    if IsLower(c) then (c as int - 32) as char else c
  }

  /** `toLowerCase`, restricted to the ASCII letters. */
  function Lower(s: string): string {
    seq(|s|, i requires 0 <= i < |s| => LowerChar(s[i]))
  }

  /** Text without upper-case letters is its own lower case. */
  lemma LowerFixed(s: string)
    requires forall i :: 0 <= i < |s| ==> !IsUpper(s[i])
    ensures Lower(s) == s
  {
  }

  /** `toUpperCase`, restricted to the ASCII letters. */
  function Upper(s: string): string {
    seq(|s|, i requires 0 <= i < |s| => UpperChar(s[i]))
  }

  lemma LowerAppend(a: string, b: string)
    ensures Lower(a + b) == Lower(a) + Lower(b)
  {
    assert forall i :: 0 <= i < |a + b| ==> Lower(a + b)[i] == (Lower(a) + Lower(b))[i];
  }

  /** Case mapping only ever changes letters, so it is idempotent and the
      lower-case form of a string does not depend on its original case. */
  lemma CaseMappingLaws(s: string)
    ensures Lower(Lower(s)) == Lower(s) && Upper(Upper(s)) == Upper(s)
    ensures Lower(Upper(s)) == Lower(s) && Upper(Lower(s)) == Upper(s)
  {
  }

  // ----- trim -----

  /** The input without its leading white space. */
  function TrimStart(s: string): (r: string)
    ensures |r| <= |s| && r == s[|s| - |r|..]
  {
    if s != [] && IsSpace(s[0]) then TrimStart(s[1..]) else s
  }

  /** Leading white space of `a` is all `TrimStart` removes from `a + b`
      when `b` starts with a non-space character. */
  lemma {:induction false} TrimStartAppend(a: string, b: string)
    requires b != [] && !IsSpace(b[0])
    ensures TrimStart(a + b) == TrimStart(a) + b
    decreases |a|
  {
    if a == [] {
      assert a + b == b;
    } else if IsSpace(a[0]) {
      assert (a + b)[1..] == a[1..] + b;
      TrimStartAppend(a[1..], b);
    }
  }

  /** So the full trim of `a + b` is that of `a`'s trimmed start and `b`. */
  lemma TrimAppend(a: string, b: string)
    requires b != [] && !IsSpace(b[0])
    ensures Trim(a + b) == Trim(TrimStart(a) + b)
  {
    var a' := TrimStart(a);
    var s' := a' + b;
    TrimStartAppend(a, b);
    TrimStartSpaces(a);
    assert s'[0] == if a' == [] then b[0] else a'[0];
    TrimStartAppend([], s');
    assert [] + s' == s';
  }

  /** Trimming what is already trimmed at the start changes nothing. */
  lemma TrimOfTrimStart(s: string)
    ensures Trim(TrimStart(s)) == Trim(s)
  {
    TrimStartSpaces(s);
    var t := TrimStart(s);
    if t != [] {
      TrimStartAppend([], t);
      assert [] + t == t;
    }
  }

  /** The input without its trailing white space. */
  function TrimEnd(s: string): (r: string)
    ensures |r| <= |s| && r == s[..|r|]
  {
    if s != [] && IsSpace(s[|s| - 1]) then TrimEnd(s[..|s| - 1]) else s
  }

  /** `TrimStart` removes white space only, and all of it. */
  lemma {:induction false} TrimStartSpaces(s: string)
    ensures forall i :: 0 <= i < |s| - |TrimStart(s)| ==> IsSpace(s[i])
    ensures TrimStart(s) != [] ==> !IsSpace(TrimStart(s)[0])
    decreases |s|
  {
    if s != [] && IsSpace(s[0]) {
      TrimStartSpaces(s[1..]);
      assert forall i :: 1 <= i < |s| ==> s[i] == s[1..][i - 1];
    }
  }

  /** `TrimEnd` removes white space only, and all of it. */
  lemma {:induction false} TrimEndSpaces(s: string)
    ensures forall i :: |TrimEnd(s)| <= i < |s| ==> IsSpace(s[i])
    ensures TrimEnd(s) != [] ==> !IsSpace(TrimEnd(s)[|TrimEnd(s)| - 1])
    decreases |s|
  {
    if s != [] && IsSpace(s[|s| - 1]) {
      TrimEndSpaces(s[..|s| - 1]);
    }
  }

  /** JavaScript's `trim`: the slice of the input left once its leading and
      trailing white space is removed. */
  function Trim(s: string): (r: string)
    ensures |r| <= |TrimStart(s)| <= |s|
    ensures r == s[|s| - |TrimStart(s)|..|s| - |TrimStart(s)| + |r|]
  {
    TrimEnd(TrimStart(s))
  }

  /** What `trim` removes is white space. */
  lemma TrimSpaces(s: string)
    ensures forall i :: 0 <= i < |s| - |TrimStart(s)| ==> IsSpace(s[i])
    ensures forall i :: |s| - |TrimStart(s)| + |Trim(s)| <= i < |s| ==> IsSpace(s[i])
  {
    var t := TrimStart(s);
    var k := |s| - |t|;
    var r := TrimEnd(t);
    TrimStartSpaces(s);
    TrimEndSpaces(t);
    assert Trim(s) == r && t == s[k..];
    forall i | k + |r| <= i < |s| ensures IsSpace(s[i]) {
      assert |r| <= i - k < |t| && t[i - k] == s[i];
    }
  }

  /** `trim` leaves no white space at either end. */
  lemma TrimEnds(s: string)
    ensures Trim(s) != [] ==> !IsSpace(Trim(s)[0]) && !IsSpace(Trim(s)[|Trim(s)| - 1])
  {
    var t := TrimStart(s);
    TrimStartSpaces(s);
    TrimEndSpaces(t);
    if Trim(s) != [] {
      assert Trim(s)[0] == t[0];
    }
  }

  /** A string without white space is left alone by `trim`. */
  lemma TrimNoSpace(s: string)
    requires forall i :: 0 <= i < |s| ==> !IsSpace(s[i])
    ensures Trim(s) == s
  {
    TrimSpaces(s);
  }

  /** Trimming keeps exactly the characters of the input that are not
      leading or trailing white space: the result is the window of the input
      that starts after the leading white space, and every non-space
      character of the input lies inside that window. */
  lemma TrimChars(s: string)
    ensures forall i :: 0 <= i < |Trim(s)| ==> Trim(s)[i] == s[|s| - |TrimStart(s)| + i]
    ensures forall i :: 0 <= i < |s| && !IsSpace(s[i]) ==>
      |s| - |TrimStart(s)| <= i < |s| - |TrimStart(s)| + |Trim(s)|
  {
    TrimSpaces(s);
  }

  /** Text that starts with a non-space character keeps its start under
      `trim`, and keeps at least up to any later non-space character. */
  lemma TrimKeeps(s: string, n: nat)
    requires 0 < n <= |s| && !IsSpace(s[0]) && !IsSpace(s[n - 1])
    ensures n <= |Trim(s)| && Trim(s) == s[..|Trim(s)|]
  {
    TrimSpaces(s);
  }

  /** `trim` is idempotent. */
  lemma TrimTwice(s: string)
    ensures Trim(Trim(s)) == Trim(s)
  {
    var t := Trim(s);
    if t != [] {
      TrimEnds(s);
      TrimKeeps(t, |t|);
    }
  }

  // ----- filtering and tokens -----

  /** The characters of `s` that satisfy `keep`, in order. */
  function Filter(s: string, keep: char -> bool): (r: string)
    ensures |r| <= |s|
  {
    if s == [] then [] else (if keep(s[0]) then [s[0]] else []) + Filter(s[1..], keep)
  }

  /** `Filter` keeps exactly the characters of `s` that satisfy `keep`. */
  lemma {:induction false} FilterChars(s: string, keep: char -> bool)
    ensures forall c :: c in Filter(s, keep) <==> c in s && keep(c)
    decreases |s|
  {
    if s != [] {
      FilterChars(s[1..], keep);
      assert s == [s[0]] + s[1..];
    }
  }

  /** When every character is kept, `Filter` changes nothing. */
  lemma {:induction false} FilterAll(s: string, keep: char -> bool)
    requires forall i :: 0 <= i < |s| ==> keep(s[i])
    ensures Filter(s, keep) == s
    decreases |s|
  {
    if s != [] {
      assert keep(s[0]);
      FilterAll(s[1..], keep);
    }
  }

  /** `s.split(/\s+/)[0]`: the prefix of `s` before its first white space. */
  function FirstToken(s: string): (r: string)
    ensures |r| <= |s| && r == s[..|r|]
    ensures forall i :: 0 <= i < |r| ==> !IsSpace(r[i])
    ensures |r| < |s| ==> IsSpace(s[|r|])
  {
    if s == [] || IsSpace(s[0]) then [] else [s[0]] + FirstToken(s[1..])
  }

  /** The longest prefix of `s` made of digits. */
  function LeadingDigits(s: string): (r: string)
    ensures |r| <= |s| && r == s[..|r|]
    ensures forall i :: 0 <= i < |r| ==> IsDigit(r[i])
    ensures |r| < |s| ==> !IsDigit(s[|r|])
  {
    if s == [] || !IsDigit(s[0]) then [] else [s[0]] + LeadingDigits(s[1..])
  }

  /** `run` starts at `start` in `s`, no digit comes before it, and it cannot
      be extended by a digit. */
  ghost predicate FirstRunAt(s: string, run: string, start: int) {
    && 0 <= start && start + |run| <= |s| && s[start..start + |run|] == run
    && (forall j :: 0 <= j < start ==> !IsDigit(s[j]))
    && (start + |run| == |s| || !IsDigit(s[start + |run|]))
  }

  /** The match of the regular expression `(\d+)`: the first maximal run of
      digits, or nothing when `s` holds no digit. */
  function FirstDigitRun(s: string): (r: Option<string>)
    ensures r.None? <==> forall i :: 0 <= i < |s| ==> !IsDigit(s[i])
    ensures r.Some? ==> r.value != [] && forall i :: 0 <= i < |r.value| ==> IsDigit(r.value[i])
    ensures r.Some? ==> exists start :: FirstRunAt(s, r.value, start)
  {
    if s == [] then None
    else if IsDigit(s[0]) then
      var run := LeadingDigits(s);
      assert FirstRunAt(s, run, 0);
      Some(run)
    else
      var r := FirstDigitRun(s[1..]);
      assert r.Some? ==> exists start :: FirstRunAt(s, r.value, start) by {
        if r.Some? {
          var st :| FirstRunAt(s[1..], r.value, st);
          assert s[st + 1..st + 1 + |r.value|] == s[1..][st..st + |r.value|];
          assert FirstRunAt(s, r.value, st + 1);
        }
      }
      r
  }

  /** Text without digits in front of `s` does not change its first digit run. */
  lemma {:induction false} FirstDigitRunSkips(a: string, b: string)
    requires forall i :: 0 <= i < |a| ==> !IsDigit(a[i])
    ensures FirstDigitRun(a + b) == FirstDigitRun(b)
  {
    if a == [] {
      assert a + b == b;
    } else {
      var ab := a + b;
      assert ab[0] == a[0] && !IsDigit(ab[0]);
      assert ab[1..] == a[1..] + b;
      assert FirstDigitRun(ab) == FirstDigitRun(ab[1..]);
      FirstDigitRunSkips(a[1..], b);
    }
  }

  // ----- search -----

  /** The pattern `p` occurs in `s` at position `i`. */
  predicate OccursAt(s: string, p: string, i: int) {
    0 <= i && i + |p| <= |s| && s[i..i + |p|] == p
  }

  /** `s.indexOf(p, from)`: the first position at or after `from` where `p`
      occurs, or -1. */
  function IndexOf(s: string, p: string, from: nat): (r: int)
    ensures r == -1 || (from <= r && OccursAt(s, p, r))
    ensures forall j :: from <= j && (r == -1 || j < r) ==> !OccursAt(s, p, j)
    decreases |s| - from
  {
    if from + |p| > |s| then -1
    else if s[from..from + |p|] == p then from
    else IndexOf(s, p, from + 1)
  }

  /** `s.includes(p)`. */
  function Includes(s: string, p: string): (b: bool)
    ensures b <==> exists i :: OccursAt(s, p, i)
  {
    IndexOf(s, p, 0) >= 0
  }

  /** A string that includes a one-character pattern holds that character and
      conversely. */
  lemma IncludesChar(s: string, c: char)
    ensures Includes(s, [c]) <==> c in s
  {
    if c in s {
      var i :| 0 <= i < |s| && s[i] == c;
      assert OccursAt(s, [c], i);
    }
    if Includes(s, [c]) {
      var i :| OccursAt(s, [c], i);
      assert s[i] == s[i..i + 1][0];
    }
  }

  /** A pattern whose first character is missing from `s` does not occur in it. */
  lemma AbsentFirstChar(s: string, p: string)
    requires p != [] && p[0] !in s
    ensures !Includes(s, p)
  {
  }

  lemma OccursInPrefix(s: string, p: string, n: nat, j: int)
    requires n <= |s| && OccursAt(s[..n], p, j)
    ensures OccursAt(s, p, j)
  {
    assert s[..n][j..j + |p|] == s[j..j + |p|];
  }

  lemma OccursInSuffix(s: string, p: string, n: nat, j: int)
    requires n <= |s| && OccursAt(s[n..], p, j)
    ensures OccursAt(s, p, n + j)
  {
    assert s[n..][j..j + |p|] == s[n + j..n + j + |p|];
  }

  // ----- split and join -----

  /** `parts.join(sep)`. */
  function Join(parts: seq<string>, sep: string): string {
    if |parts| == 0 then ""
    else if |parts| == 1 then parts[0]
    else parts[0] + sep + Join(parts[1..], sep)
  }

  /** `s.split(sep)` for a string separator: the pieces between the
      occurrences of `sep` found scanning from the left. For an empty
      separator JavaScript splits into single characters. */
  function Split(s: string, sep: string): (parts: seq<string>)
    ensures sep != [] ==> |parts| >= 1
    decreases |s|
  {
    if sep == [] then seq(|s|, i requires 0 <= i < |s| => [s[i]])
    else
      var i := IndexOf(s, sep, 0);
      if i < 0 then [s]
      else [s[..i]] + Split(s[i + |sep|..], sep)
  }

  /** The first piece of a split is the text before the first occurrence of
      the separator, or the whole text when there is none. */
  lemma SplitFirst(s: string, sep: string)
    requires sep != []
    ensures IndexOf(s, sep, 0) < 0 ==> Split(s, sep) == [s]
    ensures IndexOf(s, sep, 0) >= 0 ==> Split(s, sep)[0] == s[..IndexOf(s, sep, 0)]
  {
  }

  /** There is more than one piece exactly when the separator occurs. */
  lemma SplitSingle(s: string, sep: string)
    requires sep != []
    ensures |Split(s, sep)| == 1 <==> !Includes(s, sep)
  {
    var i := IndexOf(s, sep, 0);
    if i >= 0 {
      assert |Split(s[i + |sep|..], sep)| >= 1;
    }
  }

  /** Joining the pieces with the separator gives back the text. */
  lemma {:induction false} SplitJoin(s: string, sep: string)
    requires sep != []
    ensures Join(Split(s, sep), sep) == s
    decreases |s|
  {
    var i := IndexOf(s, sep, 0);
    if i >= 0 {
      var rest := Split(s[i + |sep|..], sep);
      SplitJoin(s[i + |sep|..], sep);
      assert ([s[..i]] + rest)[1..] == rest;
      assert s == s[..i] + sep + s[i + |sep|..];
    }
  }

  /** No piece contains the separator. */
  lemma {:induction false} SplitPieces(s: string, sep: string)
    requires sep != []
    ensures forall j :: 0 <= j < |Split(s, sep)| ==> !Includes(Split(s, sep)[j], sep)
    decreases |s|
  {
    var i := IndexOf(s, sep, 0);
    if i >= 0 {
      var rest := Split(s[i + |sep|..], sep);
      SplitPieces(s[i + |sep|..], sep);
      assert !Includes(s[..i], sep) by {
        forall j | OccursAt(s[..i], sep, j) ensures false {
          OccursInPrefix(s, sep, i, j);
        }
      }
      assert forall j :: 1 <= j < |Split(s, sep)| ==> Split(s, sep)[j] == rest[j - 1];
    }
  }

  /** Every character of a piece is a character of the text. */
  lemma {:induction false} SplitChars(s: string, sep: string)
    ensures forall j, k :: 0 <= j < |Split(s, sep)| && 0 <= k < |Split(s, sep)[j]| ==> Split(s, sep)[j][k] in s
    decreases |s|
  {
    var parts := Split(s, sep);
    if sep == [] {
      assert forall j :: 0 <= j < |parts| ==> parts[j] == [s[j]];
    } else {
      var i := IndexOf(s, sep, 0);
      if i >= 0 {
        var t := s[i + |sep|..];
        var rest := Split(t, sep);
        SplitChars(t, sep);
        forall j, k | 0 <= j < |parts| && 0 <= k < |parts[j]| ensures parts[j][k] in s {
          if j == 0 {
            assert parts[0][k] == s[k];
          } else {
            assert parts[j] == rest[j - 1];
            assert parts[j][k] in t;
            var q :| 0 <= q < |t| && t[q] == parts[j][k];
            assert s[i + |sep| + q] == t[q];
          }
        }
      }
    }
  }

  /** `s.split(k).join(v)`: every occurrence of `k` found by the left-to-right
      scan replaced by `v`. */
  function ReplaceAll(s: string, k: string, v: string): string {
    Join(Split(s, k), v)
  }

  /** Replacing a key that does not occur changes nothing. */
  lemma ReplaceAllAbsent(s: string, k: string, v: string)
    requires k != [] && !Includes(s, k)
    ensures ReplaceAll(s, k, v) == s
  {
    SplitSingle(s, k);
    SplitFirst(s, k);
  }

  /** Replacing a key by itself changes nothing: the split is undone by the join. */
  lemma ReplaceAllSelf(s: string, k: string)
    requires k != []
    ensures ReplaceAll(s, k, k) == s
  {
    SplitJoin(s, k);
  }

  // ----- integers as text -----

  function DigitChar(d: nat): (c: char)
    requires d < 10
    ensures IsDigit(c) && c as int - '0' as int == d
  {
    ('0' as int + d) as char
  }

  /** `parseInt(s, 10)` on a non-empty string of digits. The empty string,
      for which `parseInt` gives NaN, is given 0 here; the generator never
      passes it, since it substitutes "0" for an empty piece first. */
  function ParseDecimal(s: string): nat
    requires forall i :: 0 <= i < |s| ==> IsDigit(s[i])
  {
    if s == [] then 0
    else
      assert IsDigit(s[|s| - 1]);
      ParseDecimal(s[..|s| - 1]) * 10 + (s[|s| - 1] as int - '0' as int)
  }

  /** `String(n)` for a natural number: its decimal digits, which parse back to `n`. */
  function NatToString(n: nat): (r: string)
    ensures r != [] && forall i :: 0 <= i < |r| ==> IsDigit(r[i])
    ensures ParseDecimal(r) == n
  {
    if n < 10 then [DigitChar(n)]
    else
      var p := NatToString(n / 10);
      var r := p + [DigitChar(n % 10)];
      assert r[..|r| - 1] == p;
      r
  }

  /** `String(n)` for an integer. */
  function IntToString(n: int): (r: string)
    ensures n >= 0 ==> r == NatToString(n)
    ensures n < 0 ==> r == "-" + NatToString(-n)
  {
    if n < 0 then "-" + NatToString(-n) else NatToString(n)
  }
}
