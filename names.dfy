/** `extractFirstName` of lib/generator.js: the first name printed on a
    party sign, read from the "Child Details Name/Age" cell. */
module Names {
  import opened Options
  import opened Strings
  import opened Values

  /** The characters the final clean-up keeps: ASCII letters, apostrophe and hyphen. */
  predicate IsNameChar(c: char) { IsLetter(c) || c == '\'' || c == '-' }

  /** No character of `s` is `c`. */
  predicate Lacks(s: string, c: char) {
    forall i :: 0 <= i < |s| ==> s[i] != c
  }

  /** The text before the first `c`: a prefix of `s` without `c`, followed
      in `s` by `c` unless it is all of `s`. */
  function Before(s: string, c: char): (r: string)
    ensures |r| <= |s| && r == s[..|r|]
    ensures Lacks(r, c)
    ensures |r| < |s| ==> s[|r|] == c
  {
    if s == [] || s[0] == c then [] else [s[0]] + Before(s[1..], c)
  }

  /** `Before` is `s.split(c)[0]`. */
  lemma BeforeIsSplitHead(s: string, c: char)
    ensures Before(s, c) == Split(s, [c])[0]
  {
    SplitFirst(s, [c]);
    var r := Before(s, c);
    if |r| < |s| {
      assert forall j :: 0 <= j < |r| ==> s[j] == r[j];
      IndexOfFirstChar(s, c, 0, |r|);
      assert Split(s, [c])[0] == s[..|r|];
    } else {
      assert r == s;
      assert c !in s by {
        assert Lacks(s, c);
      }
      IncludesChar(s, c);
      assert IndexOf(s, [c], 0) < 0;
    }
  }

  /** The search for a one-character pattern stops at its first occurrence. */
  lemma {:induction false} IndexOfFirstChar(s: string, c: char, from: nat, k: nat)
    requires from <= k < |s| && s[k] == c
    requires forall j :: from <= j < k ==> s[j] != c
    ensures IndexOf(s, [c], from) == k
    decreases k - from
  {
    if from < k {
      assert s[from..from + 1] != [c] by {
        assert s[from..from + 1][0] == s[from];
      }
      IndexOfFirstChar(s, c, from + 1, k);
    } else {
      assert s[k..k + 1] == [c];
    }
  }

  /** A prefix of `s` free of `c` survives the split. */
  lemma BeforeKeeps(s: string, c: char, n: nat)
    requires n <= |s| && forall i :: 0 <= i < n ==> s[i] != c
    ensures n <= |Before(s, c)| && Before(s, c) == s[..|Before(s, c)|]
  {
  }

  /** The cut falls at the first `c`. */
  lemma BeforeAt(s: string, c: char, k: nat)
    requires k < |s| && s[k] == c && forall i :: 0 <= i < k ==> s[i] != c
    ensures Before(s, c) == s[..k]
  {
  }

  /** Text without `c` is not cut. */
  lemma BeforeAbsent(s: string, c: char)
    requires Lacks(s, c)
    ensures Before(s, c) == s
  {
  }

  /** Only the prefix before the first `c` survives. */
  lemma BeforeMark(p: string, c: char, q: string)
    requires Lacks(p, c)
    ensures Before(p + [c] + q, c) == p
  {
    var s := p + [c] + q;
    assert forall i :: 0 <= i < |p| ==> s[i] == p[i];
    BeforeAt(s, c, |p|);
    assert s[..|p|] == p;
  }

  /** The text a first name is read from: `String(val).trim()`, cut at the
      first "(" and then at the first "-", and trimmed again. */
  function Candidate(t: string): string {
    Trim(Before(Before(Trim(t), '('), '-'))
  }

  /** `t.split(/\s+/)[0]` with every character other than a letter, an
      apostrophe or a hyphen removed. */
  function Word(t: string): string {
    Filter(FirstToken(Candidate(t)), IsNameChar)
  }

  /** `first.charAt(0).toUpperCase() + first.slice(1).toLowerCase()`. */
  function Title(w: string): string
    requires w != []
  {
    [UpperChar(w[0])] + Lower(w[1..])
  }

  /** The letter case a sign wants: all capitals for Stompers, title case for Tag X. */
  function Cased(w: string, upper: bool): string
    requires w != []
  {
    if upper then Upper(w) else Title(w)
  }

  /** `extractFirstName(val, upper)`: null for a falsy value, for text that is
      empty once cut and trimmed, and for a first word with no letter, apostrophe
      or hyphen; otherwise that first word, cleaned up, in the requested case. */
  function ExtractFirstName(v: Value, upper: bool): (r: Option<string>)
    ensures r.None? <==> !Truthy(v) || Word(Text(v)) == []
  {
    if !Truthy(v) then None else NameOfText(Text(v), upper)
  }

  /** The part of `extractFirstName` after the falsy test, on `String(val)`. */
  function NameOfText(t: string, upper: bool): (r: Option<string>)
    ensures r.None? <==> Word(t) == []
  {
    NameFrom(Candidate(t), upper)
  }

  /** The first name read from the cut and trimmed text. */
  function NameFrom(c: string, upper: bool): (r: Option<string>)
    ensures r.None? <==> Filter(FirstToken(c), IsNameChar) == []
  {
    if c == [] then None
    else
      var first := Filter(FirstToken(c), IsNameChar);
      if first == [] then None
      else Some(Cased(first, upper))
  }

  /** A cleaned-up first name: non-empty, letters and apostrophes only. */
  predicate Clean(w: string) {
    w != [] && forall i :: 0 <= i < |w| ==> IsLetter(w[i]) || w[i] == '\''
  }

  /** The word a first name comes from never holds a hyphen, since the text
      was cut at the first one, so it is made of letters and apostrophes. */
  lemma WordIsClean(t: string)
    requires Word(t) != []
    ensures Clean(Word(t))
  {
    var b := Before(Before(Trim(t), '('), '-');
    var c := Candidate(t);
    var f := FirstToken(c);
    var w := Word(t);
    TrimChars(b);
    FilterChars(f, IsNameChar);
    forall i | 0 <= i < |w| ensures IsLetter(w[i]) || w[i] == '\'' {
      assert w[i] in w;
      assert w[i] in f;
      var j :| 0 <= j < |f| && f[j] == w[i];
      assert c[j] == b[|b| - |TrimStart(b)| + j];
    }
  }

  /** Case mapping keeps a clean word clean and gives it the requested shape. */
  lemma CasedShape(w: string, upper: bool)
    requires Clean(w)
    ensures Clean(Cased(w, upper)) && |Cased(w, upper)| == |w|
    ensures upper ==> forall i :: 0 <= i < |w| ==> !IsLower(Cased(w, upper)[i])
    ensures !upper ==> !IsLower(Cased(w, upper)[0])
    ensures !upper ==> forall i :: 0 < i < |w| ==> !IsUpper(Cased(w, upper)[i])
  {
    if !upper {
      assert forall i :: 0 < i < |w| ==> Title(w)[i] == LowerChar(w[i]);
    }
  }

  /** Every first name found is non-empty and made of letters and
      apostrophes; in upper mode it has no lower-case letter, otherwise its
      first character is not lower-case and no later one is upper-case. */
  lemma ExtractedShape(v: Value, upper: bool)
    ensures ExtractFirstName(v, upper).Some? ==> Clean(ExtractFirstName(v, upper).value)
    ensures ExtractFirstName(v, upper).Some? && upper ==>
      forall i :: 0 <= i < |ExtractFirstName(v, upper).value| ==> !IsLower(ExtractFirstName(v, upper).value[i])
    ensures ExtractFirstName(v, upper).Some? && !upper ==>
      && !IsLower(ExtractFirstName(v, upper).value[0])
      && forall i :: 0 < i < |ExtractFirstName(v, upper).value| ==> !IsUpper(ExtractFirstName(v, upper).value[i])
  {
    var r := ExtractFirstName(v, upper);
    if r.Some? {
      var w := Word(Text(v));
      WordIsClean(Text(v));
      assert r.value == Cased(w, upper);
      CasedShape(w, upper);
    }
  }

  /** Upper mode gives the title-mode name in capitals. */
  lemma UpperOfTitle(v: Value)
    ensures ExtractFirstName(v, true).None? <==> ExtractFirstName(v, false).None?
    ensures ExtractFirstName(v, true).Some? ==> ExtractFirstName(v, true).value == Upper(ExtractFirstName(v, false).value)
  {
    var w := Word(Text(v));
    if w != [] {
      UpperTitle(w);
    }
  }

  lemma UpperTitle(w: string)
    requires w != []
    ensures Upper(Title(w)) == Upper(w)
  {
    assert forall i :: 0 < i < |w| ==> Title(w)[i] == LowerChar(w[i]);
  }

  /** `FirstToken` stops at the first white space. */
  lemma FirstTokenAt(s: string, n: nat)
    requires n <= |s| && forall i :: 0 <= i < n ==> !IsSpace(s[i])
    requires n == |s| || IsSpace(s[n])
    ensures FirstToken(s) == s[..n]
  {
  }

  /** Text that starts with a clean word, followed by white space or by
      nothing, gives that word as the first name. */
  lemma LeadingWord(s: string, w: string, upper: bool)
    requires Clean(w) && |w| <= |s| && s[..|w|] == w
    requires |w| == |s| || IsSpace(s[|w|])
    ensures ExtractFirstName(Str(s), upper) == Some(Cased(w, upper))
  {
    LeadingToken(s, w);
    FilterAll(w, IsNameChar);
  }

  /** The first token of the cut and trimmed text is the leading word. */
  lemma LeadingToken(s: string, w: string)
    requires Clean(w) && |w| <= |s| && s[..|w|] == w
    requires |w| == |s| || IsSpace(s[|w|])
    ensures FirstToken(Candidate(s)) == w
  {
    assert forall i :: 0 <= i < |w| ==> s[i] == w[i];
    CandidatePrefix(s, |w|);
    TokenOfPrefix(Candidate(s), s, w);
  }

  /** A prefix `c` of `s` at least as long as its leading word has that word
      as its first token. */
  lemma TokenOfPrefix(c: string, s: string, w: string)
    requires Clean(w) && |w| <= |c| <= |s| && s[..|w|] == w
    requires forall i :: 0 <= i < |c| ==> c[i] == s[i]
    requires |w| == |s| || IsSpace(s[|w|])
    ensures FirstToken(c) == w
  {
    var n := |w|;
    assert forall i :: 0 <= i < n ==> c[i] == w[i];
    forall i | 0 <= i < n ensures !IsSpace(c[i]) {
      assert IsLetter(w[i]) || w[i] == '\'';
    }
    FirstTokenAt(c, n);
    assert c[..n] == w;
  }

  /** A prefix without white space at its ends and without a mark survives
      the cutting and trimming. */
  lemma CandidatePrefix(s: string, n: nat)
    requires 0 < n <= |s| && !IsSpace(s[0]) && !IsSpace(s[n - 1])
    requires forall i :: 0 <= i < n ==> s[i] != '(' && s[i] != '-'
    ensures n <= |Candidate(s)| <= |s|
    ensures forall i :: 0 <= i < |Candidate(s)| ==> Candidate(s)[i] == s[i]
  {
    TrimKeeps(s, n);
    var t := Trim(s);
    BeforeKeeps(t, '(', n);
    var b1 := Before(t, '(');
    BeforeKeeps(b1, '-', n);
    var b2 := Before(b1, '-');
    assert b2[0] == s[0] && b2[n - 1] == s[n - 1];
    TrimKeeps(b2, n);
    var c := Trim(b2);
    forall i | 0 <= i < |c| ensures c[i] == s[i] {
      assert c[i] == b2[i] == b1[i] == t[i];
    }
  }

  /** A clean word is its own first name, up to letter case. */
  lemma CleanNameExtracts(w: string, upper: bool)
    requires Clean(w)
    ensures ExtractFirstName(Str(w), upper) == Some(Cased(w, upper))
  {
    LeadingWord(w, w, upper);
  }

  /** Only the first word counts: what follows white space is ignored. */
  lemma FirstWordOnly(w: string, c: char, rest: string, upper: bool)
    requires Clean(w) && IsSpace(c)
    ensures ExtractFirstName(Str(w + [c] + rest), upper) == Some(Cased(w, upper))
  {
    var s := w + [c] + rest;
    assert s[..|w|] == w && s[|w|] == c;
    LeadingWord(s, w, upper);
  }

  /** Case mapping a second time changes nothing. */
  lemma CasedTwice(w: string, upper: bool)
    requires w != []
    ensures Cased(Cased(w, upper), upper) == Cased(w, upper)
  {
    CaseMappingLaws(w);
    if !upper {
      var t := Title(w);
      assert t[1..] == Lower(w[1..]);
      CaseMappingLaws(w[1..]);
    }
  }

  /** Extracting again from an extracted first name gives it back. */
  lemma ExtractIdempotent(v: Value, upper: bool)
    requires ExtractFirstName(v, upper).Some?
    ensures ExtractFirstName(Str(ExtractFirstName(v, upper).value), upper) == ExtractFirstName(v, upper)
  {
    var w := Word(Text(v));
    WordIsClean(Text(v));
    CasedShape(w, upper);
    CleanNameExtracts(Cased(w, upper), upper);
    CasedTwice(w, upper);
  }

  /** Cutting at a mark leaves the trimmed text before it, whatever that
      text is: leading white space goes with the first trim, and blank text
      gives "" either way. */
  lemma CandidateCut(a: string, c: char, rest: string)
    requires Lacks(a, '(') && Lacks(a, '-')
    requires c == '(' || c == '-'
    ensures Candidate(a + [c] + rest) == Trim(a)
  {
    CandidateTrimStart(a, c, rest);
    TrimStartSpaces(a);
    var a' := TrimStart(a);
    if a' != [] {
      LacksSuffix(a, a', '(');
      LacksSuffix(a, a', '-');
      CandidateCutAt(a', c, rest);
      TrimOfTrimStart(a);
    } else {
      BlankBeforeMark(a, c, rest);
    }
  }

  /** Blank text before a mark leaves nothing. */
  lemma BlankBeforeMark(a: string, c: char, rest: string)
    requires c == '(' || c == '-'
    requires TrimStart(a) == []
    ensures Candidate(a + [c] + rest) == [] == Trim(a)
  {
    CandidateTrimStart(a, c, rest);
    EmptyBeforeMark(TrimStart(a), c, rest);
    assert Trim(a) == TrimEnd([]);
  }

  /** Nothing before a mark leaves nothing. */
  lemma EmptyBeforeMark(e: string, c: char, rest: string)
    requires c == '(' || c == '-'
    requires e == []
    ensures Candidate(e + [c] + rest) == []
  {
    assert e + [c] + rest == [c] + rest;
    LeadingMarkCandidate(c, rest);
  }

  /** Leading white space before a mark makes no difference to the
      candidate text. */
  lemma CandidateTrimStart(a: string, c: char, rest: string)
    requires c == '(' || c == '-'
    ensures Candidate(a + [c] + rest) == Candidate(TrimStart(a) + [c] + rest)
  {
    var b := [c] + rest;
    assert b[0] == c;
    assert a + [c] + rest == a + b && TrimStart(a) + [c] + rest == TrimStart(a) + b;
    TrimAppend(a, b);
  }

  /** A suffix of text without `c` has none either. */
  lemma LacksSuffix(s: string, t: string, c: char)
    requires Lacks(s, c) && |t| <= |s| && t == s[|s| - |t|..]
    ensures Lacks(t, c)
  {
    assert forall i :: 0 <= i < |t| ==> t[i] == s[|s| - |t| + i];
  }

  /** The same when the text before the mark starts with a non-space
      character, so that the first trim keeps it whole. */
  lemma CandidateCutAt(a: string, c: char, rest: string)
    requires a != [] && !IsSpace(a[0]) && Lacks(a, '(') && Lacks(a, '-')
    requires c == '(' || c == '-'
    ensures Candidate(a + [c] + rest) == Trim(a)
  {
    var s := a + [c] + rest;
    var k := |a|;
    assert forall i :: 0 <= i < k ==> s[i] == a[i];
    assert s[0] == a[0] && s[k] == c;
    TrimKeeps(s, k + 1);
    var t := Trim(s);
    assert forall i :: 0 <= i <= k ==> t[i] == s[i];
    if c == '(' {
      BeforeAt(t, '(', k);
      assert t[..k] == a;
      BeforeAbsent(a, '-');
    } else {
      BeforeKeeps(t, '(', k + 1);
      var b1 := Before(t, '(');
      assert forall i :: 0 <= i <= k ==> b1[i] == s[i];
      BeforeAt(b1, '-', k);
      assert b1[..k] == a;
    }
  }

  /** Text without a mark is only trimmed. */
  lemma CandidateUncut(a: string)
    requires Lacks(a, '(') && Lacks(a, '-')
    ensures Candidate(a) == Trim(a)
  {
    var ta := Trim(a);
    assert Lacks(ta, '(') && Lacks(ta, '-') by {
      TrimChars(a);
    }
    assert Before(ta, '(') == ta;
    assert Before(ta, '-') == ta;
    TrimTwice(a);
  }

  /** Everything from the first "(" or "-" on is ignored. */
  lemma CutAtMark(a: string, c: char, rest: string, upper: bool)
    requires Lacks(a, '(') && Lacks(a, '-')
    requires c == '(' || c == '-'
    ensures ExtractFirstName(Str(a + [c] + rest), upper) == ExtractFirstName(Str(a), upper)
  {
    CandidateCut(a, c, rest);
    CandidateUncut(a);
  }

  /** A clean name followed by a hyphen: only the part before the hyphen
      is kept, so a double-barrelled name gives its first half. */
  lemma HyphenCutsName(a: string, rest: string, upper: bool)
    requires Clean(a)
    ensures ExtractFirstName(Str(a + ['-'] + rest), upper) == Some(Cased(a, upper))
  {
    CutAtMark(a, '-', rest, upper);
    CleanNameExtracts(a, upper);
  }

  /** "O'Brien-Smith" gives "O'brien" on a Tag X sign and "O'BRIEN" on a
      Stompers sign. */
  lemma HyphenatedExample(x: string)
    requires x == "O'Brien-Smith"
    ensures ExtractFirstName(Str(x), false) == Some("O'brien")
    ensures ExtractFirstName(Str(x), true) == Some("O'BRIEN")
  {
    var a := "O'Brien";
    assert x == a + ['-'] + "Smith";
    OBrien(a);
    HyphenCutsName(a, "Smith", false);
    HyphenCutsName(a, "Smith", true);
  }

  lemma OBrien(a: string)
    requires a == "O'Brien"
    ensures Clean(a) && Title(a) == "O'brien" && Upper(a) == "O'BRIEN"
  {
    var t, u := Title(a), Upper(a);
    assert |t| == 7 && |u| == 7;
    assert t[0] == 'O' && t[1] == '\'' && t[2] == 'b' && t[3] == 'r' && t[4] == 'i' && t[5] == 'e' && t[6] == 'n';
    assert u[0] == 'O' && u[1] == '\'' && u[2] == 'B' && u[3] == 'R' && u[4] == 'I' && u[5] == 'E' && u[6] == 'N';
  }

  /** "Amelia (age 6)" gives "Amelia" and "AMELIA": the bracketed age is
      cut off and the trailing space trimmed. */
  lemma AmeliaExample(x: string)
    requires x == "Amelia (age 6)"
    ensures ExtractFirstName(Str(x), false) == Some("Amelia")
    ensures ExtractFirstName(Str(x), true) == Some("AMELIA")
  {
    var a, w := "Amelia ", "Amelia";
    assert x == a + ['('] + "age 6)";
    assert a == w + [' '] + "";
    Amelia(w);
    CutAtMark(a, '(', "age 6)", false);
    CutAtMark(a, '(', "age 6)", true);
    FirstWordOnly(w, ' ', "", false);
    FirstWordOnly(w, ' ', "", true);
  }

  lemma Amelia(a: string)
    requires a == "Amelia"
    ensures Clean(a) && Title(a) == "Amelia" && Upper(a) == "AMELIA"
  {
    var t, u := Title(a), Upper(a);
    assert |t| == 6 && |u| == 6;
    assert t[0] == 'A' && t[1] == 'm' && t[2] == 'e' && t[3] == 'l' && t[4] == 'i' && t[5] == 'a';
    assert u[0] == 'A' && u[1] == 'M' && u[2] == 'E' && u[3] == 'L' && u[4] == 'I' && u[5] == 'A';
  }

  /** Text whose first non-space character is a parenthesis or a hyphen
      holds no name. */
  lemma LeadingMarkNoName(c: char, rest: string, upper: bool)
    requires c == '(' || c == '-'
    ensures ExtractFirstName(Str([c] + rest), upper) == None
  {
    LeadingMarkCandidate(c, rest);
  }

  /** Text that starts with a mark is cut down to nothing. */
  lemma LeadingMarkCandidate(c: char, rest: string)
    requires c == '(' || c == '-'
    ensures Candidate([c] + rest) == []
  {
    var s := [c] + rest;
    TrimKeeps(s, 1);
    var t := Trim(s);
    assert t[0] == c;
    if c == '(' {
      assert Before(t, '(') == [];
    } else {
      BeforeKeeps(t, '(', 1);
      assert Before(t, '(')[0] == '-';
      assert Before(Before(t, '('), '-') == [];
    }
  }

  /** Falsy values hold no name. */
  lemma FalsyNames()
    ensures ExtractFirstName(Null, false) == None
    ensures ExtractFirstName(Str(""), true) == None
    ensures ExtractFirstName(Num(0), false) == None
  {
  }

}
