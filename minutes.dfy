/** `canonicalMinutes` of lib/generator.js: a time cell (a date object or a
    text such as "2:30pm", "14.30" or "2pm") as minutes since midnight. */
module Minutes {
  import opened Options
  import opened Strings
  import opened Values

  /** The characters kept for the numeric part: digits and colons. */
  predicate IsClockChar(c: char) { IsDigit(c) || c == ':' }

  /** The characters of the original text that end up in the numeric part:
      digits, colons, and periods (which become colons). */
  predicate IsTimeChar(c: char) { IsDigit(c) || c == ':' || c == '.' }

  /** Text made only of digits and colons. */
  predicate ClockText(s: string) { forall i :: 0 <= i < |s| ==> IsClockChar(s[i]) }

  predicate AllDigits(s: string) { forall i :: 0 <= i < |s| ==> IsDigit(s[i]) }

  /** `s.replace(/\./g, ":")`. */
  function DotsToColons(s: string): string {
    seq(|s|, i requires 0 <= i < |s| => if s[i] == '.' then ':' else s[i])
  }

  /** `s.replace(/am|pm/g, "")`: scanning from the left, every "am" or "pm"
      is dropped. */
  function RemoveMarkers(s: string): string
    decreases |s|
  {
    if |s| >= 2 && (s[..2] == "am" || s[..2] == "pm") then RemoveMarkers(s[2..])
    else if s == [] then []
    else [s[0]] + RemoveMarkers(s[1..])
  }

  /** `parseInt(part || "0", 10)` for a piece of the text split at ":". */
  function PartValue(p: string): nat
    requires AllDigits(p)
  {
    ParseDecimal(if p == "" then "0" else p)
  }

  /** The hour and minute read from text made of digits and colons: the first
      two pieces between colons when there is a colon, otherwise the whole
      text as the hour and no minutes. */
  function Clock(s: string): (nat, nat)
    requires ClockText(s)
  {
    if Includes(s, ":") then
      SplitSingle(s, ":");
      var parts := Split(s, ":");
      ColonPartsAreDigits(s);
      (PartValue(parts[0]), PartValue(parts[1]))
    else
      NoColonAllDigits(s);
      (ParseDecimal(s), 0)
  }

  lemma NoColonAllDigits(s: string)
    requires ClockText(s)
    requires !Includes(s, ":")
    ensures AllDigits(s)
  {
    IncludesChar(s, ':');
    assert forall i :: 0 <= i < |s| ==> s[i] in s;
  }

  lemma ColonPartsAreDigits(s: string)
    requires ClockText(s)
    ensures forall j :: 0 <= j < |Split(s, ":")| ==> AllDigits(Split(s, ":")[j])
  {
    var parts := Split(s, ":");
    SplitPieces(s, ":");
    SplitChars(s, ":");
    forall j | 0 <= j < |parts| ensures AllDigits(parts[j]) {
      var p := parts[j];
      assert !Includes(p, ":");
      forall i | 0 <= i < |p| ensures IsDigit(p[i]) {
        assert p[i] in s;
        var k :| 0 <= k < |s| && s[k] == p[i];
        assert IsClockChar(s[k]);
        IncludesChar(p, ':');
      }
    }
  }

  /** Some character of `t` is a digit, a colon or a period. */
  predicate HasTimeChar(t: string) { exists i :: 0 <= i < |t| && IsTimeChar(t[i]) }

  /** Some character of `s` is a digit or a colon. */
  predicate HasClockChar(s: string) { exists i :: 0 <= i < |s| && IsClockChar(s[i]) }

  /** The text `canonicalMinutes` reads a time from: trimmed, lower-cased,
      with its periods turned into colons. */
  function Normalised(t: string): string {
    DotsToColons(Lower(Trim(t)))
  }

  /** What is left of normalised text once the markers are removed and only
      digits and colons are kept. */
  function NumericPart(n: string): string {
    Filter(RemoveMarkers(n), IsClockChar)
  }

  lemma NumericPartIsClockText(n: string)
    ensures ClockText(NumericPart(n))
  {
    var s := NumericPart(n);
    FilterChars(RemoveMarkers(n), IsClockChar);
    assert forall i :: 0 <= i < |s| ==> s[i] in s;
  }

  /** `canonicalMinutes` on the text of a value that is not a date: null for
      blank text, otherwise the reading of its normalised form. */
  function MinutesOfText(t: string): (r: Option<nat>)
    ensures r.None? <==> !HasTimeChar(t)
  {
    NoDigitsNoMinutes(t);
    if Lower(Trim(t)) == [] then
      assert Normalised(t) == [] && RemoveMarkers([]) == [];
      None
    else MinutesOfNormalised(Normalised(t))
  }

  /** The reading of normalised text: whether it includes "am" or "pm" is
      noted, the digits and colons left once the markers are removed give
      the hour and minute, "pm" adds 12 to an hour below 12 and then "am"
      turns hour 12 into 0. */
  function MinutesOfNormalised(n: string): (r: Option<nat>)
    ensures r.None? <==> NumericPart(n) == []
  {
    NumericPartIsClockText(n);
    var am := Includes(n, "am");
    var pm := Includes(n, "pm");
    var s := NumericPart(n);
    if s == [] then None
    else
      var hm := Clock(s);
      var h := if pm && hm.0 < 12 then hm.0 + 12 else hm.0;
      var h' := if am && h == 12 then 0 else h;
      Some(h' * 60 + hm.1)
  }

  /** `canonicalMinutes(val)`. A date object gives its local hours and minutes.
      Otherwise the trimmed, lower-cased text has periods turned into colons,
      notes whether it includes "am" or "pm", and keeps only digits and colons;
      "pm" adds 12 to an hour below 12 and then "am" turns hour 12 into 0.
      The result is null exactly when the value is null or its text holds no
      digit, colon or period; there is no upper bound on the result. */
  function CanonicalMinutes(v: Value): Option<nat> {
    match v
    case Null => None
    case Date(_, _, h, m) => Some(h * 60 + m)
    case _ => MinutesOfText(Text(v))
  }

  /** A date object gives a time of day; any other value gives null exactly
      when it is null or its text has no digit, colon or period. */
  lemma CanonicalMinutesSpec(v: Value)
    ensures v.Date? ==> CanonicalMinutes(v) == Some(v.hours * 60 + v.minutes) && CanonicalMinutes(v).value < 1440
    ensures CanonicalMinutes(v).None? <==> v.Null? || (!v.Date? && !HasTimeChar(Text(v)))
  {
  }

  /** A text cell is read by `MinutesOfText`. */
  lemma CanonicalMinutesOfStr(x: string)
    ensures CanonicalMinutes(Str(x)) == MinutesOfText(x)
  {
  }

  // ----- why the result is null -----

  lemma FilterAppend(a: string, b: string, keep: char -> bool)
    ensures Filter(a + b, keep) == Filter(a, keep) + Filter(b, keep)
  {
    if a != [] {
      assert (a + b)[1..] == a[1..] + b;
      FilterAppend(a[1..], b, keep);
    } else {
      assert a + b == b;
    }
  }

  lemma FilterEmpty(s: string, keep: char -> bool)
    ensures Filter(s, keep) == [] <==> forall i :: 0 <= i < |s| ==> !keep(s[i])
  {
    var r := Filter(s, keep);
    FilterChars(s, keep);
    if r != [] {
      assert r[0] in r;
      var i :| 0 <= i < |s| && s[i] == r[0];
      assert keep(s[i]);
    } else {
      forall i | 0 <= i < |s| ensures !keep(s[i]) {
        assert s[i] in s;
      }
    }
  }

  /** Dropping "am" and "pm" before keeping the digits and colons makes no
      difference: those letters would be dropped anyway. */
  lemma {:induction false} RemoveMarkersThenFilter(s: string)
    ensures Filter(RemoveMarkers(s), IsClockChar) == Filter(s, IsClockChar)
    decreases |s|
  {
    if |s| >= 2 && (s[..2] == "am" || s[..2] == "pm") {
      assert s == s[..2] + s[2..];
      FilterAppend(s[..2], s[2..], IsClockChar);
      assert Filter(s[..2], IsClockChar) == [];
      RemoveMarkersThenFilter(s[2..]);
    } else if s != [] {
      assert s == [s[0]] + s[1..];
      FilterAppend([s[0]], s[1..], IsClockChar);
      FilterAppend([s[0]], RemoveMarkers(s[1..]), IsClockChar);
      RemoveMarkersThenFilter(s[1..]);
    }
  }

  /** A digit, colon or period survives trimming and lower-casing and becomes
      a digit or colon; nothing else does. */
  lemma TimeCharsSurvive(t: string)
    ensures HasTimeChar(t) <==> HasClockChar(Normalised(t))
  {
    if HasTimeChar(t) {
      TimeCharKept(t);
    }
    if HasClockChar(Normalised(t)) {
      ClockCharFrom(t);
    }
  }

  lemma TimeCharKept(t: string)
    requires HasTimeChar(t)
    ensures HasClockChar(Normalised(t))
  {
    var tt := Trim(t);
    TrimChars(t);
    var s0 := Lower(tt);
    var s1 := DotsToColons(s0);
    var k := |t| - |TrimStart(t)|;
    var i :| 0 <= i < |t| && IsTimeChar(t[i]);
    var c := t[i];
    assert !IsSpace(c);
    assert k <= i < k + |tt|;
    var j := i - k;
    assert tt[j] == c;
    assert s0[j] == LowerChar(c) == c;
    assert s1[j] == if c == '.' then ':' else c;
    assert IsClockChar(s1[j]);
  }

  lemma ClockCharFrom(t: string)
    requires HasClockChar(Normalised(t))
    ensures HasTimeChar(t)
  {
    var tt := Trim(t);
    var s0 := Lower(tt);
    var s1 := DotsToColons(s0);
    var k := |t| - |TrimStart(t)|;
    var j :| 0 <= j < |s1| && IsClockChar(s1[j]);
    assert IsTimeChar(s0[j]);
    assert s0[j] == LowerChar(tt[j]);
    assert IsTimeChar(tt[j]);
    assert IsTimeChar(t[k + j]);
  }

  lemma NoDigitsNoMinutes(t: string)
    ensures NumericPart(Normalised(t)) == [] <==> !HasTimeChar(t)
  {
    var s1 := Normalised(t);
    RemoveMarkersThenFilter(s1);
    FilterEmpty(s1, IsClockChar);
    TimeCharsSurvive(t);
  }

  // ----- the accepted time formats -----

  /** The marker written after a time, if any. */
  datatype Marker = NoMarker | AM | PM

  function MarkerText(mk: Marker): string {
    match mk
    case NoMarker => ""
    case AM => "am"
    case PM => "pm"
  }

  /** The hour adjustment for a marker: "pm" moves hours 0 to 11 into the
      afternoon and "am" makes hour 12 midnight. */
  function Adjust(h: nat, mk: Marker): nat {
    match mk
    case NoMarker => h
    case AM => if h == 12 then 0 else h
    case PM => if h < 12 then h + 12 else h
  }

  /** Text of digits, colons, periods and lower-case letters (such as a
      marker) stays the same under trimming and lower-casing. */
  lemma ClockTextNormalised(x: string)
    requires forall i :: 0 <= i < |x| ==> IsTimeChar(x[i]) || IsLower(x[i])
    ensures Normalised(x) == DotsToColons(x)
  {
    forall i | 0 <= i < |x| ensures !IsSpace(x[i]) && LowerChar(x[i]) == x[i] {
      assert IsTimeChar(x[i]) || IsLower(x[i]);
    }
    TrimNoSpace(x);
    assert Lower(x) == x;
  }

  lemma DotsAppend(a: string, b: string)
    ensures DotsToColons(a + b) == DotsToColons(a) + DotsToColons(b)
  {
  }

  /** Text without periods is left alone by `DotsToColons`. */
  lemma NoDots(a: string)
    requires forall i :: 0 <= i < |a| ==> a[i] != '.'
    ensures DotsToColons(a) == a
  {
  }

  /** Neither letter of a marker occurs among digits and colons. */
  lemma LetterAbsent(body: string, mk: Marker, c: char)
    requires ClockText(body)
    requires IsLetter(c) && c !in MarkerText(mk)
    ensures c !in body + MarkerText(mk)
  {
    var marker := MarkerText(mk);
    var x := body + marker;
    forall i | 0 <= i < |x| ensures x[i] != c {
      if i < |body| { assert x[i] == body[i]; } else { assert x[i] == marker[i - |body|]; }
    }
  }

  /** Text of digits and colons ending in a marker includes that marker and
      not the other. */
  lemma MarkerFlags(body: string, mk: Marker)
    requires ClockText(body)
    ensures Includes(body + MarkerText(mk), "am") <==> mk == AM
    ensures Includes(body + MarkerText(mk), "pm") <==> mk == PM
  {
    var x := body + MarkerText(mk);
    match mk
    case AM =>
      assert OccursAt(x, "am", |body|);
      LetterAbsent(body, mk, 'p');
      AbsentFirstChar(x, "pm");
    case PM =>
      assert OccursAt(x, "pm", |body|);
      LetterAbsent(body, mk, 'a');
      AbsentFirstChar(x, "am");
    case NoMarker =>
      LetterAbsent(body, mk, 'a');
      LetterAbsent(body, mk, 'p');
      AbsentFirstChar(x, "am");
      AbsentFirstChar(x, "pm");
  }

  /** The numeric part of digits and colons followed by a marker is the
      digits and colons. */
  lemma MarkerFiltered(body: string, mk: Marker)
    requires ClockText(body)
    ensures NumericPart(body + MarkerText(mk)) == body
  {
    RemoveMarkersThenFilter(body + MarkerText(mk));
    FilterAppend(body, MarkerText(mk), IsClockChar);
    FilterAll(body, IsClockChar);
    FilterEmpty(MarkerText(mk), IsClockChar);
  }

  lemma ColonClockText(a: string, b: string)
    requires AllDigits(a) && AllDigits(b)
    ensures a + ":" + b != [] && ClockText(a + ":" + b)
  {
    var s := a + ":" + b;
    forall i | 0 <= i < |s| ensures IsClockChar(s[i]) {
      if i < |a| {
        assert s[i] == a[i];
      } else if i > |a| {
        assert s[i] == b[i - |a| - 1];
      }
    }
  }

  lemma ClockOfColonText(a: string, b: string)
    requires AllDigits(a) && AllDigits(b)
    ensures a + ":" + b != [] && ClockText(a + ":" + b)
    ensures Clock(a + ":" + b) == (PartValue(a), PartValue(b))
  {
    var s := a + ":" + b;
    ColonClockText(a, b);
    assert OccursAt(s, ":", |a|);
    IncludesChar(a, ':');
    IncludesChar(b, ':');
    assert forall j :: 0 <= j < |a| ==> !OccursAt(s, ":", j);
    assert IndexOf(s, ":", 0) == |a|;
    assert s[|a| + 1..] == b;
    assert s[..|a|] == a;
    assert Split(s, ":") == [a] + Split(b, ":");
    SplitFirst(b, ":");
  }

  /** Non-blank text is read through its normalised form. */
  lemma MinutesOfNormalForm(t: string, n: string)
    requires Normalised(t) == n && n != []
    ensures MinutesOfText(t) == MinutesOfNormalised(n)
  {
    assert |Lower(Trim(t))| == |Normalised(t)|;
  }

  /** Digits and colons followed by at most one marker read as the clock
      reading adjusted for the marker. */
  lemma NormalFormReading(body: string, mk: Marker, h: nat, m: nat)
    requires body != [] && ClockText(body)
    requires Clock(body) == (h, m)
    ensures MinutesOfNormalised(body + MarkerText(mk)) == Some(Adjust(h, mk) * 60 + m)
  {
    var n := body + MarkerText(mk);
    MarkerFlags(body, mk);
    MarkerFiltered(body, mk);
    FlagsReading(n, body, mk, h, m);
  }

  /** The reading of a normal form from its numeric part and its markers. */
  lemma FlagsReading(n: string, body: string, mk: Marker, h: nat, m: nat)
    requires NumericPart(n) == body && body != [] && ClockText(body) && Clock(body) == (h, m)
    requires Includes(n, "am") <==> mk == AM
    requires Includes(n, "pm") <==> mk == PM
    ensures MinutesOfNormalised(n) == Some(Adjust(h, mk) * 60 + m)
  {
  }

  /** "H:MM", "H.MM", "H:MMam", "H.MMpm" and the like: the hour and minute
      digits read as numbers, the hour adjusted for the marker. */
  lemma ClockTextMinutes(a: string, sep: char, b: string, mk: Marker)
    requires AllDigits(a) && AllDigits(b) && (sep == ':' || sep == '.')
    ensures CanonicalMinutes(Str(a + [sep] + b + MarkerText(mk))) == Some(Adjust(PartValue(a), mk) * 60 + PartValue(b))
  {
    var x := a + [sep] + b + MarkerText(mk);
    ClockReading(a, b, mk);
    ClockTextShape(a, sep, b, mk);
    CanonicalMinutesOfStr(x);
  }

  lemma ClockReading(a: string, b: string, mk: Marker)
    requires AllDigits(a) && AllDigits(b)
    ensures MinutesOfNormalised(a + ":" + b + MarkerText(mk)) == Some(Adjust(PartValue(a), mk) * 60 + PartValue(b))
  {
    var body := a + ":" + b;
    var hm := (PartValue(a), PartValue(b));
    assert body != [] && ClockText(body) && Clock(body) == hm by { ClockOfColonText(a, b); }
    NormalFormReading(body, mk, hm.0, hm.1);
  }

  lemma ClockTextShape(a: string, sep: char, b: string, mk: Marker)
    requires AllDigits(a) && AllDigits(b) && (sep == ':' || sep == '.')
    ensures MinutesOfText(a + [sep] + b + MarkerText(mk)) == MinutesOfNormalised(a + ":" + b + MarkerText(mk))
  {
    var x := a + [sep] + b + MarkerText(mk);
    forall i | 0 <= i < |x| ensures IsTimeChar(x[i]) || IsLower(x[i]) {
      if i < |a| {
        assert x[i] == a[i];
      } else if i == |a| {
      } else if i < |a| + 1 + |b| {
        assert x[i] == b[i - |a| - 1];
      } else {
        assert x[i] == MarkerText(mk)[i - |a| - 1 - |b|];
      }
    }
    ClockTextNormalised(x);
    DotsAppend(a + [sep] + b, MarkerText(mk));
    DotsAppend(a + [sep], b);
    DotsAppend(a, [sep]);
    NoDots(a);
    NoDots(b);
    NoDots(MarkerText(mk));
    assert DotsToColons([sep]) == ":";
    MinutesOfNormalForm(x, a + ":" + b + MarkerText(mk));
  }

  /** "H", "Hpm", "Ham": digits alone are the hour, with no minutes. */
  lemma HourTextMinutes(a: string, mk: Marker)
    requires a != [] && AllDigits(a)
    ensures CanonicalMinutes(Str(a + MarkerText(mk))) == Some(Adjust(ParseDecimal(a), mk) * 60)
  {
    HourReading(a, mk);
    HourTextShape(a, mk);
    CanonicalMinutesOfStr(a + MarkerText(mk));
  }

  lemma HourReading(a: string, mk: Marker)
    requires a != [] && AllDigits(a)
    ensures MinutesOfNormalised(a + MarkerText(mk)) == Some(Adjust(ParseDecimal(a), mk) * 60)
  {
    DigitsClock(a);
    MarkerFlags(a, mk);
    MarkerFiltered(a, mk);
  }

  /** Digits alone are read as the hour. */
  lemma DigitsClock(a: string)
    requires AllDigits(a)
    ensures ClockText(a)
    ensures Clock(a) == (ParseDecimal(a), 0)
  {
    IncludesChar(a, ':');
  }

  lemma HourTextShape(a: string, mk: Marker)
    requires a != [] && AllDigits(a)
    ensures MinutesOfText(a + MarkerText(mk)) == MinutesOfNormalised(a + MarkerText(mk))
  {
    var x := a + MarkerText(mk);
    forall i | 0 <= i < |x| ensures IsTimeChar(x[i]) || IsLower(x[i]) {
      if i < |a| {
        assert x[i] == a[i];
      } else {
        assert x[i] == MarkerText(mk)[i - |a|];
      }
    }
    ClockTextNormalised(x);
    NoDots(x);
    MinutesOfNormalForm(x, x);
  }

  lemma SmallNumbers()
    ensures ParseDecimal("2") == 2 && ParseDecimal("12") == 12
    ensures ParseDecimal("14") == 14 && ParseDecimal("30") == 30
  {
    assert "12"[..1] == "1";
    assert "14"[..1] == "1";
    assert "30"[..1] == "3";
  }

  /** "2:30pm", "2.30pm", "14:30" and "14.30" are the same time: a period
      reads as a colon and "pm" moves hour 2 to 14. */
  lemma HalfPastTwo(x: string)
    requires x == "2:30pm" || x == "2.30pm" || x == "14:30" || x == "14.30"
    ensures CanonicalMinutes(Str(x)) == Some(870)
  {
    SmallNumbers();
    if x == "2:30pm" {
      assert x == "2" + [':'] + "30" + MarkerText(PM);
      ClockTextMinutes("2", ':', "30", PM);
    } else if x == "2.30pm" {
      assert x == "2" + ['.'] + "30" + MarkerText(PM);
      ClockTextMinutes("2", '.', "30", PM);
    } else if x == "14:30" {
      assert x == "14" + [':'] + "30" + MarkerText(NoMarker);
      ClockTextMinutes("14", ':', "30", NoMarker);
    } else {
      assert x == "14" + ['.'] + "30" + MarkerText(NoMarker);
      ClockTextMinutes("14", '.', "30", NoMarker);
    }
  }

  /** "pm" adds twelve hours only below 12 and "am" only changes hour 12. */
  lemma TwoPm(x: string)
    requires x == "2pm"
    ensures CanonicalMinutes(Str(x)) == Some(840)
  {
    SmallNumbers();
    assert x == "2" + MarkerText(PM);
    HourTextMinutes("2", PM);
  }

  lemma TwelveAm(x: string)
    requires x == "12am"
    ensures CanonicalMinutes(Str(x)) == Some(0)
  {
    SmallNumbers();
    assert x == "12" + MarkerText(AM);
    HourTextMinutes("12", AM);
  }

  lemma TwelvePm(x: string)
    requires x == "12pm"
    ensures CanonicalMinutes(Str(x)) == Some(720)
  {
    SmallNumbers();
    assert x == "12" + MarkerText(PM);
    HourTextMinutes("12", PM);
  }

  /** A numeric cell holding n is read as hour |n| with no minutes: the
      minus sign of a negative number goes with the other characters that
      are neither digits nor colons. */
  lemma NumberMinutes(n: int)
    ensures CanonicalMinutes(Num(n)) == Some((if n < 0 then -n else n) * 60)
  {
    if n >= 0 {
      var t := NatToString(n);
      assert Text(Num(n)) == t;
      assert t + MarkerText(NoMarker) == t;
      HourTextMinutes(t, NoMarker);
    } else {
      var t := NatToString(-n);
      assert Text(Num(n)) == "-" + t;
      SignDropped(t);
    }
  }

  /** A minus sign in front of digits is dropped. */
  lemma SignDropped(t: string)
    requires t != [] && AllDigits(t)
    ensures MinutesOfText("-" + t) == Some(ParseDecimal(t) * 60)
  {
    SignedShape(t);
    SignedReading(t);
  }

  lemma SignedShape(t: string)
    requires AllDigits(t)
    ensures MinutesOfText("-" + t) == MinutesOfNormalised("-" + t)
  {
    var x := "-" + t;
    forall i | 0 <= i < |x| ensures !IsSpace(x[i]) && !IsUpper(x[i]) && x[i] != '.' {
      if i > 0 { assert x[i] == t[i - 1]; }
    }
    PlainNormalised(x);
    MinutesOfNormalForm(x, x);
  }

  /** Text without white space, upper-case letters or periods is already
      normalised. */
  lemma PlainNormalised(x: string)
    requires forall i :: 0 <= i < |x| ==> !IsSpace(x[i]) && !IsUpper(x[i]) && x[i] != '.'
    ensures Normalised(x) == x
  {
    TrimNoSpace(x);
    LowerFixed(x);
    NoDots(x);
  }

  lemma SignedReading(t: string)
    requires t != [] && AllDigits(t)
    ensures MinutesOfNormalised("-" + t) == Some(ParseDecimal(t) * 60)
  {
    var x := "-" + t;
    assert !Includes(x, "am") && !Includes(x, "pm") by {
      forall i | 0 <= i < |x| ensures x[i] != 'a' && x[i] != 'p' {
        if i > 0 { assert x[i] == t[i - 1]; }
      }
      AbsentFirstChar(x, "am");
      AbsentFirstChar(x, "pm");
    }
    assert NumericPart(x) == t by {
      RemoveMarkersThenFilter(x);
      FilterAppend("-", t, IsClockChar);
      FilterAll(t, IsClockChar);
      assert Filter("-", IsClockChar) == [];
    }
    DigitsClock(t);
  }

  /** No range check: "1430" is hour 1430, and so is the number 1430. */
  lemma MinutesUnbounded(x: string)
    requires x == "1430"
    ensures CanonicalMinutes(Str(x)) == Some(85800)
    ensures CanonicalMinutes(Num(1430)) == Some(85800)
  {
    assert ParseDecimal("1430") == 1430 by {
      assert "1"[..0] == [];
      assert ParseDecimal("1") == 1;
      assert "14"[..1] == "1";
      assert ParseDecimal("14") == 14;
      assert "143"[..2] == "14";
      assert ParseDecimal("143") == 143;
      assert "1430"[..3] == "143";
    }
    assert x == "1430" + MarkerText(NoMarker);
    HourTextMinutes("1430", NoMarker);
    NumberMinutes(1430);
  }

  /** Null, blank text and text without digits, colons or periods give null. */
  lemma NoMinutesExamples(x: string)
    requires x == "" || x == "  " || x == "pm"
    ensures CanonicalMinutes(Null) == None
    ensures CanonicalMinutes(Str(x)) == None
  {
    assert !HasTimeChar(x) by {
      forall i | 0 <= i < |x| ensures !IsTimeChar(x[i]) {
      }
    }
    assert Text(Str(x)) == x;
    CanonicalMinutesSpec(Str(x));
  }
}
