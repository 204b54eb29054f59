/** The booking classifier and the catering calculator of lib/generator.js:
    `partyKind`, the attendee count read from the party type, and `pizzaSplit`. */
module Party {
  import opened Options
  import opened Strings
  import opened Values

  /** What `partyKind` returns: "stomp", "tagx", or null. */
  datatype Category = Stomp | TagX | Unknown

  /** `p` occurs somewhere in `s`. */
  ghost predicate Occurs(s: string, p: string) {
    exists i :: OccursAt(s, p, i)
  }

  /** `partyKind(ptype)`: a falsy party type has no category; otherwise its
      lower-case text is Stomp when it contains "stomp", else TagX when it
      contains "tag x" or "tagx", else neither. */
  function PartyKind(ptype: Value): (k: Category)
    ensures k == Stomp <==> Truthy(ptype) && Occurs(Lower(Text(ptype)), "stomp")
    ensures k == TagX <==>
      && Truthy(ptype) && !Occurs(Lower(Text(ptype)), "stomp")
      && (Occurs(Lower(Text(ptype)), "tag x") || Occurs(Lower(Text(ptype)), "tagx"))
  {
    if !Truthy(ptype) then Unknown
    else
      var s := Lower(Text(ptype));
      if Includes(s, "stomp") then Stomp
      else if Includes(s, "tag x") || Includes(s, "tagx") then TagX
      else Unknown
  }

  /** The classification does not depend on the letter case of the text. */
  lemma PartyKindIgnoresCase(s: string)
    ensures PartyKind(Str(Upper(s))) == PartyKind(Str(s))
    ensures PartyKind(Str(Lower(s))) == PartyKind(Str(s))
  {
    CaseMappingLaws(s);
  }

  /** Stomp takes priority: text that mentions "stomp" in any letter case is
      Stomp whatever surrounds it, even when it also mentions Tag X. */
  lemma StompTakesPriority(before: string, s: string, after: string)
    requires Occurs(Lower(s), "stomp")
    ensures PartyKind(Str(before + s + after)) == Stomp
  {
    var i :| OccursAt(Lower(s), "stomp", i);
    LowerAppend(before + s, after);
    LowerAppend(before, s);
    var t := Lower(before + s + after);
    assert t == Lower(before) + Lower(s) + Lower(after);
    assert t[|before| + i..|before| + i + 5] == Lower(s)[i..i + 5];
    assert OccursAt(t, "stomp", |before| + i);
  }

  /** Stomp, TagX and no category on sample party types. */
  lemma PartyKindExamples()
    ensures PartyKind(Str("Stomp Party")) == Stomp
    ensures PartyKind(Str("STOMP and Tag X")) == Stomp
    ensures PartyKind(Str("")) == Unknown && PartyKind(Num(0)) == Unknown && PartyKind(Null) == Unknown
  {
    assert OccursAt(Lower("Stomp Party"), "stomp", 0);
    assert OccursAt(Lower("STOMP and Tag X"), "stomp", 0);
  }

  lemma TagXExample()
    ensures PartyKind(Str("TagX Party - 18 children")) == TagX
  {
    LowerTagXParty();
    AbsentFirstChar("tagx party - 18 children", "stomp");
    assert OccursAt("tagx party - 18 children", "tagx", 0);
  }

  lemma LowerTagXParty()
    ensures Lower("TagX Party - 18 children") == "tagx party - 18 children"
  {
  }

  lemma TagXSpacedExample()
    ensures PartyKind(Str("Tag X Arena")) == TagX
  {
    assert Lower("Tag X Arena") == "tag x arena";
    AbsentFirstChar("tag x arena", "stomp");
    assert OccursAt("tag x arena", "tag x", 0);
  }

  lemma UnknownExample()
    ensures PartyKind(Str("Bowling")) == Unknown
  {
    assert Lower("Bowling") == "bowling";
    AbsentFirstChar("bowling", "stomp");
    AbsentFirstChar("bowling", "tag x");
    AbsentFirstChar("bowling", "tagx");
  }

  // ----- attendees -----

  /** The attendee count of `generatePartySheets`: the first run of digits in
      `String(ptype || "")`, read as a decimal number, or null when there is
      no digit. */
  function AttendeeCount(ptype: Value): (n: Option<nat>)
    ensures n.None? <==> forall i :: 0 <= i < |Text(Or(ptype, Str("")))| ==> !IsDigit(Text(Or(ptype, Str("")))[i])
  {
    match FirstDigitRun(Text(Or(ptype, Str(""))))
    case None => None
    case Some(run) => Some(ParseDecimal(run))
  }

  /** A party type that is a positive number gives that number of attendees. */
  lemma AttendeeCountOfNumber(n: nat)
    requires n > 0
    ensures AttendeeCount(Num(n)) == Some(n)
  {
    var s := NatToString(n);
    assert Text(Or(Num(n), Str(""))) == s;
    assert IsDigit(s[0]);
    var run := LeadingDigits(s);
    assert run == s;
  }

  /** The count is the first number written in the party type, whatever
      text without digits comes before it and whatever follows it. */
  lemma AttendeeCountReadsFirstNumber(before: string, n: nat, after: string)
    requires forall i :: 0 <= i < |before| ==> !IsDigit(before[i])
    requires after == [] || !IsDigit(after[0])
    ensures AttendeeCount(Str(before + NatToString(n) + after)) == Some(n)
  {
    var d := NatToString(n);
    var x := before + d + after;
    assert x == before + (d + after);
    assert |x| > 0 && Text(Or(Str(x), Str(""))) == x;
    FirstDigitRunSkips(before, d + after);
    assert (d + after)[0] == d[0];
    LeadingDigitsOfNumber(d, after);
  }

  /** The leading digits of a digit string followed by a non-digit are that
      digit string. */
  lemma {:induction false} LeadingDigitsOfNumber(d: string, after: string)
    requires forall i :: 0 <= i < |d| ==> IsDigit(d[i])
    requires after == [] || !IsDigit(after[0])
    ensures LeadingDigits(d + after) == d
    decreases |d|
  {
    if d == [] {
      assert d + after == after;
    } else {
      assert (d + after)[1..] == d[1..] + after;
      LeadingDigitsOfNumber(d[1..], after);
    }
  }

  /** A party type without digits, or none at all, gives no count. */
  lemma NoAttendeeCountExamples(x: string)
    requires x == "Stomp Party"
    ensures AttendeeCount(Str(x)) == None
    ensures AttendeeCount(Null) == None
  {
    assert Text(Or(Null, Str(""))) == "";
    assert forall i :: 0 <= i < |x| ==> !IsDigit(x[i]);
  }

  // ----- catering -----

  /** Pizzas, chips and cans for one booking. */
  datatype Supplies = Supplies(marg: nat, pep: nat, chips: nat, cans: nat)

  /** `pizzaSplit(attendees)`: no quantities (all null) for a falsy count;
      otherwise a step function of the count with inclusive upper bounds 10,
      15, 20 and 25, and one can per attendee. */
  function PizzaSplit(attendees: Option<nat>): (r: Option<Supplies>)
    ensures r.Some? <==> attendees.Some? && attendees.value != 0
    ensures r.Some? ==> r.value.cans == attendees.value
    ensures r.Some? ==> 3 <= r.value.marg <= 5 && 2 <= r.value.pep <= 5 && 4 <= r.value.chips <= 10
  {
    match attendees
    case None => None
    case Some(n) =>
      if n == 0 then None
      else if n <= 10 then Some(Supplies(3, 2, 4, n))
      else if n <= 15 then Some(Supplies(3, 3, 5, n))
      else if n <= 20 then Some(Supplies(4, 3, 8, n))
      else if n <= 25 then Some(Supplies(4, 4, 9, n))
      else Some(Supplies(5, 5, 10, n))
  }

  /** The catering table as data: the inclusive upper bound of a tier, then
      margherita, pepperoni and chips. Counts above the last bound get
      `Largest`. */
  const Tiers: seq<(nat, nat, nat, nat)> := [(10, 3, 2, 4), (15, 3, 3, 5), (20, 4, 3, 8), (25, 4, 4, 9)]
  const Largest: (nat, nat, nat) := (5, 5, 10)

  /** The quantities of the first tier whose bound is at least `n`. */
  function TierFor(tiers: seq<(nat, nat, nat, nat)>, n: nat): (nat, nat, nat) {
    if tiers == [] then Largest
    else if n <= tiers[0].0 then (tiers[0].1, tiers[0].2, tiers[0].3)
    else TierFor(tiers[1..], n)
  }

  /** `PizzaSplit` agrees with a lookup in the catering table. */
  lemma PizzaSplitFollowsTable(n: nat)
    requires n > 0
    ensures PizzaSplit(Some(n)) == Some(Supplies(TierFor(Tiers, n).0, TierFor(Tiers, n).1, TierFor(Tiers, n).2, n))
  {
    var t1, t2, t3: seq<(nat, nat, nat, nat)> := [(15, 3, 3, 5), (20, 4, 3, 8), (25, 4, 4, 9)], [(20, 4, 3, 8), (25, 4, 4, 9)], [(25, 4, 4, 9)];
    assert Tiers[1..] == t1 && t1[1..] == t2 && t2[1..] == t3 && t3[1..] == [];
    if n > 10 {
      assert TierFor(Tiers, n) == TierFor(t1, n);
      if n > 15 {
        assert TierFor(t1, n) == TierFor(t2, n);
        if n > 20 {
          assert TierFor(t2, n) == TierFor(t3, n);
          if n > 25 {
            assert TierFor(t3, n) == TierFor([], n);
          }
        }
      }
    }
  }

  /** Quantities never decrease as the number of attendees grows. */
  lemma PizzaSplitMonotone(a: nat, b: nat)
    requires 0 < a <= b
    ensures PizzaSplit(Some(a)).value.marg <= PizzaSplit(Some(b)).value.marg
    ensures PizzaSplit(Some(a)).value.pep <= PizzaSplit(Some(b)).value.pep
    ensures PizzaSplit(Some(a)).value.chips <= PizzaSplit(Some(b)).value.chips
    ensures PizzaSplit(Some(a)).value.cans <= PizzaSplit(Some(b)).value.cans
  {
  }

  /** The tier boundaries: 10 and 11, and 25 and 26, fall in different tiers. */
  lemma PizzaSplitBoundaries()
    ensures PizzaSplit(Some(10)) == Some(Supplies(3, 2, 4, 10))
    ensures PizzaSplit(Some(11)) == Some(Supplies(3, 3, 5, 11))
    ensures PizzaSplit(Some(12)) == Some(Supplies(3, 3, 5, 12))
    ensures PizzaSplit(Some(20)) == Some(Supplies(4, 3, 8, 20))
    ensures PizzaSplit(Some(25)) == Some(Supplies(4, 4, 9, 25))
    ensures PizzaSplit(Some(26)) == Some(Supplies(5, 5, 10, 26))
    ensures PizzaSplit(Some(0)) == None && PizzaSplit(None) == None
  {
  }
}
