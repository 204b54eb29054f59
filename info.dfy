/** `buildAdditionalInfo` of lib/generator.js: the notes cell of a party
    sheet row, built from the allergy, notes, telephone and e-mail columns. */
module Info {
  import opened Strings
  import opened Values

  /** The columns the notes cell is built from, in order, each with the
      label it is printed under. */
  const FoodField := ("Food Any Allergies", "Food")
  const NotesField := ("Food Notes (inc Allergies)", "Notes")
  const TelField := ("Telephone", "Tel")
  const EmailField := ("Email", "Email")
  const InfoFields: seq<(string, string)> := [FoodField, NotesField, TelField, EmailField]

  const Separator := " | "

  /** `v && String(v).trim()`: the value is truthy and not blank once trimmed. */
  predicate Filled(v: Value) {
    Truthy(v) && Trim(Text(v)) != []
  }

  /** `${name}: ${String(v).trim()}`. */
  function Labelled(name: string, v: Value): string {
    name + ": " + Trim(Text(v))
  }

  /** What one column contributes: its labelled value when it is filled. */
  function Part(row: Row, field: (string, string)): seq<string> {
    var v := Get(row, field.0);
    if Filled(v) then [Labelled(field.1, v)] else []
  }

  /** The labelled parts of the filled columns among `fields`, in order. */
  function InfoParts(row: Row, fields: seq<(string, string)>): (parts: seq<string>)
  {
    if fields == [] then []
    else InfoParts(row, fields[..|fields| - 1]) + Part(row, fields[|fields| - 1])
  }

  /** What the notes cell should hold: the labelled filled columns joined by " | ". */
  function AdditionalInfo(row: Row): string {
    Join(InfoParts(row, InfoFields), Separator)
  }

  /** `buildAdditionalInfo(row)`: each filled column is pushed in turn, and
      the parts are joined, or "" when there are none. */
  method BuildAdditionalInfo(row: Row) returns (info: string)
    ensures info == AdditionalInfo(row)
  {
    var parts: seq<string> := [];
    var food := Get(row, "Food Any Allergies");
    var notes := Get(row, "Food Notes (inc Allergies)");
    var tel := Get(row, "Telephone");
    var email := Get(row, "Email");
    InfoPartsOfTable(row);
    var p1, p2, p3 := Part(row, FoodField), Part(row, NotesField), Part(row, TelField);
    if Filled(food) { parts := parts + [Labelled("Food", food)]; }
    assert parts == p1;
    if Filled(notes) { parts := parts + [Labelled("Notes", notes)]; }
    assert parts == p1 + p2;
    if Filled(tel) { parts := parts + [Labelled("Tel", tel)]; }
    assert parts == p1 + p2 + p3;
    if Filled(email) { parts := parts + [Labelled("Email", email)]; }
    assert parts == p1 + p2 + p3 + Part(row, EmailField);
    info := if |parts| > 0 then Join(parts, Separator) else "";
  }

  /** `InfoParts` over the column table, spelt out column by column. */
  lemma InfoPartsOfTable(row: Row)
    ensures InfoParts(row, InfoFields) ==
      Part(row, FoodField) + Part(row, NotesField) + Part(row, TelField) + Part(row, EmailField)
  {
    var f1, f2, f3 := [FoodField], [FoodField, NotesField], [FoodField, NotesField, TelField];
    assert InfoFields[..3] == f3 && f3[..2] == f2 && f2[..1] == f1 && f1[..0] == [];
    assert InfoParts(row, f1) == Part(row, FoodField);
    assert InfoParts(row, f2) == InfoParts(row, f1) + Part(row, NotesField);
    assert InfoParts(row, f3) == InfoParts(row, f2) + Part(row, TelField);
    assert InfoParts(row, InfoFields) == InfoParts(row, f3) + Part(row, EmailField);
  }

  /** Every part starts with a label, so none is empty. */
  lemma {:induction false} PartsNonEmpty(row: Row, fields: seq<(string, string)>)
    ensures forall i :: 0 <= i < |InfoParts(row, fields)| ==> InfoParts(row, fields)[i] != []
    decreases |fields|
  {
    if fields != [] {
      PartsNonEmpty(row, fields[..|fields| - 1]);
    }
  }

  /** Joining parts that are not empty gives "" only for no parts. */
  lemma JoinEmpty(parts: seq<string>, sep: string)
    requires forall i :: 0 <= i < |parts| ==> parts[i] != []
    ensures Join(parts, sep) == [] <==> parts == []
  {
    if |parts| >= 2 {
      assert |Join(parts, sep)| >= |parts[0]|;
    }
  }

  /** The notes cell is empty exactly when all four columns are blank. */
  lemma AdditionalInfoEmpty(row: Row)
    ensures AdditionalInfo(row) == [] <==>
      && !Filled(Get(row, "Food Any Allergies"))
      && !Filled(Get(row, "Food Notes (inc Allergies)"))
      && !Filled(Get(row, "Telephone"))
      && !Filled(Get(row, "Email"))
  {
    PartsNonEmpty(row, InfoFields);
    JoinEmpty(InfoParts(row, InfoFields), Separator);
    InfoPartsOfTable(row);
  }

  /** With all four columns filled, they appear in the fixed order. */
  lemma AllFilledOrder(row: Row)
    requires Filled(Get(row, "Food Any Allergies")) && Filled(Get(row, "Food Notes (inc Allergies)"))
    requires Filled(Get(row, "Telephone")) && Filled(Get(row, "Email"))
    ensures AdditionalInfo(row) ==
      Labelled("Food", Get(row, "Food Any Allergies")) + " | " +
      Labelled("Notes", Get(row, "Food Notes (inc Allergies)")) + " | " +
      Labelled("Tel", Get(row, "Telephone")) + " | " +
      Labelled("Email", Get(row, "Email"))
  {
    InfoPartsOfTable(row);
    var a, b, c, d := Labelled("Food", Get(row, "Food Any Allergies")), Labelled("Notes", Get(row, "Food Notes (inc Allergies)")),
      Labelled("Tel", Get(row, "Telephone")), Labelled("Email", Get(row, "Email"));
    assert Part(row, FoodField) == [a] && Part(row, NotesField) == [b];
    assert Part(row, TelField) == [c] && Part(row, EmailField) == [d];
    Singletons(a, b, c, d);
    JoinFour(a, b, c, d, Separator);
  }

  lemma Singletons<T>(a: T, b: T, c: T, d: T)
    ensures [a] + [b] + [c] + [d] == [a, b, c, d]
  {
  }

  lemma JoinFour(a: string, b: string, c: string, d: string, sep: string)
    ensures Join([a, b, c, d], sep) == a + sep + b + sep + c + sep + d
  {
    assert [a, b, c, d][1..] == [b, c, d];
    assert [b, c, d][1..] == [c, d];
    assert [c, d][1..] == [d];
    assert Join([c, d], sep) == c + sep + d;
    assert Join([b, c, d], sep) == b + sep + (c + sep + d);
    assert Join([a, b, c, d], sep) == a + sep + (b + sep + (c + sep + d));
  }

  /** A single filled column gives its labelled value alone. */
  lemma OnlyTelephone(row: Row)
    requires !Filled(Get(row, "Food Any Allergies")) && !Filled(Get(row, "Food Notes (inc Allergies)"))
    requires Filled(Get(row, "Telephone")) && !Filled(Get(row, "Email"))
    ensures AdditionalInfo(row) == "Tel: " + Trim(Text(Get(row, "Telephone")))
  {
    InfoPartsOfTable(row);
  }
}
