/** `groupByDate` of lib/generator.js: bookings grouped by the calendar day
    of their date column, in a map whose keys keep insertion order. */
module Grouping {
  import opened Options
  import opened Seqs
  import opened Values

  /** `new Date(v)` followed by the validity test and `toISOString().slice(0, 10)`
      for a value that is not already a date object: the day it names, or
      `None` for an invalid date. JavaScript's date parsing is not modelled;
      the generator receives it as this parameter. */
  type DateParser = Value -> Option<string>

  /** The key a date cell files its row under: none for a falsy cell; the
      UTC day of a date object; otherwise the parsed day, if valid. */
  function DayOf(v: Value, parse: DateParser): (d: Option<string>)
    ensures !Truthy(v) ==> d.None?
    ensures v.Date? ==> d == Some(v.day)
  {
    if !Truthy(v) then None
    else if v.Date? then Some(v.day)
    else parse(v)
  }

  function RowDay(r: Row, dateKey: string, parse: DateParser): Option<string> {
    DayOf(Get(r, dateKey), parse)
  }

  /** The days of the rows that have one, in row order, repeats included. */
  function Days(rows: seq<Row>, dateKey: string, parse: DateParser): (ds: seq<string>)
  {
    if rows == [] then []
    else
      var init, r := rows[..|rows| - 1], rows[|rows| - 1];
      match RowDay(r, dateKey, parse)
      case None => Days(init, dateKey, parse)
      case Some(d) => Days(init, dateKey, parse) + [d]
  }

  /** The keys of the map `groupByDate` returns, in insertion order. */
  function DayKeys(rows: seq<Row>, dateKey: string, parse: DateParser): (keys: seq<string>)
    ensures NoDuplicates(keys)
  {
    Dedup(Days(rows, dateKey, parse))
  }

  /** The rows whose day is `d`, in row order. */
  function RowsOn(rows: seq<Row>, dateKey: string, parse: DateParser, d: string): (g: seq<Row>)
  {
    if rows == [] then []
    else
      var init, r := rows[..|rows| - 1], rows[|rows| - 1];
      RowsOn(init, dateKey, parse, d) + (if RowDay(r, dateKey, parse) == Some(d) then [r] else [])
  }

  /** The rows that have a day at all, in row order. */
  function Kept(rows: seq<Row>, dateKey: string, parse: DateParser): seq<Row> {
    if rows == [] then []
    else
      var init, r := rows[..|rows| - 1], rows[|rows| - 1];
      Kept(init, dateKey, parse) + (if RowDay(r, dateKey, parse).Some? then [r] else [])
  }

  /** `keys` and `groups` are the key order and the contents of the map
      `groupByDate` builds from `rows`. */
  ghost predicate Grouped(keys: seq<string>, groups: map<string, seq<Row>>, rows: seq<Row>, dateKey: string, parse: DateParser) {
    && keys == DayKeys(rows, dateKey, parse)
    && (forall d :: d in groups <==> d in keys)
    && (forall d :: d in groups ==> groups[d] == RowsOn(rows, dateKey, parse, d))
  }

  /** `groupByDate(rows, dateKey)`: each row with a truthy, valid date is
      pushed onto the group of its day, the group being created (and its key
      appended) on the day's first row. */
  method GroupByDate(rows: seq<Row>, dateKey: string, parse: DateParser)
    returns (keys: seq<string>, groups: map<string, seq<Row>>)
    ensures keys == DayKeys(rows, dateKey, parse)
    ensures forall i :: 0 <= i < |keys| ==> keys[i] in groups && groups[keys[i]] == RowsOn(rows, dateKey, parse, keys[i])
    ensures forall d :: d in groups ==> d in keys
  {
    keys, groups := [], map[];
    for i := 0 to |rows|
      invariant Grouped(keys, groups, rows[..i], dateKey, parse)
    {
      var r, seen := rows[i], rows[..i];
      assert rows[..i + 1] == seen + [r];
      var v := Get(r, dateKey);
      if !Truthy(v) {
        SkipRow(keys, groups, seen, r, dateKey, parse);
        continue;
      }
      var day := if v.Date? then Some(v.day) else parse(v);
      if day.None? {
        SkipRow(keys, groups, seen, r, dateKey, parse);
        continue;
      }
      var key := day.value;
      PushRow(keys, groups, seen, r, dateKey, parse, key);
      var group := if key in groups then groups[key] else [];
      if key !in groups {
        keys := keys + [key];
      }
      groups := groups[key := group + [r]];
    }
    assert rows[..|rows|] == rows;
    assert Grouped(keys, groups, rows, dateKey, parse);
  }

  /** A row without a valid date leaves the map as it is. */
  lemma SkipRow(keys: seq<string>, groups: map<string, seq<Row>>, rows: seq<Row>, r: Row, dateKey: string, parse: DateParser)
    requires Grouped(keys, groups, rows, dateKey, parse)
    requires RowDay(r, dateKey, parse).None?
    ensures Grouped(keys, groups, rows + [r], dateKey, parse)
  {
    DroppedRow(rows, r, dateKey, parse);
  }

  /** A row with day `key` is appended to that day's group, which is created,
      and its key appended, when the day is new. */
  lemma PushRow(keys: seq<string>, groups: map<string, seq<Row>>, rows: seq<Row>, r: Row, dateKey: string, parse: DateParser, key: string)
    requires Grouped(keys, groups, rows, dateKey, parse)
    requires RowDay(r, dateKey, parse) == Some(key)
    ensures Grouped(if key in groups then keys else keys + [key],
                    groups[key := (if key in groups then groups[key] else []) + [r]],
                    rows + [r], dateKey, parse)
  {
    var keys' := if key in groups then keys else keys + [key];
    var groups' := groups[key := (if key in groups then groups[key] else []) + [r]];
    assert keys' == DayKeys(rows + [r], dateKey, parse) by {
      AddedRow(rows, r, dateKey, parse, key);
      DedupAppend(Days(rows, dateKey, parse), key);
    }
    assert forall d :: d in groups' <==> d in keys';
    PushedGroups(groups, rows, r, dateKey, parse, key);
    assert Grouped(keys', groups', rows + [r], dateKey, parse);
  }

  lemma PushedGroups(groups: map<string, seq<Row>>, rows: seq<Row>, r: Row, dateKey: string, parse: DateParser, key: string)
    requires forall d :: d in groups ==> groups[d] == RowsOn(rows, dateKey, parse, d)
    requires key !in groups ==> key !in DayKeys(rows, dateKey, parse)
    requires RowDay(r, dateKey, parse) == Some(key)
    ensures var groups' := groups[key := (if key in groups then groups[key] else []) + [r]];
      forall d :: d in groups' ==> groups'[d] == RowsOn(rows + [r], dateKey, parse, d)
  {
    var groups' := groups[key := (if key in groups then groups[key] else []) + [r]];
    AddedRow(rows, r, dateKey, parse, key);
    if key !in groups {
      KeysAreOccupiedDays(rows, dateKey, parse, key);
    }
    forall d | d in groups'
      ensures groups'[d] == RowsOn(rows + [r], dateKey, parse, d)
    {
      if d != key {
        assert groups'[d] == groups[d];
      }
    }
  }

  // ----- properties of the grouping -----

  /** Grouping a concatenation: the group of a day lists the rows of the
      first part before those of the second, each in input order. */
  lemma {:induction false} RowsOnAppend(a: seq<Row>, b: seq<Row>, dateKey: string, parse: DateParser, d: string)
    ensures RowsOn(a + b, dateKey, parse, d) == RowsOn(a, dateKey, parse, d) + RowsOn(b, dateKey, parse, d)
    decreases |b|
  {
    if b == [] {
      assert a + b == a;
    } else {
      var init, r := b[..|b| - 1], b[|b| - 1];
      assert (a + b)[..|a + b| - 1] == a + init && (a + b)[|a + b| - 1] == r;
      RowsOnAppend(a, init, dateKey, parse, d);
    }
  }

  /** Every row of the group of `d` has day `d`. */
  lemma {:induction false} RowsOnDay(rows: seq<Row>, dateKey: string, parse: DateParser, d: string)
    ensures forall i :: 0 <= i < |RowsOn(rows, dateKey, parse, d)| ==> RowDay(RowsOn(rows, dateKey, parse, d)[i], dateKey, parse) == Some(d)
    decreases |rows|
  {
    if rows != [] {
      RowsOnDay(rows[..|rows| - 1], dateKey, parse, d);
    }
  }

  /** A row without a valid date joins no group and adds no key. */
  lemma DroppedRow(rows: seq<Row>, r: Row, dateKey: string, parse: DateParser)
    requires RowDay(r, dateKey, parse).None?
    ensures DayKeys(rows + [r], dateKey, parse) == DayKeys(rows, dateKey, parse)
    ensures forall d :: RowsOn(rows + [r], dateKey, parse, d) == RowsOn(rows, dateKey, parse, d)
  {
    assert (rows + [r])[..|rows|] == rows;
  }

  /** A row with day `d` becomes the last row of the group of `d`. */
  lemma AddedRow(rows: seq<Row>, r: Row, dateKey: string, parse: DateParser, d: string)
    requires RowDay(r, dateKey, parse) == Some(d)
    ensures Days(rows + [r], dateKey, parse) == Days(rows, dateKey, parse) + [d]
    ensures RowsOn(rows + [r], dateKey, parse, d) == RowsOn(rows, dateKey, parse, d) + [r]
    ensures forall e :: e != d ==> RowsOn(rows + [r], dateKey, parse, e) == RowsOn(rows, dateKey, parse, e)
  {
    assert (rows + [r])[..|rows|] == rows;
  }

  /** A day is a key exactly when some row falls on it, so no group is empty. */
  lemma {:induction false} KeysAreOccupiedDays(rows: seq<Row>, dateKey: string, parse: DateParser, d: string)
    ensures d in DayKeys(rows, dateKey, parse) <==> RowsOn(rows, dateKey, parse, d) != []
    decreases |rows|
  {
    if rows != [] {
      var init, r := rows[..|rows| - 1], rows[|rows| - 1];
      KeysAreOccupiedDays(init, dateKey, parse, d);
      var g := RowsOn(init, dateKey, parse, d);
      match RowDay(r, dateKey, parse)
      case None =>
        assert Days(rows, dateKey, parse) == Days(init, dateKey, parse);
        assert RowsOn(rows, dateKey, parse, d) == g;
      case Some(e) =>
        var ds := Days(init, dateKey, parse);
        assert Days(rows, dateKey, parse) == ds + [e];
        DedupAppend(ds, e);
        assert d in Dedup(ds + [e]) <==> d in Dedup(ds) || d == e;
        assert RowsOn(rows, dateKey, parse, d) == g + (if e == d then [r] else []);
    }
  }

  /** Keys appear in the order of the first rows of their days. */
  lemma KeysInFirstAppearanceOrder(rows: seq<Row>, dateKey: string, parse: DateParser, a: nat, b: nat)
    requires a < b < |DayKeys(rows, dateKey, parse)|
    ensures FirstIndex(Days(rows, dateKey, parse), DayKeys(rows, dateKey, parse)[a])
          < FirstIndex(Days(rows, dateKey, parse), DayKeys(rows, dateKey, parse)[b])
  {
    DedupFirstAppearanceOrder(Days(rows, dateKey, parse), a, b);
  }

  /** The groups of `keys`, one after another. */
  function Collected(rows: seq<Row>, dateKey: string, parse: DateParser, keys: seq<string>): seq<Row> {
    if keys == [] then []
    else Collected(rows, dateKey, parse, keys[..|keys| - 1]) + RowsOn(rows, dateKey, parse, keys[|keys| - 1])
  }

  /** The groups partition the rows that have a day: together they hold each
      such row exactly as often as the input does, and nothing else. */
  lemma {:induction false} GroupsPartitionRows(rows: seq<Row>, dateKey: string, parse: DateParser)
    ensures multiset(Collected(rows, dateKey, parse, DayKeys(rows, dateKey, parse))) == multiset(Kept(rows, dateKey, parse))
    decreases |rows|
  {
    if rows != [] {
      var init, r := rows[..|rows| - 1], rows[|rows| - 1];
      assert rows == init + [r];
      GroupsPartitionRows(init, dateKey, parse);
      PartitionStep(init, r, dateKey, parse);
    }
  }

  /** One more row keeps the groups a partition of the rows that have a day. */
  lemma PartitionStep(rows: seq<Row>, r: Row, dateKey: string, parse: DateParser)
    requires multiset(Collected(rows, dateKey, parse, DayKeys(rows, dateKey, parse))) == multiset(Kept(rows, dateKey, parse))
    ensures var rows' := rows + [r];
      multiset(Collected(rows', dateKey, parse, DayKeys(rows', dateKey, parse))) == multiset(Kept(rows', dateKey, parse))
  {
    var rows', keys := rows + [r], DayKeys(rows, dateKey, parse);
    assert rows'[..|rows|] == rows;
    match RowDay(r, dateKey, parse)
    case None =>
      assert Kept(rows', dateKey, parse) == Kept(rows, dateKey, parse);
      DroppedRow(rows, r, dateKey, parse);
      CollectedSkip(rows, r, dateKey, parse, keys);
    case Some(d) =>
      assert Kept(rows', dateKey, parse) == Kept(rows, dateKey, parse) + [r];
      assert DayKeys(rows', dateKey, parse) == if d in keys then keys else keys + [d] by {
        AddedRow(rows, r, dateKey, parse, d);
        DedupAppend(Days(rows, dateKey, parse), d);
      }
      CollectedStep(rows, r, dateKey, parse, keys, d);
      if d !in keys {
        NewDayCollected(rows, r, dateKey, parse, keys, d);
      }
  }

  lemma NewDayCollected(rows: seq<Row>, r: Row, dateKey: string, parse: DateParser, keys: seq<string>, d: string)
    requires keys == DayKeys(rows, dateKey, parse) && d !in keys
    requires RowDay(r, dateKey, parse) == Some(d)
    ensures Collected(rows + [r], dateKey, parse, keys + [d]) == Collected(rows + [r], dateKey, parse, keys) + [r]
  {
    var keys' := keys + [d];
    assert keys'[..|keys'| - 1] == keys;
    assert Collected(rows + [r], dateKey, parse, keys') ==
      Collected(rows + [r], dateKey, parse, keys) + RowsOn(rows + [r], dateKey, parse, d);
    KeysAreOccupiedDays(rows, dateKey, parse, d);
    assert RowsOn(rows, dateKey, parse, d) == [];
    AddedRow(rows, r, dateKey, parse, d);
    assert RowsOn(rows + [r], dateKey, parse, d) == [r];
  }

  lemma {:induction false} CollectedSkip(rows: seq<Row>, r: Row, dateKey: string, parse: DateParser, keys: seq<string>)
    requires RowDay(r, dateKey, parse).None?
    ensures Collected(rows + [r], dateKey, parse, keys) == Collected(rows, dateKey, parse, keys)
    decreases |keys|
  {
    if keys != [] {
      CollectedSkip(rows, r, dateKey, parse, keys[..|keys| - 1]);
      DroppedRow(rows, r, dateKey, parse);
    }
  }

  lemma {:induction false} CollectedStep(rows: seq<Row>, r: Row, dateKey: string, parse: DateParser, keys: seq<string>, d: string)
    requires RowDay(r, dateKey, parse) == Some(d)
    requires NoDuplicates(keys)
    ensures multiset(Collected(rows + [r], dateKey, parse, keys))
         == multiset(Collected(rows, dateKey, parse, keys)) + (if d in keys then multiset{r} else multiset{})
    decreases |keys|
  {
    if keys != [] {
      var init, k := keys[..|keys| - 1], keys[|keys| - 1];
      assert keys == init + [k];
      NoDuplicatesInit(keys);
      CollectedStep(rows, r, dateKey, parse, init, d);
      var before, after := Collected(rows, dateKey, parse, init), Collected(rows + [r], dateKey, parse, init);
      var g, g' := RowsOn(rows, dateKey, parse, k), RowsOn(rows + [r], dateKey, parse, k);
      assert Collected(rows, dateKey, parse, keys) == before + g;
      assert Collected(rows + [r], dateKey, parse, keys) == after + g';
      assert g' == g + (if d == k then [r] else []) by {
        AddedRow(rows, r, dateKey, parse, d);
      }
      assert d in keys <==> d in init || d == k;
      AppendCounts(before, g, after, g', r, d in init, d == k);
    }
  }

  /** Appending two sequences that each gained `x` at most once. */
  lemma AppendCounts<T>(a: seq<T>, b: seq<T>, a': seq<T>, b': seq<T>, x: T, inA: bool, inB: bool)
    requires multiset(a') == multiset(a) + (if inA then multiset{x} else multiset{})
    requires multiset(b') == multiset(b) + (if inB then multiset{x} else multiset{})
    requires !(inA && inB)
    ensures multiset(a' + b') == multiset(a + b) + (if inA || inB then multiset{x} else multiset{})
  {
  }
}
