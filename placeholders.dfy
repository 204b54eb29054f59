/** The text substitution at the heart of `replaceDocxPlaceholders` in
    lib/generator.js: every entry of the mapping, in order, is applied to the
    whole `word/document.xml` text as `out.split(k).join(v)`. */
module Placeholders {
  import opened Strings

  /** `Object.entries(mapping)`: key and value pairs in insertion order. */
  type Mapping = seq<(string, string)>

  /** The document text after applying the first `|entries|` entries in turn. */
  function Substituted(xml: string, entries: Mapping): string {
    if entries == [] then xml
    else
      var last := entries[|entries| - 1];
      ReplaceAll(Substituted(xml, entries[..|entries| - 1]), last.0, last.1)
  }

  /** The replacement loop of `replaceDocxPlaceholders`. */
  method ReplacePlaceholders(xml: string, entries: Mapping) returns (out: string)
    ensures out == Substituted(xml, entries)
  {
    out := xml;
    for i := 0 to |entries|
      invariant out == Substituted(xml, entries[..i])
    {
      var (k, v) := entries[i];
      assert entries[..i + 1][..i] == entries[..i];
      out := ReplaceAll(out, k, v);
    }
    assert entries[..|entries|] == entries;
  }

  /** No key of `entries` occurs in `s`. */
  predicate NoKeyIn(s: string, entries: Mapping) {
    forall i :: 0 <= i < |entries| ==> entries[i].0 != [] && !Includes(s, entries[i].0)
  }

  /** A document in which no placeholder occurs is left as it is, whatever
      the values. */
  lemma {:induction false} SubstitutedWithoutKeys(xml: string, entries: Mapping)
    requires NoKeyIn(xml, entries)
    ensures Substituted(xml, entries) == xml
    decreases |entries|
  {
    if entries != [] {
      var init, last := entries[..|entries| - 1], entries[|entries| - 1];
      assert NoKeyIn(xml, init) by {
        assert forall i :: 0 <= i < |init| ==> init[i] == entries[i];
      }
      SubstitutedWithoutKeys(xml, init);
      ReplaceAllAbsent(xml, last.0, last.1);
    }
  }

  /** Every entry maps its key to itself. */
  predicate Identity(entries: Mapping) {
    forall i :: 0 <= i < |entries| ==> entries[i].0 != [] && entries[i].1 == entries[i].0
  }

  /** Mapping every placeholder to itself leaves the document as it is:
      each split is undone by the join. */
  lemma {:induction false} SubstitutedIdentity(xml: string, entries: Mapping)
    requires Identity(entries)
    ensures Substituted(xml, entries) == xml
    decreases |entries|
  {
    if entries != [] {
      var init, last := entries[..|entries| - 1], entries[|entries| - 1];
      assert Identity(init) by {
        assert forall i :: 0 <= i < |init| ==> init[i] == entries[i];
      }
      SubstitutedIdentity(xml, init);
      ReplaceAllSelf(xml, last.0);
    }
  }

  /** `split(k).join(v)` replaces the first occurrence of `k` by `v` and goes
      on with the text after that occurrence. */
  lemma ReplaceFirst(s: string, k: string, v: string)
    requires k != [] && IndexOf(s, k, 0) >= 0
    ensures var i := IndexOf(s, k, 0);
      ReplaceAll(s, k, v) == s[..i] + v + ReplaceAll(s[i + |k|..], k, v)
  {
    var i := IndexOf(s, k, 0);
    var rest := Split(s[i + |k|..], k);
    assert Split(s, k) == [s[..i]] + rest;
    assert ([s[..i]] + rest)[1..] == rest;
  }

  /** Text without the key passes through the replacement unchanged, and
      each occurrence found by the left-to-right scan becomes `v`. */
  lemma ReplaceAround(a: string, k: string, v: string, b: string)
    requires k != [] && !Includes(a + k[..|k| - 1], k)
    ensures ReplaceAll(a + k + b, k, v) == a + v + ReplaceAll(b, k, v)
  {
    var s := a + k + b;
    assert OccursAt(s, k, |a|) by {
      assert s[|a|..|a| + |k|] == k;
    }
    forall j | 0 <= j < |a| ensures !OccursAt(s, k, j) {
      if OccursAt(s, k, j) {
        var t := a + k[..|k| - 1];
        assert j + |k| <= |t|;
        assert t[j..j + |k|] == s[j..j + |k|];
        assert OccursAt(t, k, j);
      }
    }
    assert IndexOf(s, k, 0) == |a|;
    ReplaceFirst(s, k, v);
    assert s[..|a|] == a && s[|a| + |k|..] == b;
  }

  /** Replacing a one-character key by a value without that character leaves
      no occurrence of it. */
  lemma {:induction false} ReplaceCharRemoves(s: string, c: char, v: string)
    requires c !in v
    ensures c !in ReplaceAll(s, [c], v)
    decreases |s|
  {
    var i := IndexOf(s, [c], 0);
    if i < 0 {
      ReplaceAllAbsent(s, [c], v);
      IncludesChar(s, c);
    } else {
      ReplaceFirst(s, [c], v);
      ReplaceCharRemoves(s[i + 1..], c, v);
      forall j | 0 <= j < i ensures s[j] != c {
        assert !OccursAt(s, [c], j);
        assert s[j..j + 1] == [s[j]];
      }
    }
  }

  /** A value free of its key does not guarantee the key is gone: in
      "NAME NAME 11" the scan finds "NAME 1" at position 5, and replacing it
      by "" joins "NAME " with "1" into a new "NAME 1". */
  lemma ReplacementCanRecreateKey(s: string, k: string)
    requires s == "NAME NAME 11" && k == "NAME 1"
    ensures !Includes("", k)
    ensures ReplaceAll(s, k, "") == k
  {
    var a, b := "NAME ", "1";
    assert s == a + k + b;
    assert !Includes(a + k[..|k| - 1], k) by {
      AbsentPrefixKey(a + k[..|k| - 1], k);
    }
    ReplaceAround(a, k, "", b);
    assert !Includes(b, k);
    ReplaceAllAbsent(b, k, "");
    assert a + "" + b == k;
  }

  /** "NAME NAME " does not contain "NAME 1". */
  lemma AbsentPrefixKey(t: string, k: string)
    requires t == "NAME NAME " && k == "NAME 1"
    ensures !Includes(t, k)
  {
    forall j | 0 <= j <= |t| - |k| ensures !OccursAt(t, k, j) {
      assert t[j + 5] != k[5];
    }
  }
}
