/** `generateSigns` of lib/generator.js: the first names of the Tag X and
    Stompers bookings, each list without repeats, laid out on name-sign
    pages of four and of two names, one document per page. */
module Signs {
  import opened Options
  import opened Strings
  import opened Seqs
  import opened Values
  import opened Party
  import opened Names
  import opened Placeholders

  // ----- the name lists -----

  /** The name a booking contributes to the list of `kind`: the first name
      of its child column, upper-cased for Stompers and title-cased for
      Tag X, when its party type is of that kind. Other bookings add none. */
  function SignName(r: Row, kind: Category): Option<string> {
    NameOfKind(Get(r, "Party Type"), Get(r, "Child Details Name/Age"), kind)
  }

  /** The same on the booking's party type and child column. */
  function NameOfKind(ptype: Value, child: Value, kind: Category): Option<string> {
    if kind != Unknown && PartyKind(ptype) == kind then ExtractFirstName(child, kind == Stomp) else None
  }

  /** The values `f` yields along `xs`, in order, skipping `None`. */
  function Yielded<T, U>(xs: seq<T>, f: T -> Option<U>): (ys: seq<U>)
    ensures |ys| <= |xs|
  {
    if xs == [] then []
    else
      var init := Yielded(xs[..|xs| - 1], f);
      match f(xs[|xs| - 1])
      case None => init
      case Some(y) => init + [y]
  }

  lemma YieldedPush<T, U>(xs: seq<T>, x: T, f: T -> Option<U>)
    ensures Yielded(xs + [x], f) == if f(x).Some? then Yielded(xs, f) + [f(x).value] else Yielded(xs, f)
  {
    assert (xs + [x])[..|xs|] == xs;
  }

  /** What `Yielded` holds is exactly what `f` yields for some element. */
  lemma {:induction false} YieldedMembers<T, U>(xs: seq<T>, f: T -> Option<U>, y: U)
    ensures y in Yielded(xs, f) <==> exists i :: 0 <= i < |xs| && f(xs[i]) == Some(y)
    decreases |xs|
  {
    if xs != [] {
      var init, last := xs[..|xs| - 1], xs[|xs| - 1];
      var n := |init|;
      assert xs == init + [last];
      YieldedMembers(init, f, y);
      YieldedPush(init, last, f);
      if y in Yielded(xs, f) {
        if y in Yielded(init, f) {
          var i :| 0 <= i < n && f(init[i]) == Some(y);
          assert xs[i] == init[i];
        } else {
          assert f(xs[n]) == Some(y);
        }
      }
      if exists i :: 0 <= i < |xs| && f(xs[i]) == Some(y) {
        var i :| 0 <= i < |xs| && f(xs[i]) == Some(y);
        if i < n {
          assert init[i] == xs[i];
        }
      }
    }
  }

  /** The names the rows contribute, in row order, repeats included. */
  function Extracted(rows: seq<Row>, kind: Category): seq<string> {
    Yielded(rows, r => SignName(r, kind))
  }

  /** The list `generateSigns` builds for `kind`: each name pushed unless
      it is already included. */
  function SignNames(rows: seq<Row>, kind: Category): seq<string> {
    Dedup(Extracted(rows, kind))
  }

  /** `if (n && !list.includes(n)) list.push(n)`. */
  function PushName(list: seq<string>, n: Option<string>): seq<string> {
    if n.Some? && n.value != [] && n.value !in list then list + [n.value] else list
  }

  /** One row of the collecting loop: its name, if any, is appended unless
      the list already holds it; a name, when there is one, is never empty,
      so the `n &&` test of the source only rules out `null`. */
  lemma CollectStep(seen: seq<Row>, r: Row, kind: Category)
    ensures SignName(r, kind).Some? ==> SignName(r, kind).value != []
    ensures SignNames(seen + [r], kind) ==
      match SignName(r, kind)
      case None => SignNames(seen, kind)
      case Some(n) => if n in SignNames(seen, kind) then SignNames(seen, kind) else SignNames(seen, kind) + [n]
    ensures SignNames(seen + [r], kind) == PushName(SignNames(seen, kind), SignName(r, kind))
  {
    YieldedPush(seen, r, r => SignName(r, kind));
    ExtractedShape(Get(r, "Child Details Name/Age"), kind == Stomp);
    if SignName(r, kind).Some? {
      DedupAppend(Extracted(seen, kind), SignName(r, kind).value);
    }
  }

  /** The body of the collecting loop for one booking: its party kind
      decides which list, if any, its first name is pushed onto. */
  method CollectRow(r: Row, tagNames: seq<string>, stompNames: seq<string>)
    returns (tags: seq<string>, stomps: seq<string>)
    ensures tags == PushName(tagNames, SignName(r, TagX))
    ensures stomps == PushName(stompNames, SignName(r, Stomp))
  {
    tags, stomps := tagNames, stompNames;
    var ptype, child := Get(r, "Party Type"), Get(r, "Child Details Name/Age");
    assert SignName(r, TagX) == NameOfKind(ptype, child, TagX);
    assert SignName(r, Stomp) == NameOfKind(ptype, child, Stomp);
    var kind := PartyKind(ptype);
    if kind == TagX {
      var n := ExtractFirstName(child, false);
      if n.Some? && n.value != [] && n.value !in tagNames {
        tags := tagNames + [n.value];
      }
    } else if kind == Stomp {
      var n := ExtractFirstName(child, true);
      if n.Some? && n.value != [] && n.value !in stompNames {
        stomps := stompNames + [n.value];
      }
    }
  }

  /** The first loop of `generateSigns`: one pass over the rows filling
      both lists. */
  method CollectNames(rows: seq<Row>) returns (tagNames: seq<string>, stompNames: seq<string>)
    ensures tagNames == SignNames(rows, TagX)
    ensures stompNames == SignNames(rows, Stomp)
  {
    tagNames, stompNames := [], [];
    for i := 0 to |rows|
      invariant tagNames == SignNames(rows[..i], TagX)
      invariant stompNames == SignNames(rows[..i], Stomp)
    {
      PrefixStep(rows, i);
      CollectStep(rows[..i], rows[i], TagX);
      CollectStep(rows[..i], rows[i], Stomp);
      tagNames, stompNames := CollectRow(rows[i], tagNames, stompNames);
    }
    assert rows[..|rows|] == rows;
  }

  /** A name is on the list of `kind` exactly when some booking of that kind
      yields it, and no name is listed twice. */
  lemma SignNamesMembers(rows: seq<Row>, kind: Category, x: string)
    ensures NoDuplicates(SignNames(rows, kind))
    ensures x in SignNames(rows, kind) <==> exists i :: 0 <= i < |rows| && SignName(rows[i], kind) == Some(x)
  {
    YieldedMembers(rows, r => SignName(r, kind), x);
    DedupMembers(Extracted(rows, kind), x);
  }

  /** The lists keep the order in which the names first turn up. */
  lemma SignNamesOrder(rows: seq<Row>, kind: Category, a: nat, b: nat)
    requires a < b < |SignNames(rows, kind)|
    ensures FirstIndex(Extracted(rows, kind), SignNames(rows, kind)[a]) <
            FirstIndex(Extracted(rows, kind), SignNames(rows, kind)[b])
  {
    DedupFirstAppearanceOrder(Extracted(rows, kind), a, b);
  }

  /** Every listed name is a clean first name: Stompers names in capitals,
      Tag X names with a capital first letter and the rest in lower case. */
  lemma SignNamesShape(rows: seq<Row>, kind: Category, k: nat)
    requires k < |SignNames(rows, kind)|
    ensures Clean(SignNames(rows, kind)[k])
    ensures kind == Stomp ==> forall i :: 0 <= i < |SignNames(rows, kind)[k]| ==> !IsLower(SignNames(rows, kind)[k][i])
    ensures kind == TagX ==>
      && !IsLower(SignNames(rows, kind)[k][0])
      && forall i :: 0 < i < |SignNames(rows, kind)[k]| ==> !IsUpper(SignNames(rows, kind)[k][i])
  {
    var x := SignNames(rows, kind)[k];
    SignNamesMembers(rows, kind, x);
    var i :| 0 <= i < |rows| && SignName(rows[i], kind) == Some(x);
    ExtractedShape(Get(rows[i], "Child Details Name/Age"), kind == Stomp);
  }

  // ----- the pages -----

  /** The placeholders of the Tag X template, four signs a page, and of the
      Stompers template, two a page. */
  const TagKeys: seq<string> := ["NAME 1", "NAME 2", "NAME 3", "NAME 4"]
  const StompKeys: seq<string> := ["NAME 1", "NAME 2"]

  function Max(a: int, b: int): int { if a < b then b else a }
  function Min(a: int, b: int): int { if a < b then a else b }

  /** How often `for (i = 0; i < Math.max(1, n); i += cap)` runs. */
  function PageCount(n: nat, cap: nat): nat
    requires cap > 0
  {
    (Max(1, n) + cap - 1) / cap
  }

  /** `names.slice(i, i + cap)`, which is cut short at the end of the list. */
  function Chunk(names: seq<string>, i: nat, cap: nat): seq<string> {
    if i >= |names| then [] else names[i..Min(i + cap, |names|)]
  }

  /** The mapping of one page: the k-th placeholder to the k-th name of the
      chunk, or to "" past the chunk's end (`chunk[k] || ""`). */
  function PageMapping(chunk: seq<string>, keys: seq<string>): (m: Mapping)
    ensures |m| == |keys|
  {
    seq(|keys|, j requires 0 <= j < |keys| => (keys[j], if j < |chunk| then chunk[j] else ""))
  }

  /** The document of the page that starts at name `i`: the template itself
      when the list is empty, otherwise the template with the page's
      mapping applied. */
  function PageText(xml: string, names: seq<string>, keys: seq<string>, i: nat): string {
    if |names| == 0 then xml else Substituted(xml, PageMapping(Chunk(names, i, |keys|), keys))
  }

  /** One generated sign document: its file name and its text. */
  datatype SignFile = SignFile(name: string, doc: string)

  /** `${prefix}${k}.docx`. */
  function FileName(prefix: string, k: nat): string {
    prefix + NatToString(k) + ".docx"
  }

  /** Page `p` (from 0): the `p + 1`-th file, filled from name `cap * p` on. */
  function Page(names: seq<string>, xml: string, keys: seq<string>, prefix: string, p: nat): SignFile {
    SignFile(FileName(prefix, p + 1), PageText(xml, names, keys, |keys| * p))
  }

  /** The first `count` pages of a list. */
  function Pages(names: seq<string>, xml: string, keys: seq<string>, prefix: string, count: nat): (files: seq<SignFile>)
    ensures |files| == count
  {
    if count == 0 then []
    else Pages(names, xml, keys, prefix, count - 1) + [Page(names, xml, keys, prefix, count - 1)]
  }

  /** All the pages of a list. */
  function SignFiles(names: seq<string>, xml: string, keys: seq<string>, prefix: string): seq<SignFile>
    requires keys != []
  {
    Pages(names, xml, keys, prefix, PageCount(|names|, |keys|))
  }

  /** The loop runs once more exactly while the pages made so far do not
      reach the page count. */
  lemma PageStep(n: nat, cap: nat, f: nat)
    requires cap > 0
    ensures cap * f < Max(1, n) <==> f < PageCount(n, cap)
  {
    var m := Max(1, n);
    var q, r := (m + cap - 1) / cap, (m + cap - 1) % cap;
    assert m + cap - 1 == cap * q + r && 0 <= r < cap;
    if f < q {
      assert cap * f <= cap * (q - 1) by {
        MulMonotone(cap, f, q - 1);
      }
    } else {
      assert cap * f >= cap * q by {
        MulMonotone(cap, q, f);
      }
    }
  }

  lemma MulMonotone(c: nat, a: nat, b: nat)
    requires a <= b
    ensures c * a <= c * b
  {
    assert c * b == c * a + c * (b - a);
  }

  lemma MulSucc(c: nat, f: nat)
    ensures c * (f + 1) == c * f + c
  {
  }

  /** One page loop of `generateSigns`: `cap` names a page, the page's
      mapping substituted into the template, or the template itself when
      the list is empty. */
  method BuildPages(names: seq<string>, xml: string, keys: seq<string>, prefix: string) returns (files: seq<SignFile>)
    requires keys != []
    ensures files == SignFiles(names, xml, keys, prefix)
  {
    var cap := |keys|;
    var limit := Max(1, |names|);
    ghost var count := PageCount(|names|, cap);
    files := [];
    var i := 0;
    while i < limit
      invariant i == cap * |files|
      invariant |files| <= count
      invariant files == Pages(names, xml, keys, prefix, |files|)
      decreases limit - i
    {
      ghost var f := |files|;
      PageStep(|names|, cap, f);
      assert f < count;
      var chunk := Chunk(names, i, cap);
      var mapping := PageMapping(chunk, keys);
      var doc;
      if |names| > 0 {
        doc := ReplacePlaceholders(xml, mapping);
      } else {
        doc := xml;
      }
      var page := SignFile(FileName(prefix, |files| + 1), doc);
      assert page == Page(names, xml, keys, prefix, f);
      files := files + [page];
      MulSucc(cap, f);
      i := i + cap;
    }
    PageStep(|names|, cap, |files|);
    assert |files| == count;
  }

  /** The Tag X sign documents of the bookings. */
  function TagSigns(rows: seq<Row>, xml: string): seq<SignFile> {
    SignFiles(SignNames(rows, TagX), xml, TagKeys, "TagX_Signs_")
  }

  /** The Stompers sign documents of the bookings. */
  function StompSigns(rows: seq<Row>, xml: string): seq<SignFile> {
    SignFiles(SignNames(rows, Stomp), xml, StompKeys, "Stompers_Signs_")
  }

  /** `generateSigns` without the file reading: each template is given as
      the text of its `word/document.xml`. */
  method GenerateSigns(rows: seq<Row>, tagXml: string, stompXml: string)
    returns (tagFiles: seq<SignFile>, stompFiles: seq<SignFile>)
    ensures tagFiles == TagSigns(rows, tagXml)
    ensures stompFiles == StompSigns(rows, stompXml)
  {
    var tagNames, stompNames := CollectNames(rows);
    tagFiles := BuildPages(tagNames, tagXml, TagKeys, "TagX_Signs_");
    stompFiles := BuildPages(stompNames, stompXml, StompKeys, "Stompers_Signs_");
  }

  // ----- properties of the pages -----

  /** With no names there is exactly one page, the untouched template. */
  lemma NoNamesOnePage(xml: string, keys: seq<string>, prefix: string)
    requires keys != []
    ensures SignFiles([], xml, keys, prefix) == [SignFile(prefix + "1.docx", xml)]
  {
    assert PageCount(0, |keys|) == 1;
    assert Pages([], xml, keys, prefix, 1) == [Page([], xml, keys, prefix, 0)];
    assert FileName(prefix, 1) == prefix + "1.docx" by {
      assert NatToString(1) == "1";
    }
  }

  /** With names, every name has a page and the last page is not empty. */
  lemma PageCountBounds(n: nat, cap: nat)
    requires n > 0 && cap > 0
    ensures PageCount(n, cap) > 0
    ensures cap * (PageCount(n, cap) - 1) < n <= cap * PageCount(n, cap)
  {
    var p := PageCount(n, cap);
    PageStep(n, cap, p);
    PageStep(n, cap, 0);
    PageStep(n, cap, p - 1);
  }

  lemma {:induction false} PagesAt(names: seq<string>, xml: string, keys: seq<string>, prefix: string, count: nat, p: nat)
    requires p < count
    ensures Pages(names, xml, keys, prefix, count)[p] == Page(names, xml, keys, prefix, p)
    decreases count
  {
    if p < count - 1 {
      PagesAt(names, xml, keys, prefix, count - 1, p);
    }
  }

  /** Slot `j` of the page that starts at name `i` holds name `i + j`, or ""
      past the end of the list. */
  lemma PageSlot(names: seq<string>, keys: seq<string>, i: nat, j: nat)
    requires j < |keys|
    ensures PageMapping(Chunk(names, i, |keys|), keys)[j] ==
      (keys[j], if i + j < |names| then names[i + j] else "")
  {
  }

  /** Page `p` (from 0) of a non-empty list is the template with its slots
      filled from name `cap * p` on; it is the `p + 1`-th file. */
  lemma PageContents(names: seq<string>, xml: string, keys: seq<string>, prefix: string, p: nat)
    requires keys != [] && names != [] && p < |SignFiles(names, xml, keys, prefix)|
    ensures SignFiles(names, xml, keys, prefix)[p] ==
      SignFile(FileName(prefix, p + 1), Substituted(xml, PageMapping(Chunk(names, |keys| * p, |keys|), keys)))
  {
    PagesAt(names, xml, keys, prefix, PageCount(|names|, |keys|), p);
  }

  /** Name `k` goes to slot `k % cap` of page `k / cap`, and that page exists. */
  lemma NamePlaced(names: seq<string>, keys: seq<string>, k: nat)
    requires keys != [] && k < |names|
    ensures k / |keys| < PageCount(|names|, |keys|)
    ensures PageMapping(Chunk(names, |keys| * (k / |keys|), |keys|), keys)[k % |keys|] == (keys[k % |keys|], names[k])
  {
    var cap, p, j := |keys|, k / |keys|, k % |keys|;
    assert cap * p + j == k;
    assert cap * p <= k;
    PageStep(|names|, cap, p);
    PageSlot(names, keys, cap * p, j);
  }

  /** The page numbers in the file names tell the pages apart. */
  lemma FileNameInjective(prefix: string, a: nat, b: nat)
    requires FileName(prefix, a) == FileName(prefix, b)
    ensures a == b
  {
    var s, t := NatToString(a), NatToString(b);
    assert |s| == |t|;
    assert s == FileName(prefix, a)[|prefix|..|prefix| + |s|];
    assert t == FileName(prefix, b)[|prefix|..|prefix| + |t|];
  }

  /** No two pages of a list share a file name. */
  lemma FileNamesDistinct(names: seq<string>, xml: string, keys: seq<string>, prefix: string, p: nat, q: nat)
    requires keys != [] && p < q < |SignFiles(names, xml, keys, prefix)|
    ensures SignFiles(names, xml, keys, prefix)[p].name != SignFiles(names, xml, keys, prefix)[q].name
  {
    var count := PageCount(|names|, |keys|);
    PagesAt(names, xml, keys, prefix, count, p);
    PagesAt(names, xml, keys, prefix, count, q);
    if FileName(prefix, p + 1) == FileName(prefix, q + 1) {
      FileNameInjective(prefix, p + 1, q + 1);
    }
  }

  /** Five Tag X names fill two pages: four names, then one name and three
      blank slots. */
  lemma FiveTagNames(names: seq<string>)
    requires |names| == 5
    ensures PageCount(|names|, |TagKeys|) == 2
    ensures Chunk(names, 0, 4) == names[..4]
    ensures PageMapping(Chunk(names, 4, 4), TagKeys) ==
      [("NAME 1", names[4]), ("NAME 2", ""), ("NAME 3", ""), ("NAME 4", "")]
  {
    assert Chunk(names, 4, 4) == [names[4]];
  }

  /** Three Stompers names fill two pages, the second with one blank slot. */
  lemma ThreeStompersNames(names: seq<string>)
    requires names == ["AMELIA", "BEN", "CARA"]
    ensures PageCount(|names|, |StompKeys|) == 2
    ensures PageMapping(Chunk(names, 2, 2), StompKeys) == [("NAME 1", "CARA"), ("NAME 2", "")]
  {
    assert Chunk(names, 2, 2) == ["CARA"];
  }
}
