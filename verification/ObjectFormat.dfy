/** The byte strings that are hashed: blob, tree and commit pre-images.  Text is
    UTF-8, so names compare bytewise as the code's string order does. */
module ObjectFormat {
  import opened Prelude

  type Text = Bytes

  type Hash = Text

  const SPACE: Byte := 32
  const NEWLINE: Byte := 10
  const NUL: Byte := 0

  datatype Mode = BlobMode | ExecutableMode | TreeMode

  datatype TreeEntry = TreeEntry(name: Text, hash: Hash, mode: Mode)

  /** The bytes of an ASCII literal. */
  function Ascii(s: string): Text {
    seq(|s|, i requires 0 <= i < |s| => s[i] as int % 256)
  }

  // ----- Headers -----

  function Decimal(n: nat): Text {
    if n < 10 then [48 + n] else Decimal(n / 10) + [48 + n % 10]
  }

  /** The hashed form of an object: its kind and length, a NUL, its content. */
  function Preimage(kind: Text, content: Bytes): Bytes {
    kind + [SPACE] + Decimal(|content|) + [NUL] + content
  }

  lemma {:induction false} DecimalIsDigits(n: nat)
    ensures forall i | 0 <= i < |Decimal(n)| :: 48 <= Decimal(n)[i] <= 57
  {
    if n >= 10 {
      DecimalIsDigits(n / 10);
    }
  }

  /** A separator that occurs in neither prefix splits a byte string one way. */
  lemma SplitIsUnique(p: Bytes, x: Bytes, q: Bytes, y: Bytes, sep: Byte)
    requires sep !in p && sep !in q
    requires p + [sep] + x == q + [sep] + y
    ensures p == q && x == y
  {
    var whole := p + [sep] + x;
    assert whole[|p|] == sep && whole[|q|] == sep;
    assert forall i | 0 <= i < |p| :: whole[i] == p[i];
    assert forall i | 0 <= i < |q| :: whole[i] == q[i];
    assert |p| == |q|;
    assert p == whole[..|p|] == q;
    assert x == whole[|p| + 1..] == y;
  }

  /** No two objects share a pre-image: kind and content are both recovered. */
  lemma PreimageInjective(kind: Text, content: Bytes, kind': Text, content': Bytes)
    requires SPACE !in kind && SPACE !in kind'
    requires Preimage(kind, content) == Preimage(kind', content')
    ensures kind == kind' && content == content'
  {
    var rest, rest' := Decimal(|content|) + [NUL] + content, Decimal(|content'|) + [NUL] + content';
    assert Preimage(kind, content) == kind + [SPACE] + rest;
    assert Preimage(kind', content') == kind' + [SPACE] + rest';
    SplitIsUnique(kind, rest, kind', rest', SPACE);
    DecimalIsDigits(|content|);
    DecimalIsDigits(|content'|);
    SplitIsUnique(Decimal(|content|), content, Decimal(|content'|), content', NUL);
  }

  /** The number that a string of digits shows. */
  function ValueOf(digits: Text): int {
    if digits == [] then 0 else 10 * ValueOf(digits[..|digits| - 1]) + (digits[|digits| - 1] as int - 48)
  }

  /** A number is written in decimal digits that show it, without a leading zero. */
  lemma {:induction false} DecimalShowsItsNumber(n: nat)
    ensures ValueOf(Decimal(n)) == n && Decimal(n) != []
    ensures n > 0 ==> Decimal(n)[0] != 48
    ensures n == 0 ==> Decimal(n) == [48]
  {
    if n >= 10 {
      DecimalShowsItsNumber(n / 10);
      assert Decimal(n)[..|Decimal(n)| - 1] == Decimal(n / 10);
    }
  }

  /** The fields of a pre-image: the kind up to the space, then digits up to the NUL at
      `z` that show the content's length, then the content. */
  lemma PreimageFields(kind: Text, content: Bytes) returns (z: nat)
    ensures |kind| + 1 < z < |Preimage(kind, content)|
    ensures
      var p := Preimage(kind, content);
      && p[..|kind|] == kind && p[|kind|] == 32
      && (forall k | |kind| < k < z :: 48 <= p[k] <= 57) && ValueOf(p[|kind| + 1..z]) == |content|
      && p[z] == 0 && p[z + 1..] == content
  {
    var digits := Decimal(|content|);
    z := |kind| + 1 + |digits|;
    var p := Preimage(kind, content);
    DecimalIsDigits(|content|);
    DecimalShowsItsNumber(|content|);
    assert p[|kind| + 1..z] == digits;
    forall k | |kind| < k < z
      ensures 48 <= p[k] <= 57
    {
      assert p[k] == digits[k - |kind| - 1];
    }
  }

  // ----- Name order and the stable sort -----

  /** Lexicographic order on bytes. */
  predicate AtMost(a: Text, b: Text) {
    a == [] || (b != [] && (a[0] < b[0] || (a[0] == b[0] && AtMost(a[1..], b[1..]))))
  }

  lemma {:induction false} AtMostTotal(a: Text, b: Text)
    ensures AtMost(a, b) || AtMost(b, a)
  {
    if a != [] && b != [] {
      AtMostTotal(a[1..], b[1..]);
    }
  }

  lemma {:induction false} AtMostAntisymmetric(a: Text, b: Text)
    requires AtMost(a, b) && AtMost(b, a)
    ensures a == b
  {
    if a != [] && b != [] {
      AtMostAntisymmetric(a[1..], b[1..]);
      assert a == [a[0]] + a[1..] && b == [b[0]] + b[1..];
    }
  }

  lemma {:induction false} AtMostTransitive(a: Text, b: Text, c: Text)
    requires AtMost(a, b) && AtMost(b, c)
    ensures AtMost(a, c)
  {
    if a != [] && a[0] == b[0] == c[0] {
      AtMostTransitive(a[1..], b[1..], c[1..]);
    }
  }

  /** `a` and `b` first differ at `i`, where `a` has the smaller byte. */
  ghost predicate SmallerAt(a: Text, b: Text, i: nat) {
    i < |a| && i < |b| && a[..i] == b[..i] && a[i] < b[i]
  }

  /** The name order is the dictionary order on bytes: a prefix comes first, otherwise
      the first difference decides. */
  lemma {:induction false} AtMostIsLexicographic(a: Text, b: Text)
    ensures AtMost(a, b) <==> a <= b || exists i: nat :: SmallerAt(a, b, i)
  {
    if a != [] && b != [] {
      AtMostIsLexicographic(a[1..], b[1..]);
      assert a == [a[0]] + a[1..] && b == [b[0]] + b[1..];
      if a[0] < b[0] {
        assert SmallerAt(a, b, 0);
      }
      if a[0] == b[0] && exists i: nat :: SmallerAt(a[1..], b[1..], i) {
        var i: nat :| SmallerAt(a[1..], b[1..], i);
        assert a[..i + 1] == [a[0]] + a[1..][..i] && b[..i + 1] == [b[0]] + b[1..][..i];
        assert SmallerAt(a, b, i + 1);
      }
      if exists i: nat :: SmallerAt(a, b, i) {
        var i: nat :| SmallerAt(a, b, i);
        if i > 0 {
          assert a[0] == a[..i][0] == b[..i][0] == b[0];
          assert a[1..][..i - 1] == a[..i][1..] && b[1..][..i - 1] == b[..i][1..];
          assert SmallerAt(a[1..], b[1..], i - 1);
        }
      }
    }
  }

  function Insert(e: TreeEntry, es: seq<TreeEntry>): seq<TreeEntry> {
    if es == [] then [e]
    else if AtMost(e.name, es[0].name) then [e] + es
    else [es[0]] + Insert(e, es[1..])
  }

  /** Stable sort by name. */
  function SortByName(es: seq<TreeEntry>): seq<TreeEntry> {
    if es == [] then [] else Insert(es[0], SortByName(es[1..]))
  }

  predicate SortedByName(es: seq<TreeEntry>) {
    forall i, j | 0 <= i < j < |es| :: AtMost(es[i].name, es[j].name)
  }

  predicate DistinctNames(es: seq<TreeEntry>) {
    forall i, j | 0 <= i < j < |es| :: es[i].name != es[j].name
  }

  lemma {:induction false} InsertMultiset(e: TreeEntry, es: seq<TreeEntry>)
    ensures multiset(Insert(e, es)) == multiset(es) + multiset{e}
  {
    if es != [] {
      assert es == [es[0]] + es[1..];
      InsertMultiset(e, es[1..]);
    }
  }

  predicate FirstOf(e: TreeEntry, es: seq<TreeEntry>) {
    forall j | 0 <= j < |es| :: AtMost(e.name, es[j].name)
  }

  lemma SortedTail(es: seq<TreeEntry>)
    requires SortedByName(es) && es != []
    ensures SortedByName(es[1..]) && FirstOf(es[0], es[1..])
  {
  }

  lemma SortedCons(e: TreeEntry, es: seq<TreeEntry>)
    requires SortedByName(es) && FirstOf(e, es)
    ensures SortedByName([e] + es)
  {
  }

  lemma FirstOfInserted(first: TreeEntry, e: TreeEntry, es: seq<TreeEntry>)
    requires FirstOf(first, es) && AtMost(first.name, e.name)
    ensures FirstOf(first, Insert(e, es))
  {
    InsertMultiset(e, es);
    forall j | 0 <= j < |Insert(e, es)|
      ensures AtMost(first.name, Insert(e, es)[j].name)
    {
      assert Insert(e, es)[j] in multiset(Insert(e, es));
      assert Insert(e, es)[j] == e || Insert(e, es)[j] in es;
    }
  }

  lemma {:induction false} InsertSorted(e: TreeEntry, es: seq<TreeEntry>)
    requires SortedByName(es)
    ensures SortedByName(Insert(e, es))
  {
    if es != [] {
      if AtMost(e.name, es[0].name) {
        forall j | 0 <= j < |es|
          ensures AtMost(e.name, es[j].name)
        {
          if j > 0 {
            AtMostTransitive(e.name, es[0].name, es[j].name);
          }
        }
        SortedCons(e, es);
      } else {
        SortedTail(es);
        InsertSorted(e, es[1..]);
        AtMostTotal(e.name, es[0].name);
        FirstOfInserted(es[0], e, es[1..]);
        SortedCons(es[0], Insert(e, es[1..]));
      }
    }
  }

  lemma {:induction false} SortFacts(es: seq<TreeEntry>)
    ensures SortedByName(SortByName(es)) && multiset(SortByName(es)) == multiset(es)
  {
    if es != [] {
      SortFacts(es[1..]);
      InsertSorted(es[0], SortByName(es[1..]));
      InsertMultiset(es[0], SortByName(es[1..]));
      assert es == [es[0]] + es[1..];
    }
  }

  /** The entries called `name`, in order. */
  function Named(es: seq<TreeEntry>, name: Text): seq<TreeEntry> {
    if es == [] then [] else (if es[0].name == name then [es[0]] else []) + Named(es[1..], name)
  }

  lemma {:induction false} InsertKeepsNamed(e: TreeEntry, es: seq<TreeEntry>, name: Text)
    ensures Named(Insert(e, es), name) == (if e.name == name then [e] else []) + Named(es, name)
  {
    if es != [] {
      AtMostTotal(e.name, e.name);
      if AtMost(e.name, es[0].name) {
        assert ([e] + es)[1..] == es;
      } else {
        InsertKeepsNamed(e, es[1..], name);
        assert ([es[0]] + Insert(e, es[1..]))[1..] == Insert(e, es[1..]);
      }
    }
  }

  /** The sort is stable: entries of one name keep their order. */
  lemma {:induction false} SortIsStable(es: seq<TreeEntry>, name: Text)
    ensures Named(SortByName(es), name) == Named(es, name)
  {
    if es != [] {
      SortIsStable(es[1..], name);
      InsertKeepsNamed(es[0], SortByName(es[1..]), name);
    }
  }

  lemma SameHead(a: seq<TreeEntry>, b: seq<TreeEntry>)
    requires SortedByName(a) && SortedByName(b) && DistinctNames(a)
    requires multiset(a) == multiset(b) && a != [] && b != []
    ensures a[0] == b[0]
  {
    assert a[0] in multiset(b) && b[0] in multiset(a);
    var i :| 0 <= i < |b| && b[i] == a[0];
    var j :| 0 <= j < |a| && a[j] == b[0];
    if i != 0 && j != 0 {
      assert AtMost(b[0].name, b[i].name) && AtMost(a[0].name, a[j].name);
      AtMostAntisymmetric(a[0].name, b[0].name);
    }
  }

  lemma {:induction false} SortedIsUnique(a: seq<TreeEntry>, b: seq<TreeEntry>)
    requires SortedByName(a) && SortedByName(b) && DistinctNames(a)
    requires multiset(a) == multiset(b)
    ensures a == b
  {
    assert |a| == |multiset(a)| == |multiset(b)| == |b|;
    if a != [] {
      SameHead(a, b);
      assert a == [a[0]] + a[1..] && b == [b[0]] + b[1..];
      assert multiset(a[1..]) == multiset(a) - multiset{a[0]};
      assert multiset(b[1..]) == multiset(b) - multiset{a[0]};
      SortedIsUnique(a[1..], b[1..]);
    }
  }

  lemma DistinctIsPermutationInvariant(a: seq<TreeEntry>, b: seq<TreeEntry>)
    requires multiset(a) == multiset(b) && DistinctNames(a)
    ensures DistinctNames(b)
  {
    forall i, j | 0 <= i < j < |b|
      ensures b[i].name != b[j].name
    {
      assert b[i] in multiset(a) && b[j] in multiset(a);
      var k :| 0 <= k < |a| && a[k] == b[i];
      var l :| 0 <= l < |a| && a[l] == b[j];
      if k == l {
        CountTwice(b, i, j);
        CountOnce(a, k);
      }
    }
  }

  lemma CountTwice(s: seq<TreeEntry>, i: nat, j: nat)
    requires i < j < |s| && s[i] == s[j]
    ensures multiset(s)[s[i]] >= 2
  {
    WithoutMultiset(s, j);
    assert Without(s, j)[i] == s[i];
  }

  lemma CountOnce(s: seq<TreeEntry>, k: nat)
    requires k < |s| && DistinctNames(s)
    ensures multiset(s)[s[k]] == 1
  {
    WithoutMultiset(s, k);
    forall i | 0 <= i < |Without(s, k)|
      ensures Without(s, k)[i] != s[k]
    {
      assert Without(s, k)[i] == s[if i < k then i else i + 1];
    }
  }

  // ----- Tree content -----

  function ModeText(mode: Mode): Text {
    match mode
    case BlobMode => Ascii("100644")
    case ExecutableMode => Ascii("100755")
    case TreeMode => Ascii("040000")
  }

  /** The modes are Git's: 100644, 100755 and 040000. */
  lemma ModeTextIsGits()
    ensures ModeText(BlobMode) == [49, 48, 48, 54, 52, 52]
    ensures ModeText(ExecutableMode) == [49, 48, 48, 55, 53, 53]
    ensures ModeText(TreeMode) == [48, 52, 48, 48, 48, 48]
  {
  }

  function Line(e: TreeEntry): Text {
    ModeText(e.mode) + [SPACE] + e.hash + [SPACE] + e.name + [NEWLINE]
  }

  function Lines(es: seq<TreeEntry>): Text {
    if es == [] then [] else Line(es[0]) + Lines(es[1..])
  }

  function TreeContent(es: seq<TreeEntry>): Text {
    Lines(SortByName(es))
  }

  /** What makes an entry's line readable back. */
  predicate Plain(e: TreeEntry) {
    SPACE !in e.hash && NEWLINE !in e.name
  }

  predicate AllPlain(es: seq<TreeEntry>) {
    forall e | e in es :: Plain(e)
  }

  lemma {:induction false} LinesAppend(a: seq<TreeEntry>, b: seq<TreeEntry>)
    ensures Lines(a + b) == Lines(a) + Lines(b)
  {
    if a == [] {
      assert a + b == b;
    } else {
      assert (a + b)[1..] == a[1..] + b;
      LinesAppend(a[1..], b);
    }
  }

  /** The tree content, field by field: entry after entry in name order, each as its
      six-digit mode, a space, its hash, a space, its name and a newline. */
  lemma TreeContentFields(es: seq<TreeEntry>, k: nat) returns (from: nat)
    requires k < |SortByName(es)|
    ensures
      var e, content := SortByName(es)[k], TreeContent(es);
      var line := ModeText(e.mode) + [32] + e.hash + [32] + e.name + [10];
      && from == |Lines(SortByName(es)[..k])| && from + |line| <= |content|
      && content[from..from + |line|] == line
      && (k == 0 ==> from == 0) && (k + 1 == |SortByName(es)| ==> from + |line| == |content|)
  {
    var sorted := SortByName(es);
    from := |Lines(sorted[..k])|;
    LinesAround(sorted, k);
    Middle(Lines(sorted[..k]), Line(sorted[k]), Lines(sorted[k + 1..]));
    if k + 1 == |sorted| {
      assert sorted[k + 1..] == [];
    }
  }

  lemma Around(es: seq<TreeEntry>, k: nat)
    requires k < |es|
    ensures es == es[..k] + ([es[k]] + es[k + 1..])
  {
  }

  lemma LinesCons(e: TreeEntry, es: seq<TreeEntry>)
    ensures Lines([e] + es) == Line(e) + Lines(es)
  {
    assert ([e] + es)[1..] == es;
  }

  lemma LinesAround(es: seq<TreeEntry>, k: nat)
    requires k < |es|
    ensures Lines(es) == Lines(es[..k]) + Line(es[k]) + Lines(es[k + 1..])
  {
    var before, after := es[..k], es[k + 1..];
    Around(es, k);
    assert Lines(es) == Lines(before) + Lines([es[k]] + after) by {
      LinesAppend(before, [es[k]] + after);
    }
    LinesCons(es[k], after);
  }

  lemma Middle(a: Text, b: Text, c: Text)
    ensures (a + b + c)[|a|..|a| + |b|] == b
  {
  }

  lemma LinesSnoc(es: seq<TreeEntry>, i: nat)
    requires i < |es|
    ensures Lines(es[..i + 1]) == Lines(es[..i]) + Line(es[i])
  {
    assert es[..i + 1] == es[..i] + [es[i]];
    LinesAppend(es[..i], [es[i]]);
    assert [es[i]][1..] == [];
    assert Lines([es[i]]) == Line(es[i]) + [];
  }

  /** Sorts the entries and pushes one line each, as the hash function does. */
  method WriteTreeContent(entries: seq<TreeEntry>) returns (content: Text)
    ensures content == TreeContent(entries)
  {
    var sorted := SortByName(entries);
    content := [];
    for i := 0 to |sorted|
      invariant content == Lines(sorted[..i])
    {
      LinesSnoc(sorted, i);
      content := content + Line(sorted[i]);
    }
    assert sorted[..|sorted|] == sorted;
  }

  lemma ModeTextInjective(m: Mode, n: Mode)
    requires ModeText(m) == ModeText(n)
    ensures m == n
  {
    assert ModeText(m)[0] == ModeText(n)[0] && ModeText(m)[3] == ModeText(n)[3];
  }

  lemma FirstLineIsUnique(a: TreeEntry, x: Bytes, b: TreeEntry, y: Bytes)
    requires Plain(a) && Plain(b)
    requires Line(a) + x == Line(b) + y
    ensures a == b && x == y
  {
    var modeA, modeB := ModeText(a.mode), ModeText(b.mode);
    var afterA, afterB := a.name + [NEWLINE] + x, b.name + [NEWLINE] + y;
    assert Line(a) + x == modeA + [SPACE] + (a.hash + [SPACE] + afterA);
    assert Line(b) + y == modeB + [SPACE] + (b.hash + [SPACE] + afterB);
    assert |modeA| == |modeB| == 6;
    assert modeA == (Line(a) + x)[..6] == (Line(b) + y)[..6] == modeB;
    assert (Line(a) + x)[7..] == a.hash + [SPACE] + afterA;
    assert (Line(b) + y)[7..] == b.hash + [SPACE] + afterB;
    ModeTextInjective(a.mode, b.mode);
    SplitIsUnique(a.hash, afterA, b.hash, afterB, SPACE);
    SplitIsUnique(a.name, x, b.name, y, NEWLINE);
  }

  lemma {:induction false} LinesInjective(a: seq<TreeEntry>, b: seq<TreeEntry>)
    requires AllPlain(a) && AllPlain(b) && Lines(a) == Lines(b)
    ensures a == b
  {
    if a != [] && b != [] {
      assert Plain(a[0]) && Plain(b[0]);
      FirstLineIsUnique(a[0], Lines(a[1..]), b[0], Lines(b[1..]));
      LinesInjective(a[1..], b[1..]);
      assert a == [a[0]] + a[1..] && b == [b[0]] + b[1..];
    }
  }

  lemma PlainIsPermutationInvariant(a: seq<TreeEntry>, b: seq<TreeEntry>)
    requires multiset(a) == multiset(b) && AllPlain(a)
    ensures AllPlain(b)
  {
    forall e | e in b
      ensures Plain(e)
    {
      assert e in multiset(a);
    }
  }

  /** Two entry lists, repeated names included, serialise equally exactly when
      their stable sorts agree. */
  lemma TreeContentDeterminesSort(a: seq<TreeEntry>, b: seq<TreeEntry>)
    requires AllPlain(a) && AllPlain(b)
    ensures TreeContent(a) == TreeContent(b) <==> SortByName(a) == SortByName(b)
  {
    if TreeContent(a) == TreeContent(b) {
      SortFacts(a);
      SortFacts(b);
      PlainIsPermutationInvariant(a, SortByName(a));
      PlainIsPermutationInvariant(b, SortByName(b));
      LinesInjective(SortByName(a), SortByName(b));
    }
  }

  /** With distinct names the tree content is canonical: equal exactly for
      permutations of one another. */
  lemma {:induction false} TreeContentCanonical(a: seq<TreeEntry>, b: seq<TreeEntry>)
    requires AllPlain(a) && AllPlain(b) && DistinctNames(a)
    ensures TreeContent(a) == TreeContent(b) <==> multiset(a) == multiset(b)
  {
    TreeContentDeterminesSort(a, b);
    SortFacts(a);
    SortFacts(b);
    if multiset(a) == multiset(b) {
      DistinctIsPermutationInvariant(a, SortByName(a));
      SortedIsUnique(SortByName(a), SortByName(b));
    }
  }

  lemma SortOne(e: TreeEntry)
    ensures SortByName([e]) == [e]
  {
    assert [e][1..] == [];
    assert SortByName([e]) == Insert(e, SortByName([]));
  }

  lemma SortPair(e: TreeEntry, f: TreeEntry)
    requires e.name == f.name
    ensures SortByName([e, f]) == [e, f]
  {
    assert [e, f][1..] == [f];
    SortOne(f);
    AtMostTotal(e.name, e.name);
    assert SortByName([e, f]) == Insert(e, [f]) == [e] + [f];
  }

  /** With a repeated name the order of the input shows through. */
  lemma RepeatedNameIsOrderSensitive(name: Text, x: Hash, y: Hash)
    requires x != y && NEWLINE !in name && SPACE !in x && SPACE !in y
    ensures
      var e, f := TreeEntry(name, x, BlobMode), TreeEntry(name, y, BlobMode);
      multiset([e, f]) == multiset([f, e]) && TreeContent([e, f]) != TreeContent([f, e])
  {
    var e, f := TreeEntry(name, x, BlobMode), TreeEntry(name, y, BlobMode);
    SortPair(e, f);
    SortPair(f, e);
    assert [e, f][0] != [f, e][0];
    TreeContentDeterminesSort([e, f], [f, e]);
  }

  // ----- Commit content -----

  /** `seconds` is the timestamp as the commit text shows it: whole seconds, in
      the UTC zone. */
  datatype Commit = Commit(tree: Hash, parents: seq<Hash>, author: Text, seconds: Text, message: Text)

  function ParentLines(parents: seq<Hash>): Text {
    if parents == [] then [] else Ascii("parent ") + parents[0] + [NEWLINE] + ParentLines(parents[1..])
  }

  function Signature(c: Commit): Text {
    c.author + [SPACE] + c.seconds + Ascii(" +0000")
  }

  function AfterAuthor(c: Commit): Text {
    Signature(c) + [NEWLINE] + (Ascii("committer ") + Signature(c) + [NEWLINE] + [NEWLINE] + c.message + [NEWLINE])
  }

  function CommitContent(c: Commit): Text {
    Ascii("tree ") + (c.tree + [NEWLINE] + (ParentLines(c.parents) + (Ascii("author ") + AfterAuthor(c))))
  }

  /** Every line followed by a newline. */
  function Unlines(lines: seq<Text>): Text {
    if lines == [] then [] else lines[0] + [NEWLINE] + Unlines(lines[1..])
  }

  /** The lines of a commit: the tree, each parent, author and committer with the time in
      UTC, an empty line, the message. */
  function CommitLines(c: Commit): seq<Text> {
    var signature := c.author + Ascii(" ") + c.seconds + Ascii(" +0000");
    [Ascii("tree ") + c.tree] + ParentsOf(c.parents)
    + [Ascii("author ") + signature, Ascii("committer ") + signature, [], c.message]
  }

  function ParentsOf(parents: seq<Hash>): seq<Text> {
    seq(|parents|, k requires 0 <= k < |parents| => Ascii("parent ") + parents[k])
  }

  lemma {:induction false} UnlinesAppend(a: seq<Text>, b: seq<Text>)
    ensures Unlines(a + b) == Unlines(a) + Unlines(b)
  {
    if a == [] {
      assert a + b == b;
    } else {
      assert (a + b)[1..] == a[1..] + b;
      UnlinesAppend(a[1..], b);
    }
  }

  lemma {:induction false} ParentLinesAreLines(parents: seq<Hash>)
    ensures ParentLines(parents) == Unlines(ParentsOf(parents))
  {
    if parents != [] {
      ParentLinesAreLines(parents[1..]);
      assert ParentsOf(parents) == [Ascii("parent ") + parents[0]] + ParentsOf(parents[1..]);
    }
  }

  lemma OneLine(line: Text)
    ensures Unlines([line]) == line + [NEWLINE]
  {
    assert [line][1..] == [];
    assert Unlines([line]) == line + [NEWLINE] + [];
  }

  lemma ClosingLines(author: Text, committer: Text, message: Text)
    ensures Unlines([author, committer, [], message]) ==
            author + [NEWLINE] + (committer + [NEWLINE] + [NEWLINE] + message + [NEWLINE])
  {
    assert [author, committer, [], message] == [author] + ([committer] + ([[]] + [message]));
    UnlinesAppend([author], [committer] + ([[]] + [message]));
    UnlinesAppend([committer], [[]] + [message]);
    UnlinesAppend([[]], [message]);
    OneLine(author);
    OneLine(committer);
    OneLine([]);
    OneLine(message);
    var last := [] + [NEWLINE] + (message + [NEWLINE]);
    assert committer + [NEWLINE] + last == committer + [NEWLINE] + [NEWLINE] + message + [NEWLINE];
  }

  /** The hashed text of a commit is its lines. */
  lemma CommitContentIsItsLines(c: Commit)
    ensures CommitContent(c) == Unlines(CommitLines(c))
  {
    var author, committer := Ascii("author ") + Signature(c), Ascii("committer ") + Signature(c);
    assert Ascii(" ") == [SPACE];
    var head, closing := [Ascii("tree ") + c.tree], [author, committer, [], c.message];
    assert CommitLines(c) == head + ParentsOf(c.parents) + closing;
    UnlinesAppend(head + ParentsOf(c.parents), closing);
    UnlinesAppend(head, ParentsOf(c.parents));
    OneLine(Ascii("tree ") + c.tree);
    ParentLinesAreLines(c.parents);
    ClosingLines(author, committer, c.message);
    assert Ascii("author ") + AfterAuthor(c) == Unlines(closing);
    CommitSplits(c);
  }

  lemma CommitSplits(c: Commit)
    ensures CommitContent(c) ==
            (Ascii("tree ") + c.tree + [NEWLINE]) + ParentLines(c.parents) + (Ascii("author ") + AfterAuthor(c))
  {
  }

  lemma OneMoreParent(content: Text, parents: seq<Hash>, i: nat, tail: Text)
    requires i < |parents|
    ensures content + (Ascii("parent ") + parents[i] + [NEWLINE]) + (ParentLines(parents[i + 1..]) + tail)
         == content + (ParentLines(parents[i..]) + tail)
  {
    assert parents[i..][1..] == parents[i + 1..];
    var line, rest := Ascii("parent ") + parents[i] + [NEWLINE], ParentLines(parents[i + 1..]);
    assert ParentLines(parents[i..]) == line + rest;
    assert content + line + (rest + tail) == content + (line + rest + tail);
  }

  lemma TreeLineFirst(c: Commit)
    ensures Ascii("tree ") + c.tree + [NEWLINE] + (ParentLines(c.parents) + (Ascii("author ") + AfterAuthor(c)))
         == CommitContent(c)
  {
  }

  lemma SignaturesLast(content: Text, c: Commit)
    ensures content + (Ascii("author ") + Signature(c) + [NEWLINE]) + (Ascii("committer ") + Signature(c) + [NEWLINE])
              + ([NEWLINE] + c.message + [NEWLINE])
         == content + (ParentLines([]) + (Ascii("author ") + AfterAuthor(c)))
  {
  }

  /** Builds the text of a commit, pushing one line per parent. */
  method WriteCommitContent(c: Commit) returns (content: Text)
    ensures content == Unlines(CommitLines(c)) == CommitContent(c)
  {
    CommitContentIsItsLines(c);
    content := Ascii("tree ") + c.tree + [NEWLINE];
    TreeLineFirst(c);
    assert c.parents[0..] == c.parents;
    for i := 0 to |c.parents|
      invariant content + (ParentLines(c.parents[i..]) + (Ascii("author ") + AfterAuthor(c))) == CommitContent(c)
    {
      OneMoreParent(content, c.parents, i, Ascii("author ") + AfterAuthor(c));
      content := content + (Ascii("parent ") + c.parents[i] + [NEWLINE]);
    }
    assert c.parents[|c.parents|..] == [];
    SignaturesLast(content, c);
    content := content + (Ascii("author ") + Signature(c) + [NEWLINE]);
    content := content + (Ascii("committer ") + Signature(c) + [NEWLINE]);
    content := content + ([NEWLINE] + c.message + [NEWLINE]);
  }

  predicate PlainCommit(c: Commit) {
    && NEWLINE !in c.tree && (forall p | p in c.parents :: NEWLINE !in p)
    && NEWLINE !in c.author && NEWLINE !in c.seconds && SPACE !in c.seconds
  }

  /** Splits at the last separator instead of the first. */
  lemma LastSplitIsUnique(p: Bytes, x: Bytes, q: Bytes, y: Bytes, sep: Byte)
    requires sep !in x && sep !in y
    requires p + [sep] + x == q + [sep] + y
    ensures p == q && x == y
  {
    var whole := p + [sep] + x;
    assert whole[|p| + 1..] == x && whole[|q| + 1..] == y;
    LastSeparator(whole, |p|, |q|, sep);
    assert p == whole[..|p|] == q;
    assert x == whole[|p| + 1..] == y;
  }

  lemma LastSeparator(whole: Bytes, i: nat, j: nat, sep: Byte)
    requires i < |whole| && j < |whole| && whole[i] == sep && whole[j] == sep
    requires sep !in whole[i + 1..] && sep !in whole[j + 1..]
    ensures i == j
  {
    assert forall k | i < k < |whole| :: whole[k] == whole[i + 1..][k - i - 1];
    assert forall k | j < k < |whole| :: whole[k] == whole[j + 1..][k - j - 1];
  }

  lemma SignatureIsUnique(c: Commit, d: Commit)
    requires PlainCommit(c) && PlainCommit(d) && Signature(c) == Signature(d)
    ensures c.author == d.author && c.seconds == d.seconds
  {
    var zone := Ascii(" +0000");
    var s, t := c.author + [SPACE] + c.seconds, d.author + [SPACE] + d.seconds;
    assert s == Signature(c)[..|Signature(c)| - |zone|] == t;
    LastSplitIsUnique(c.author, c.seconds, d.author, d.seconds, SPACE);
  }

  lemma SignatureIsOneLine(c: Commit)
    requires PlainCommit(c)
    ensures NEWLINE !in Signature(c)
  {
    assert NEWLINE !in Ascii(" +0000");
  }

  lemma FirstByte(ps: seq<Hash>, x: Bytes)
    ensures (ParentLines(ps) + (Ascii("author ") + x))[0] == if ps == [] then 97 else 112
  {
    assert Ascii("parent ")[0] == 112 && Ascii("author ")[0] == 97;
  }

  lemma FirstParentIsUnique(p: Hash, restP: Bytes, q: Hash, restQ: Bytes)
    requires NEWLINE !in p && NEWLINE !in q
    requires Ascii("parent ") + (p + [NEWLINE] + restP) == Ascii("parent ") + (q + [NEWLINE] + restQ)
    ensures p == q && restP == restQ
  {
    var parent := Ascii("parent ");
    var left, right := parent + (p + [NEWLINE] + restP), parent + (q + [NEWLINE] + restQ);
    assert p + [NEWLINE] + restP == left[|parent|..] == right[|parent|..] == q + [NEWLINE] + restQ;
    SplitIsUnique(p, restP, q, restQ, NEWLINE);
  }

  lemma ParentLinesStep(ps: seq<Hash>, tail: Bytes)
    requires ps != []
    ensures ParentLines(ps) + tail == Ascii("parent ") + (ps[0] + [NEWLINE] + (ParentLines(ps[1..]) + tail))
  {
  }

  /** Parent lines end where the author line starts. */
  lemma {:induction false} ParentsAreUnique(ps: seq<Hash>, x: Bytes, qs: seq<Hash>, y: Bytes)
    requires forall p | p in ps :: NEWLINE !in p
    requires forall q | q in qs :: NEWLINE !in q
    requires ParentLines(ps) + (Ascii("author ") + x) == ParentLines(qs) + (Ascii("author ") + y)
    ensures ps == qs && x == y
  {
    var author := Ascii("author ");
    FirstByte(ps, x);
    FirstByte(qs, y);
    if ps == [] {
      assert [] + (author + x) == author + x && [] + (author + y) == author + y;
      assert x == (author + x)[|author|..] == (author + y)[|author|..] == y;
    } else {
      ParentLinesStep(ps, author + x);
      ParentLinesStep(qs, author + y);
      FirstParentIsUnique(ps[0], ParentLines(ps[1..]) + (author + x), qs[0], ParentLines(qs[1..]) + (author + y));
      ParentsAreUnique(ps[1..], x, qs[1..], y);
      assert ps == [ps[0]] + ps[1..] && qs == [qs[0]] + qs[1..];
    }
  }

  lemma AfterAuthorInjective(c: Commit, d: Commit)
    requires PlainCommit(c) && PlainCommit(d) && AfterAuthor(c) == AfterAuthor(d)
    ensures c.author == d.author && c.seconds == d.seconds && c.message == d.message
  {
    var headC := Ascii("committer ") + Signature(c) + [NEWLINE] + [NEWLINE];
    var headD := Ascii("committer ") + Signature(d) + [NEWLINE] + [NEWLINE];
    SignatureIsOneLine(c);
    SignatureIsOneLine(d);
    SplitIsUnique(Signature(c), headC + c.message + [NEWLINE], Signature(d), headD + d.message + [NEWLINE], NEWLINE);
    SignatureIsUnique(c, d);
    var end := headC + c.message + [NEWLINE];
    assert c.message == end[|headC|..|end| - 1] == d.message;
  }

  /** The commit text determines every field it shows: equal texts come only from
      equal commits, up to the fraction of a second that the text leaves out. */
  lemma CommitContentInjective(c: Commit, d: Commit)
    requires PlainCommit(c) && PlainCommit(d)
    ensures CommitContent(c) == CommitContent(d) <==> c == d
  {
    if CommitContent(c) == CommitContent(d) {
      var tree := Ascii("tree ");
      var bodyC := ParentLines(c.parents) + (Ascii("author ") + AfterAuthor(c));
      var bodyD := ParentLines(d.parents) + (Ascii("author ") + AfterAuthor(d));
      assert CommitContent(c)[|tree|..] == c.tree + [NEWLINE] + bodyC;
      assert CommitContent(d)[|tree|..] == d.tree + [NEWLINE] + bodyD;
      SplitIsUnique(c.tree, bodyC, d.tree, bodyD, NEWLINE);
      ParentsAreUnique(c.parents, AfterAuthor(c), d.parents, AfterAuthor(d));
      AfterAuthorInjective(c, d);
    }
  }
}
