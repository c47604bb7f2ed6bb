/**
 * What flatten and parseConfiguration guarantee about the keys and values
 * they produce.
 */
module FlattenerProperties {
  import opened Wrappers
  import opened JavaText
  import opened YamlTree
  import opened Flattener

  /** Both maps have the same binding (or none) for `key`. */
  predicate SameAt(m1: map<string, string>, m2: map<string, string>, key: string) {
    (key in m1 <==> key in m2) && (key in m1 ==> m1[key] == m2[key])
  }

  /** A key that may be used as a path segment: non-empty and without a trailing dot. */
  predicate PlainSegment(k: string) {
    k != "" && !EndsWithDot(k)
  }

  /** `v` nested under single-entry maps keyed by `ks`, outermost first: Nest(["b", "c"], v) is {b: {c: v}}. */
  function Nest(ks: seq<string>, v: Node): Node
    decreases |ks|
  {
    if ks == [] then v else Obj([(ks[0], Nest(ks[1..], v))])
  }

  // ---------------------------------------------------------------------
  // The dot between a parent key and a child key

  /** Once a parent key carries its separating dot, no second dot is added. */
  lemma PrefixIdempotent(parentKey: string)
    ensures ParentPrefix(ParentPrefix(parentKey)) == ParentPrefix(parentKey)
    ensures parentKey != "" && !EndsWithDot(parentKey) ==> ParentPrefix(parentKey) == parentKey + "."
    ensures EndsWithDot(parentKey) ==> ParentPrefix(parentKey) == parentKey
  {
  }

  /** flatten sees its parent key only through the dotted prefix, so an already dotted parent behaves like the undotted one. */
  lemma FlatNodeNormalizesParent(parentKey: string, key: string, v: Node, m: map<string, string>)
    ensures FlatNode(ParentPrefix(parentKey), key, v, m) == FlatNode(parentKey, key, v, m)
  {
    PrefixIdempotent(parentKey);
  }

  // ---------------------------------------------------------------------
  // Nested maps

  /** After a plain segment the parent gains exactly one dot. */
  lemma DotAfterPlainSegment(p: string, k: string)
    requires PlainSegment(k)
    ensures ParentPrefix(p + k) == p + k + "."
  {
    assert (p + k)[|p + k| - 1] == k[|k| - 1];
  }

  /** Splitting the first key off a dotted path of at least two keys moves it, with its dot, into the parent. */
  lemma JoinFront(p: string, ks: seq<string>)
    requires |ks| >= 3 && PlainSegment(ks[0])
    ensures p + Join(".", ks[..|ks| - 1]) == ParentPrefix(p + ks[0]) + Join(".", ks[1..][..|ks| - 2])
  {
    var front := ks[..|ks| - 1];
    assert front[0] == ks[0];
    assert ks[1..][..|ks| - 2] == front[1..];
    DotAfterPlainSegment(p, ks[0]);
  }

  /** flatten sees its parent key only through the dotted prefix, so parents with the same prefix flatten alike. */
  lemma SamePrefixFlatAlike(a: string, b: string, key: string, v: Node, m: map<string, string>)
    requires ParentPrefix(a) == ParentPrefix(b)
    ensures FlatNode(a, key, v, m) == FlatNode(b, key, v, m)
  {
  }

  /** One level of nesting: the outer key moves into the parent of the inner key. */
  lemma NestOneLevel(parentKey: string, ks: seq<string>, v: Node, m: map<string, string>)
    requires |ks| >= 2
    ensures FlatNode(parentKey, ks[0], Nest(ks[1..], v), m)
         == FlatNode(ParentPrefix(parentKey) + ks[0], ks[1..][0], Nest(ks[1..][1..], v), m)
  {
    assert ks[1..][1..] == ks[2..];
    assert Nest(ks[1..], v) == Obj([(ks[1], Nest(ks[2..], v))]);
    SingleEntryMap(parentKey, ks[0], ks[1], Nest(ks[2..], v), m);
  }

  /** The dotted parent of the inner keys, behind the outer key, has the prefix of the whole dotted parent. */
  lemma ParentAfterOuterKey(p: string, ks: seq<string>)
    requires |ks| >= 2
    requires forall i :: 0 <= i < |ks| - 1 ==> PlainSegment(ks[i])
    ensures var rest := ks[1..];
            ParentPrefix(ParentPrefix(p + ks[0]) + Join(".", rest[..|rest| - 1]))
            == ParentPrefix(p + Join(".", ks[..|ks| - 1]))
    ensures ks[1..][|ks[1..]| - 1] == ks[|ks| - 1]
  {
    assert ks[1..][..|ks[1..]| - 1] == ks[1..][..|ks| - 2];
    if |ks| == 2 {
      DotAfterPlainSegment(p, ks[0]);
      assert ks[1..][..0] == [];
      assert ks[..1] == [ks[0]];
      PrefixIdempotent(p + ks[0]);
    } else {
      JoinFront(p, ks);
    }
  }

  /** Hence the innermost value flattens alike under either dotted parent. */
  lemma InnerParentFlatAlike(p: string, ks: seq<string>, v: Node, m: map<string, string>)
    requires |ks| >= 2
    requires forall i :: 0 <= i < |ks| - 1 ==> PlainSegment(ks[i])
    ensures FlatNode(ParentPrefix(p + ks[0]) + Join(".", ks[1..][..|ks[1..]| - 1]), ks[1..][|ks[1..]| - 1], v, m)
         == FlatNode(p + Join(".", ks[..|ks| - 1]), ks[|ks| - 1], v, m)
  {
    var rest := ks[1..];
    ParentAfterOuterKey(p, ks);
    SamePrefixFlatAlike(ParentPrefix(p + ks[0]) + Join(".", rest[..|rest| - 1]), p + Join(".", ks[..|ks| - 1]), ks[|ks| - 1], v, m);
  }

  /** A single key nests nothing: the value is flattened under that key. */
  lemma SingleKeyNest(parentKey: string, ks: seq<string>, v: Node, m: map<string, string>)
    requires |ks| == 1
    ensures FlatNode(parentKey, ks[0], Nest(ks[1..], v), m)
         == FlatNode(ParentPrefix(parentKey) + Join(".", ks[..|ks| - 1]), ks[|ks| - 1], v, m)
  {
    var p := ParentPrefix(parentKey);
    assert ks[1..] == [] && ks[..0] == [];
    assert p + Join(".", ks[..0]) == p;
    FlatNodeNormalizesParent(parentKey, ks[0], v, m);
  }

  /**
   * Nesting maps under the keys `ks` is the same as flattening the innermost
   * value with the keys before the last one, joined by dots, as its parent.
   */
  lemma {:induction false} NestedUnderDottedParent(parentKey: string, ks: seq<string>, v: Node, m: map<string, string>)
    requires |ks| >= 1
    requires forall i :: 0 <= i < |ks| - 1 ==> PlainSegment(ks[i])
    ensures FlatNode(parentKey, ks[0], Nest(ks[1..], v), m)
         == FlatNode(ParentPrefix(parentKey) + Join(".", ks[..|ks| - 1]), ks[|ks| - 1], v, m)
    decreases |ks|, 1
  {
    if |ks| == 1 {
      SingleKeyNest(parentKey, ks, v, m);
    } else {
      OuterKeyIntoParent(parentKey, ks, v, m);
    }
  }

  /** The induction step: flattening under the outer key and then the inner keys is flattening under all of them. */
  lemma {:induction false} OuterKeyIntoParent(parentKey: string, ks: seq<string>, v: Node, m: map<string, string>)
    requires |ks| >= 2
    requires forall i :: 0 <= i < |ks| - 1 ==> PlainSegment(ks[i])
    ensures FlatNode(parentKey, ks[0], Nest(ks[1..], v), m)
         == FlatNode(ParentPrefix(parentKey) + Join(".", ks[..|ks| - 1]), ks[|ks| - 1], v, m)
    decreases |ks|, 0
  {
    NestedUnderDottedParent(ParentPrefix(parentKey) + ks[0], ks[1..], v, m);
    NestOneLevel(parentKey, ks, v, m);
    InnerParentFlatAlike(ParentPrefix(parentKey), ks, v, m);
  }

  /** A map with a single entry adds its key to the path and flattens the entry's value. */
  lemma SingleEntryMap(parentKey: string, key: string, k: string, inner: Node, m: map<string, string>)
    ensures FlatNode(parentKey, key, Obj([(k, inner)]), m) == FlatNode(ParentPrefix(parentKey) + key, k, inner, m)
  {
    var node := Obj([(k, inner)]);
    var p' := ParentPrefix(parentKey) + key;
    assert FlatNode(parentKey, key, node, m) == FlatEntries(p', node, 0, m);
    assert node.entries[0] == (k, inner);
    match FlatNode(p', k, inner, m)
    case Unhandled(_) =>
    case Done(m') =>
      assert FlatEntries(p', node, 1, m') == Done(m');
  }

  /** A document with a single entry flattens that entry with parent "". */
  lemma SingleEntryDocument(key: string, v: Node)
    ensures ParseDocument([(key, v)])
         == match FlatNode("", key, v, map[]) case Done(c) => Some(c) case Unhandled(_) => None
  {
    var doc := [(key, v)];
    assert Obj(doc).entries[0] == (key, v);
    match FlatNode("", key, v, map[])
    case Unhandled(_) =>
    case Done(m') =>
      assert FlatEntries("", Obj(doc), 1, m') == Done(m');
  }

  /** The parent path of the last key, with its separating dot, followed by the last key is the whole dotted path. */
  lemma {:induction false} DottedPathOfLastKey(ks: seq<string>)
    requires |ks| >= 2
    requires forall i :: 0 <= i < |ks| - 1 ==> PlainSegment(ks[i])
    ensures ParentPrefix(Join(".", ks[..|ks| - 1])) + ks[|ks| - 1] == Join(".", ks)
  {
    var n := |ks|;
    var j := Join(".", ks[..n - 1]);
    if n == 2 {
      assert ks[..n - 1] == [ks[0]];
    } else {
      assert ks[..n - 2] + [ks[n - 2]] == ks[..n - 1];
      JoinSnoc(".", ks[..n - 2], ks[n - 2]);
    }
    assert PlainSegment(ks[n - 2]);
    assert j[|j| - 1] == ks[n - 2][|ks[n - 2]| - 1];
    assert ParentPrefix(j) == j + ".";
    assert ks[..n - 1] + [ks[n - 1]] == ks;
    JoinSnoc(".", ks[..n - 1], ks[n - 1]);
  }

  /**
   * A document with one top-level entry whose string value sits under maps
   * keyed k1 -> k2 -> ... -> kn flattens to the single entry "k1.k2...kn",
   * value unchanged and with no leading dot. Only k1 ... k(n-1) must be plain
   * segments: the last key is appended as it is, so {a: {"b.": v}} gives "a.b.".
   */
  lemma TopLevelNestedString(ks: seq<string>, s: string)
    requires |ks| >= 1
    requires forall i :: 0 <= i < |ks| - 1 ==> PlainSegment(ks[i])
    ensures ParseDocument([(ks[0], Nest(ks[1..], Str(s)))]) == Some(map[Join(".", ks) := s])
  {
    NestedStringFlattened(ks, s);
    SingleEntryDocument(ks[0], Nest(ks[1..], Str(s)));
  }

  /** The nested string is put under the whole dotted path of its keys. */
  lemma NestedStringFlattened(ks: seq<string>, s: string)
    requires |ks| >= 1
    requires forall i :: 0 <= i < |ks| - 1 ==> PlainSegment(ks[i])
    ensures FlatNode("", ks[0], Nest(ks[1..], Str(s)), map[]) == Done(map[Join(".", ks) := s])
  {
    NestedUnderDottedParent("", ks, Str(s), map[]);
    WholeDottedPath(ks);
  }

  /** The dotted parent of the last key, followed by the last key, is the whole dotted path (also for a single key). */
  lemma WholeDottedPath(ks: seq<string>)
    requires |ks| >= 1
    requires forall i :: 0 <= i < |ks| - 1 ==> PlainSegment(ks[i])
    ensures ParentPrefix(ParentPrefix("") + Join(".", ks[..|ks| - 1])) + ks[|ks| - 1] == Join(".", ks)
  {
    var j := Join(".", ks[..|ks| - 1]);
    assert ParentPrefix("") + j == j;
    if |ks| == 1 {
      assert ks[..0] == [];
      assert ParentPrefix(j) + ks[0] == ks[0];
    } else {
      DottedPathOfLastKey(ks);
    }
  }

  // ---------------------------------------------------------------------
  // Top-level string entries

  lemma {:induction false} StringEntriesStored(doc: seq<(string, Node)>, i: nat, m: map<string, string>)
    requires i <= |doc|
    requires forall j :: 0 <= j < |doc| ==> doc[j].1.Str?
    requires forall j, l :: 0 <= j < l < |doc| ==> doc[j].0 != doc[l].0
    ensures FlatEntries("", Obj(doc), i, m).Done?
    ensures forall j :: i <= j < |doc| ==>
              doc[j].0 in FlatEntries("", Obj(doc), i, m).entries
              && FlatEntries("", Obj(doc), i, m).entries[doc[j].0] == doc[j].1.text
    ensures forall k :: (forall j :: i <= j < |doc| ==> doc[j].0 != k) ==>
              SameAt(FlatEntries("", Obj(doc), i, m).entries, m, k)
    decreases |doc| - i
  {
    if i < |doc| {
      var m' := m[doc[i].0 := doc[i].1.text];
      assert ParentPrefix("") + doc[i].0 == doc[i].0;
      assert FlatNode("", doc[i].0, doc[i].1, m) == Done(m');
      assert FlatEntries("", Obj(doc), i, m) == FlatEntries("", Obj(doc), i + 1, m');
      StringEntriesStored(doc, i + 1, m');
      var r := FlatEntries("", Obj(doc), i + 1, m').entries;
      assert SameAt(r, m', doc[i].0) by {
        assert forall j :: i + 1 <= j < |doc| ==> doc[j].0 != doc[i].0;
      }
      forall k | forall j :: i <= j < |doc| ==> doc[j].0 != k
        ensures SameAt(r, m, k)
      {
        assert SameAt(r, m', k);
        assert k != doc[i].0;
      }
    }
  }

  /**
   * A document whose top-level values are all strings (its keys distinct, as
   * in any Java map) flattens to exactly those entries, each stored under its
   * own key.
   */
  lemma TopLevelStringsStoredUnderOwnKeys(doc: seq<(string, Node)>)
    requires forall j :: 0 <= j < |doc| ==> doc[j].1.Str?
    requires forall j, l :: 0 <= j < l < |doc| ==> doc[j].0 != doc[l].0
    ensures ParseDocument(doc).Some?
    ensures forall j :: 0 <= j < |doc| ==>
              doc[j].0 in ParseDocument(doc).value && ParseDocument(doc).value[doc[j].0] == doc[j].1.text
    ensures forall k :: k in ParseDocument(doc).value ==> exists j :: 0 <= j < |doc| && doc[j].0 == k
  {
    StringEntriesStored(doc, 0, map[]);
    var config := ParseDocument(doc).value;
    forall k | k in config
      ensures exists j :: 0 <= j < |doc| && doc[j].0 == k
    {
      assert !SameAt(config, map[], k);
    }
  }

  // ---------------------------------------------------------------------
  // Lists of strings

  lemma {:induction false} RenderedStrings(texts: seq<string>, i: nat)
    requires i <= |texts|
    ensures RenderItems(Lst(Strs(texts)), i) == Join(", ", texts[i..])
    decreases |texts| - i
  {
    if i < |texts| - 1 {
      RenderedStrings(texts, i + 1);
      assert texts[i..][1..] == texts[i + 1..];
    }
  }

  /** The value stored for a list of strings: the strings joined by single spaces. */
  lemma StringListValue(texts: seq<string>)
    requires forall i :: 0 <= i < |texts| ==> !ContainsCommaSpace(texts[i])
    ensures ListValue(Lst(Strs(texts))) == Join(" ", texts)
  {
    var list := Lst(Strs(texts));
    RenderedStrings(texts, 0);
    assert texts[0..] == texts;
    var val := Render(list);
    assert val[1..|val| - 1] == Join(", ", texts);
    ReplaceTurnsCommaJoinIntoSpaceJoin(texts);
  }

  lemma {:induction false} AllStringItems(parent: string, key: string, list: Node, i: nat, m: map<string, string>)
    requires list.Lst? && i <= |list.items|
    requires forall j :: 0 <= j < |list.items| ==> list.items[j].Str?
    ensures FlatItems(parent, key, list, i, m)
         == Done(if i == |list.items| then m else m[parent + key := ListValue(list)])
    decreases |list.items| - i
  {
    if i < |list.items| {
      var m' := m[parent + key := ListValue(list)];
      AllStringItems(parent, key, list, i + 1, m');
      assert m'[parent + key := ListValue(list)] == m';
    }
  }

  /**
   * A list of strings is stored as one entry under the list's own key, its
   * value the strings joined by single spaces; an empty list stores nothing.
   */
  lemma StringListStoredSpaceJoined(parentKey: string, key: string, texts: seq<string>, m: map<string, string>)
    requires forall i :: 0 <= i < |texts| ==> !ContainsCommaSpace(texts[i])
    ensures FlatNode(parentKey, key, Lst(Strs(texts)), m)
         == Done(if texts == [] then m else m[ParentPrefix(parentKey) + key := Join(" ", texts)])
  {
    AllStringItems(ParentPrefix(parentKey), key, Lst(Strs(texts)), 0, m);
    StringListValue(texts);
  }

  /**
   * toString and replace(", ", " ") do not know where one string ends: an
   * element that itself contains ", " loses its comma.
   */
  lemma CommaInsideElementIsReplaced()
    ensures FlatNode("", "manager", Lst([Str("a, b")]), map[]) == Done(map["manager" := "a b"])
  {
    var list := Lst([Str("a, b")]);
    assert RenderItems(list, 0) == "a, b";
    assert Render(list) == "[a, b]";
    assert "[a, b]"[1..5] == "a, b";
    assert ReplaceCommaSpace("a, b") == "a b" by {
      assert "a, b"[1..] == ", b";
      assert ", b"[2..] == "b";
      assert ReplaceCommaSpace("b") == "b";
      assert ReplaceCommaSpace(", b") == " b";
    }
    assert ListValue(list) == "a b";
    assert FlatNode("", "manager", list, map[]) == FlatItems("", "manager", list, 0, map[]);
    assert "" + "manager" == "manager";
    assert FlatItems("", "manager", list, 0, map[]) == FlatItems("", "manager", list, 1, map["manager" := "a b"]);
    assert FlatItems("", "manager", list, 1, map["manager" := "a b"]) == Done(map["manager" := "a b"]);
  }

  // ---------------------------------------------------------------------
  // Lists of non-strings

  /**
   * Reference behaviour for a list without strings: each element flattened,
   * in order, as though it were itself the value of `key`, stopping at the
   * first element that throws.
   */
  function FlatEach(parentKey: string, key: string, xs: seq<Node>, m: map<string, string>): FlatResult
    decreases |xs|
  {
    if xs == [] then Done(m)
    else
      match FlatNode(parentKey, key, xs[0], m)
      case Unhandled(partial) => Unhandled(partial)
      case Done(m') => FlatEach(parentKey, key, xs[1..], m')
  }

  lemma {:induction false} NonStringItems(parentKey: string, key: string, list: Node, i: nat, m: map<string, string>)
    requires list.Lst? && i <= |list.items|
    requires forall j :: 0 <= j < |list.items| ==> !list.items[j].Str?
    ensures FlatItems(ParentPrefix(parentKey), key, list, i, m) == FlatEach(parentKey, key, list.items[i..], m)
    decreases |list.items| - i
  {
    if i < |list.items| {
      var xs := list.items[i..];
      assert xs[0] == list.items[i] && xs[1..] == list.items[i + 1..];
      FlatNodeNormalizesParent(parentKey, key, list.items[i], m);
      match FlatNode(parentKey, key, list.items[i], m)
      case Unhandled(_) =>
      case Done(m') => NonStringItems(parentKey, key, list, i + 1, m');
    }
  }

  /**
   * The elements of a list without strings are flattened one by one under the
   * list's own key: no index is added and the parent is not dotted twice.
   */
  lemma NonStringListFlattenedElementwise(parentKey: string, key: string, xs: seq<Node>, m: map<string, string>)
    requires forall i :: 0 <= i < |xs| ==> !xs[i].Str?
    ensures FlatNode(parentKey, key, Lst(xs), m) == FlatEach(parentKey, key, xs, m)
  {
    NonStringItems(parentKey, key, Lst(xs), 0, m);
    assert xs[0..] == xs;
  }

  // ---------------------------------------------------------------------
  // Unhandled value types

  /** flatten throws exactly when the value holds a non-string scalar somewhere. */
  lemma {:induction false} NodeFailsIffScalar(parentKey: string, key: string, v: Node, m: map<string, string>)
    ensures FlatNode(parentKey, key, v, m).Unhandled? <==> HasScalar(v)
    decreases v, 1, 0
  {
    var parent := ParentPrefix(parentKey);
    match v
    case Str(_) =>
    case Scalar(_) =>
    case Lst(_) => ItemsFailIffScalar(parent, key, v, 0, m);
    case Obj(_) => EntriesFailIffScalar(parent + key, v, 0, m);
  }

  lemma {:induction false} ItemsFailIffScalar(parent: string, key: string, list: Node, i: nat, m: map<string, string>)
    requires list.Lst? && i <= |list.items|
    ensures FlatItems(parent, key, list, i, m).Unhandled?
        <==> exists j :: i <= j < |list.items| && HasScalar(list.items[j])
    decreases list, 0, |list.items| - i
  {
    if i < |list.items| {
      var x := list.items[i];
      if x.Str? {
        ItemsFailIffScalar(parent, key, list, i + 1, m[parent + key := ListValue(list)]);
        assert !HasScalar(x);
      } else {
        NodeFailsIffScalar(parent, key, x, m);
        match FlatNode(parent, key, x, m)
        case Unhandled(_) =>
        case Done(m') => ItemsFailIffScalar(parent, key, list, i + 1, m');
      }
    }
  }

  lemma {:induction false} EntriesFailIffScalar(prefix: string, obj: Node, i: nat, m: map<string, string>)
    requires obj.Obj? && i <= |obj.entries|
    ensures FlatEntries(prefix, obj, i, m).Unhandled?
        <==> exists j :: i <= j < |obj.entries| && HasScalar(obj.entries[j].1)
    decreases obj, 0, |obj.entries| - i
  {
    if i < |obj.entries| {
      var (k, x) := obj.entries[i];
      assert x < obj;
      NodeFailsIffScalar(prefix, k, x, m);
      match FlatNode(prefix, k, x, m)
      case Unhandled(_) =>
      case Done(m') => EntriesFailIffScalar(prefix, obj, i + 1, m');
    }
  }

  /** parseConfiguration fails exactly when some value in the document is a number, boolean, null or other non-string scalar. */
  lemma DocumentFailsIffScalar(doc: seq<(string, Node)>)
    ensures ParseDocument(doc).None? <==> exists i :: 0 <= i < |doc| && HasScalar(doc[i].1)
  {
    EntriesFailIffScalar("", Obj(doc), 0, map[]);
  }

  // ---------------------------------------------------------------------
  // Where flatten writes

  /** flatten(parentKey, key, v) leaves every key outside its own dotted path as it was. */
  lemma {:induction false} NodeWritesOnlyUnderItsPath(parentKey: string, key: string, v: Node, m: map<string, string>, other: string)
    requires !IsPrefix(ParentPrefix(parentKey) + key, other)
    ensures SameAt(FlatNode(parentKey, key, v, m).entries, m, other)
    decreases v, 1, 0
  {
    var parent := ParentPrefix(parentKey);
    PrefixIdempotent(parentKey);
    match v
    case Str(_) =>
      assert IsPrefix(parent + key, parent + key);
    case Scalar(_) =>
    case Lst(_) => ItemsWriteOnlyUnderPath(parent, key, v, 0, m, other);
    case Obj(_) => EntriesWriteOnlyUnderPrefix(parent + key, v, 0, m, other);
  }

  lemma {:induction false} ItemsWriteOnlyUnderPath(parent: string, key: string, list: Node, i: nat, m: map<string, string>, other: string)
    requires list.Lst? && i <= |list.items|
    requires ParentPrefix(parent) == parent
    requires !IsPrefix(parent + key, other)
    ensures SameAt(FlatItems(parent, key, list, i, m).entries, m, other)
    decreases list, 0, |list.items| - i
  {
    if i < |list.items| {
      var x := list.items[i];
      if x.Str? {
        assert IsPrefix(parent + key, parent + key);
        ItemsWriteOnlyUnderPath(parent, key, list, i + 1, m[parent + key := ListValue(list)], other);
      } else {
        NodeWritesOnlyUnderItsPath(parent, key, x, m, other);
        match FlatNode(parent, key, x, m)
        case Unhandled(_) =>
        case Done(m') => ItemsWriteOnlyUnderPath(parent, key, list, i + 1, m', other);
      }
    }
  }

  lemma {:induction false} EntriesWriteOnlyUnderPrefix(prefix: string, obj: Node, i: nat, m: map<string, string>, other: string)
    requires obj.Obj? && i <= |obj.entries|
    requires !IsPrefix(prefix, other)
    ensures SameAt(FlatEntries(prefix, obj, i, m).entries, m, other)
    decreases obj, 0, |obj.entries| - i
  {
    if i < |obj.entries| {
      var (k, x) := obj.entries[i];
      assert x < obj;
      assert prefix != "";
      var pp := ParentPrefix(prefix);
      PrefixOfConcat(pp, k);
      if IsPrefix(pp + k, other) {
        PrefixTransitive(prefix, pp + k, other);
      }
      NodeWritesOnlyUnderItsPath(prefix, k, x, m, other);
      match FlatNode(prefix, k, x, m)
      case Unhandled(_) =>
      case Done(m') => EntriesWriteOnlyUnderPrefix(prefix, obj, i + 1, m', other);
    }
  }

  lemma {:induction false} TopLevelWritesUnderTheirKeys(doc: seq<(string, Node)>, i: nat, m: map<string, string>, other: string)
    requires i <= |doc|
    requires forall j :: i <= j < |doc| ==> !IsPrefix(doc[j].0, other)
    ensures SameAt(FlatEntries("", Obj(doc), i, m).entries, m, other)
    decreases |doc| - i
  {
    if i < |doc| {
      assert ParentPrefix("") + doc[i].0 == doc[i].0;
      NodeWritesOnlyUnderItsPath("", doc[i].0, doc[i].1, m, other);
      match FlatNode("", doc[i].0, doc[i].1, m)
      case Unhandled(_) =>
      case Done(m') => TopLevelWritesUnderTheirKeys(doc, i + 1, m', other);
    }
  }

  /** Every flattened key starts with the top-level key it came from: top-level keys get no leading dot. */
  lemma EveryKeyStartsWithATopLevelKey(doc: seq<(string, Node)>, key: string)
    requires ParseDocument(doc).Some? && key in ParseDocument(doc).value
    ensures exists j :: 0 <= j < |doc| && IsPrefix(doc[j].0, key)
  {
    if forall j :: 0 <= j < |doc| ==> !IsPrefix(doc[j].0, key) {
      TopLevelWritesUnderTheirKeys(doc, 0, map[], key);
    }
  }
}
