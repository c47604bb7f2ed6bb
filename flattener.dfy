/**
 * ClusterConfigParser.flatten and the top-level loop of parseConfiguration:
 * a loaded YAML tree becomes a flat map from dotted keys to string values.
 */
module Flattener {
  import opened Wrappers
  import opened JavaText
  import opened YamlTree

  /** addTheDot: no separator is added after a key that already ends in a dot. */
  function AddTheDot(key: string): (r: string)
    ensures r == "" <==> |key| > 0 && key[|key| - 1] == '.'
    ensures r != "" ==> r == "."
  {
    if EndsWithDot(key) then "" else "."
  }

  /**
   * The `parent` flatten computes from its `parentKey`: nothing at the top
   * level, otherwise the parent key followed by exactly one separating dot.
   */
  function ParentPrefix(parentKey: string): string {
    if parentKey == "" then "" else parentKey + AddTheDot(parentKey)
  }

  /**
   * The parent of an empty key is empty; otherwise it starts with the parent
   * key, ends in a dot and adds at most that dot, never doubling one.
   */
  lemma ParentPrefixShape(parentKey: string)
    ensures parentKey == "" ==> ParentPrefix(parentKey) == ""
    ensures parentKey != "" ==> IsPrefix(parentKey, ParentPrefix(parentKey)) && EndsWithDot(ParentPrefix(parentKey))
    ensures |ParentPrefix(parentKey)| <= |parentKey| + 1
    ensures !EndsWithDoubleDot(parentKey) ==> !EndsWithDoubleDot(ParentPrefix(parentKey))
  {
    if parentKey != "" {
      PrefixOfConcat(parentKey, AddTheDot(parentKey));
    }
  }

  /**
   * The state of the results map after a flatten call: `Done` when it
   * returned normally, `Unhandled` when it threw: the RuntimeException
   * "Unhandled object type", or a NullPointerException for a null value,
   * with the entries put before the throw.
   */
  datatype FlatResult =
    | Done(entries: map<string, string>)
    | Unhandled(entries: map<string, string>)

  /** flatten(parentKey, key, value, m): the puts it makes into `m`. */
  function FlatNode(parentKey: string, key: string, value: Node, m: map<string, string>): FlatResult
    decreases value, 1, 0
  {
    var parent := ParentPrefix(parentKey);
    match value
    case Str(s) => Done(m[parent + key := s])
    case Lst(_) => FlatItems(parent, key, value, 0, m)
    case Obj(_) => FlatEntries(parent + key, value, 0, m)
    case Scalar(_) => Unhandled(m)
  }

  /** What a string element of a list stores: the list's toString without its brackets, ", " replaced by " ". */
  function ListValue(list: Node): string
    requires list.Lst?
  {
    var val := Render(list);
    ReplaceCommaSpace(val[1..|val| - 1])
  }

  /**
   * The forEach over a list's elements from index `i` on: a string element
   * puts the whole list's value under `parent + key`; any other element is
   * flattened with `parent` as its parent key and the same key.
   */
  function FlatItems(parent: string, key: string, list: Node, i: nat, m: map<string, string>): FlatResult
    requires list.Lst? && i <= |list.items|
    decreases list, 0, |list.items| - i
  {
    if i == |list.items| then Done(m)
    else if list.items[i].Str? then FlatItems(parent, key, list, i + 1, m[parent + key := ListValue(list)])
    else
      match FlatNode(parent, key, list.items[i], m)
      case Unhandled(partial) => Unhandled(partial)
      case Done(m') => FlatItems(parent, key, list, i + 1, m')
  }

  /** The forEach over a map's entries from index `i` on, each flattened under `prefix`. */
  function FlatEntries(prefix: string, obj: Node, i: nat, m: map<string, string>): FlatResult
    requires obj.Obj? && i <= |obj.entries|
    decreases obj, 0, |obj.entries| - i
  {
    if i == |obj.entries| then Done(m)
    else
      assert obj.entries[i].1 < obj;
      match FlatNode(prefix, obj.entries[i].0, obj.entries[i].1, m)
      case Unhandled(partial) => Unhandled(partial)
      case Done(m') => FlatEntries(prefix, obj, i + 1, m')
  }

  /**
   * parseConfiguration after loading: every top-level entry flattened with
   * parent "" into a fresh map; None when flatten throws.
   */
  function ParseDocument(doc: seq<(string, Node)>): Option<map<string, string>> {
    match FlatEntries("", Obj(doc), 0, map[])
    case Done(config) => Some(config)
    case Unhandled(_) => None
  }

  /** The HashMap that flatten fills in place. */
  class Results {
    var entries: map<string, string>

    constructor ()
      ensures entries == map[]
    {
      entries := map[];
    }

    /** HashMap.put: the value put last for a key wins. */
    method Put(key: string, value: string)
      modifies this
      ensures entries == old(entries)[key := value]
    {
      entries := entries[key := value];
    }
  }

  /** flatten: puts the leaves of `value` into `results`; false when it throws. */
  method Flatten(parentKey: string, key: string, value: Node, results: Results) returns (ok: bool)
    modifies results
    ensures ok == FlatNode(parentKey, key, value, old(results.entries)).Done?
    ensures results.entries == FlatNode(parentKey, key, value, old(results.entries)).entries
    decreases value
  {
    var parent := if parentKey == "" then "" else parentKey + AddTheDot(parentKey);
    match value {
      case Str(s) =>
        results.Put(parent + key, s);
        ok := true;
      case Lst(items) =>
        var i := 0;
        while i < |items|
          invariant 0 <= i <= |items|
          invariant FlatItems(parent, key, value, i, results.entries)
                 == FlatItems(parent, key, value, 0, old(results.entries))
        {
          if items[i].Str? {
            var val := Render(value);
            results.Put(parent + key, ReplaceCommaSpace(val[1..|val| - 1]));
          } else {
            ok := Flatten(parent, key, items[i], results);
            if !ok {
              return;
            }
          }
          i := i + 1;
        }
        ok := true;
      case Obj(entries) =>
        var i := 0;
        while i < |entries|
          invariant 0 <= i <= |entries|
          invariant FlatEntries(parent + key, value, i, results.entries)
                 == FlatEntries(parent + key, value, 0, old(results.entries))
        {
          var (k, v) := entries[i];
          assert v < value;
          ok := Flatten(parent + key, k, v, results);
          if !ok {
            return;
          }
          i := i + 1;
        }
        ok := true;
      case Scalar(_) =>
        ok := false;
    }
  }

  /** parseConfiguration from the loaded document on: None when flatten throws. */
  method ParseConfiguration(doc: seq<(string, Node)>) returns (config: Option<map<string, string>>)
    ensures config == ParseDocument(doc)
  {
    var results := new Results();
    var i := 0;
    while i < |doc|
      invariant 0 <= i <= |doc|
      invariant FlatEntries("", Obj(doc), i, results.entries) == FlatEntries("", Obj(doc), 0, map[])
    {
      var ok := Flatten("", doc[i].0, doc[i].1, results);
      if !ok {
        return None;
      }
      i := i + 1;
    }
    return Some(results.entries);
  }
}
