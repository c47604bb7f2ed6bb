/**
 * The value tree that the YAML loader hands to the cluster configuration
 * parser, and Java's toString rendering of it.
 */
module YamlTree {

  /**
   * A loaded YAML value. `Obj` is a java.util.Map with String keys, its
   * entries in iteration order; `Scalar` is any value that is not a String,
   * List or Map (an Integer, Boolean, Double, Date or null), carried with
   * the text Java's toString (or "null") gives for it.
   */
  datatype Node =
    | Str(text: string)
    | Lst(items: seq<Node>)
    | Obj(entries: seq<(string, Node)>)
    | Scalar(rendering: string)

  /** A list node holding exactly the given strings. */
  function Strs(texts: seq<string>): (r: seq<Node>)
    ensures |r| == |texts|
    ensures forall i :: 0 <= i < |r| ==> r[i] == Str(texts[i])
  {
    if texts == [] then [] else [Str(texts[0])] + Strs(texts[1..])
  }

  /**
   * `String.valueOf(v)`: a list renders as "[a, b]" (AbstractCollection),
   * a map as "{k=v, k2=v2}" (AbstractMap), a string as itself.
   */
  function Render(v: Node): (r: string)
    ensures v.Lst? ==> |r| >= 2 && r[0] == '[' && r[|r| - 1] == ']'
    decreases v, 1, 0
  {
    match v
    case Str(t) => t
    case Scalar(t) => t
    case Lst(_) => "[" + RenderItems(v, 0) + "]"
    case Obj(_) => "{" + RenderEntries(v, 0) + "}"
  }

  /** The rendered items of `list` from index `i` on, separated by ", ". */
  function RenderItems(list: Node, i: nat): string
    requires list.Lst? && i <= |list.items|
    decreases list, 0, |list.items| - i
  {
    if i == |list.items| then ""
    else if i == |list.items| - 1 then Render(list.items[i])
    else Render(list.items[i]) + ", " + RenderItems(list, i + 1)
  }

  /** The rendered entries `k=v` of `obj` from index `i` on, separated by ", ". */
  function RenderEntries(obj: Node, i: nat): string
    requires obj.Obj? && i <= |obj.entries|
    decreases obj, 0, |obj.entries| - i
  {
    if i == |obj.entries| then ""
    else
      var entry := obj.entries[i];
      assert entry.1 < obj;
      var text := entry.0 + "=" + Render(entry.1);
      if i == |obj.entries| - 1 then text else text + ", " + RenderEntries(obj, i + 1)
  }

  /** The tree holds a value that is not a String, List or Map somewhere. */
  predicate HasScalar(v: Node) {
    match v
    case Str(_) => false
    case Scalar(_) => true
    case Lst(xs) => exists i :: 0 <= i < |xs| && HasScalar(xs[i])
    case Obj(es) => exists i :: 0 <= i < |es| && HasScalar(es[i].1)
  }
}
