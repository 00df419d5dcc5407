/**
 Path query and update on parsed XML (packages/core/src/xml/document.ts), as functions on a tree.

 A parsed document is a tree of JavaScript values: strings, objects with ordered keys, and arrays. An array can
 also carry named properties, because `set` may assign one.
 */
module XmlTree {
  import opened Options

  datatype Entry = Entry(tag: string, value: Xml)

  datatype Xml = Text(text: string) | Elem(entries: seq<Entry>) | Many(items: seq<Xml>, named: seq<Entry>)

  function Entries(x: Xml): seq<Entry> {
    match x case Text(_) => [] case Elem(es) => es case Many(_, es) => es
  }

  function WithEntries(x: Xml, es: seq<Entry>): Xml {
    match x case Text(_) => x case Elem(_) => Elem(es) case Many(items, _) => Many(items, es)
  }

  function Lookup(es: seq<Entry>, tag: string): Option<Xml> {
    if es == [] then None else if es[0].tag == tag then Some(es[0].value) else Lookup(es[1..], tag)
  }

  /** Assigning a key keeps its place in the order; a new key goes last. */
  function Put(es: seq<Entry>, tag: string, v: Xml): seq<Entry> {
    if es == [] then [Entry(tag, v)]
    else if es[0].tag == tag then [Entry(tag, v)] + es[1..]
    else [es[0]] + Put(es[1..], tag, v)
  }

  function Remove(es: seq<Entry>, tag: string): seq<Entry> {
    if es == [] then []
    else if es[0].tag == tag then Remove(es[1..], tag)
    else [es[0]] + Remove(es[1..], tag)
  }

  lemma {:induction false} LookupPut(es: seq<Entry>, tag: string, v: Xml, other: string)
    ensures Lookup(Put(es, tag, v), other) == if other == tag then Some(v) else Lookup(es, other)
  {
    if es != [] && es[0].tag != tag {
      LookupPut(es[1..], tag, v, other);
      assert Put(es, tag, v)[1..] == Put(es[1..], tag, v);
    } else if es != [] {
      assert Put(es, tag, v)[1..] == es[1..];
    }
  }

  lemma {:induction false} LookupRemove(es: seq<Entry>, tag: string, other: string)
    ensures Lookup(Remove(es, tag), other) == if other == tag then None else Lookup(es, other)
  {
    if es != [] {
      LookupRemove(es[1..], tag, other);
      if es[0].tag != tag {
        assert Remove(es, tag)[1..] == Remove(es[1..], tag);
      }
    }
  }

  // ---- Paths -----------------------------------------------------------------------------------

  function FirstSlash(path: string): (n: nat)
    ensures n <= |path|
    ensures n < |path| ==> path[n] == '/'
    ensures forall i :: 0 <= i < n ==> path[i] != '/'
  {
    if path == "" || path[0] == '/' then 0 else 1 + FirstSlash(path[1..])
  }

  /** `path.split("/")` */
  function Split(path: string): (segs: seq<string>)
    ensures segs != []
    decreases |path|
  {
    var n := FirstSlash(path);
    if n == |path| then [path] else [path[..n]] + Split(path[n + 1..])
  }

  /** The first tag of a path and the path that remains after it, as `getElement` takes them apart. */
  function FirstTag(path: string): string {
    path[..FirstSlash(path)]
  }

  function RestPath(path: string): string {
    if FirstSlash(path) == |path| then "" else path[FirstSlash(path) + 1..]
  }

  /** `getElement`: the walk ends where the remaining path is empty; strings have no children. */
  function GetElement(x: Option<Xml>, path: string): Option<Xml>
    decreases |path|
  {
    if path == "" then x
    else match x
      case None => None
      case Some(Text(_)) => None
      case Some(v) => GetElement(Lookup(Entries(v), FirstTag(path)), RestPath(path))
  }

  function Walk(x: Option<Xml>, tags: seq<string>): Option<Xml>
    decreases |tags|
  {
    if tags == [] || x.None? then x
    else Walk(Lookup(Entries(x.value), tags[0]), tags[1..])
  }

  function Trim(segs: seq<string>): seq<string> {
    if segs != [] && segs[|segs| - 1] == "" then segs[..|segs| - 1] else segs
  }

  /** The tags a path visits: its segments without one trailing empty segment. */
  function Tags(path: string): seq<string> {
    Trim(Split(path))
  }

  lemma {:induction false} GetElementWalksTags(x: Option<Xml>, path: string)
    ensures GetElement(x, path) == Walk(x, Tags(path))
    decreases |path|
  {
    if path != "" {
      var rest := RestPath(path);
      if FirstSlash(path) == |path| {
        assert Tags(path) == [path] && path[..|path|] == path;
      } else {
        assert Split(path) == [FirstTag(path)] + Split(rest);
        assert Tags(path) == [FirstTag(path)] + Tags(rest);
      }
      if x.Some? && !x.value.Text? {
        GetElementWalksTags(Lookup(Entries(x.value), FirstTag(path)), rest);
        if FirstSlash(path) == |path| {
          assert Tags(rest) == [];
        }
      } else {
        NothingBelow(x, Tags(path));
      }
    }
  }

  lemma NothingBelow(x: Option<Xml>, tags: seq<string>)
    requires tags != [] && (x.None? || x.value.Text?)
    ensures Walk(x, tags) == None
  {
  }

  const FORBIDDEN := {"__proto__", "constructor", "prototype"}

  predicate IsForbidden(path: string) {
    exists i :: 0 <= i < |Split(path)| && Split(path)[i] in FORBIDDEN
  }

  // ---- Queries ---------------------------------------------------------------------------------

  type Condition = map<string, string>

  predicate MatchesSubset(item: Xml, condition: Condition) {
    !item.Text? && forall k | k in condition :: Lookup(Entries(item), k) == Some(Text(condition[k]))
  }

  function Matching(items: seq<Xml>, condition: Condition): seq<Xml> {
    if items == [] then []
    else (if MatchesSubset(items[0], condition) then [items[0]] else []) + Matching(items[1..], condition)
  }

  function NotMatching(items: seq<Xml>, condition: Condition): seq<Xml> {
    if items == [] then []
    else (if MatchesSubset(items[0], condition) then [] else [items[0]]) + NotMatching(items[1..], condition)
  }

  function Elements(x: Xml): seq<Xml> {
    if x.Many? then x.items else [x]
  }

  function ElementsOf(x: Option<Xml>): seq<Xml> {
    if x.None? then [] else Elements(x.value)
  }

  function Selected(x: Option<Xml>, condition: Option<Condition>): seq<Xml> {
    if condition.None? then ElementsOf(x) else Matching(ElementsOf(x), condition.value)
  }

  /** `get`: the matching elements, or nothing when there are none. */
  function Get(root: Xml, path: string, condition: Option<Condition>): Option<seq<Xml>> {
    var found := Selected(GetElement(Some(root), path), condition);
    if found == [] then None else Some(found)
  }

  // ---- Updates ---------------------------------------------------------------------------------

  /** `root` with the node at `tags` replaced, or removed when `v` is None. */
  function Rewrite(root: Xml, tags: seq<string>, v: Option<Xml>): Xml
    requires tags != []
    decreases |tags|
  {
    var es := Entries(root);
    if |tags| == 1 then WithEntries(root, if v.Some? then Put(es, tags[0], v.value) else Remove(es, tags[0]))
    else match Lookup(es, tags[0])
      case None => root
      case Some(child) => WithEntries(root, Put(es, tags[0], Rewrite(child, tags[1..], v)))
  }

  function Deleted(root: Xml, path: string, condition: Option<Condition>): (Xml, bool) {
    var target := GetElement(Some(root), path);
    if IsForbidden(path) || Selected(target, condition) == [] then (root, false)
    else if Tags(path) == [] then (root, true)
    else if target.value.Many? && condition.Some? then
      var kept := NotMatching(target.value.items, condition.value);
      (Rewrite(root, Tags(path), if kept == [] then None else Some(Many(kept, []))), true)
    else (Rewrite(root, Tags(path), None), true)
  }

  predicate IsEmpty(x: Option<Xml>) {
    match x
    case None => true
    case Some(Text(s)) => s == ""
    case Some(Elem(es)) => es == []
    case Some(Many(items, _)) => items == []
  }

  function NewValue(current: Option<Xml>, overwrite: bool, v: Xml): Xml {
    if overwrite || current.None? then v
    else if current.value.Many? then Many(current.value.items + [v], [])
    else Many([current.value, v], [])
  }

  /** The last segment of a path, and the tags of the part before it. */
  function LastTag(path: string): string {
    Split(path)[|Split(path)| - 1]
  }

  function ParentTags(path: string): seq<string> {
    Trim(Split(path)[..|Split(path)| - 1])
  }

  /** `set` can take effect: the parent exists, is not empty, and is not a string. */
  predicate IsSettable(root: Xml, path: string) {
    var parent := Walk(Some(root), ParentTags(path));
    !IsForbidden(path) && !IsEmpty(parent) && !parent.value.Text?
  }

  function SetAt(root: Xml, path: string, overwrite: bool, v: Xml): (Xml, bool) {
    if !IsSettable(root, path) then (root, false)
    else
      var target := ParentTags(path) + [LastTag(path)];
      (Rewrite(root, target, Some(NewValue(Walk(Some(root), target), overwrite, v))), true)
  }
}
