/**
 What a caller of `get`, `set` and `delete` may rely on (packages/core/src/xml/document.ts:154-324). The main results
 say exactly which paths give back what was set, and what appending and conditional deletion leave behind.
 */
module XmlLaws {
  import opened Options
  import opened XmlTree

  // ---- Rewriting one node ----------------------------------------------------------------------

  lemma {:induction false} WalkRewritten(root: Xml, tags: seq<string>, v: Option<Xml>)
    requires tags != []
    requires Walk(Some(root), tags[..|tags| - 1]).Some? && !Walk(Some(root), tags[..|tags| - 1]).value.Text?
    ensures Walk(Some(Rewrite(root, tags, v)), tags) == v
    decreases |tags|
  {
    var es := Entries(root);
    if |tags| == 1 {
      LookupRemove(es, tags[0], tags[0]);
      if v.Some? {
        LookupPut(es, tags[0], v.value, tags[0]);
      }
    } else {
      assert tags[..|tags| - 1][1..] == tags[1..][..|tags| - 2];
      var child := Lookup(es, tags[0]).value;
      WalkRewritten(child, tags[1..], v);
      LookupPut(es, tags[0], Rewrite(child, tags[1..], v), tags[0]);
    }
  }

  /** Neither path is a prefix of the other. */
  predicate Diverge(one: seq<string>, other: seq<string>)
    decreases |one|
  {
    one != [] && other != [] && (one[0] != other[0] || Diverge(one[1..], other[1..]))
  }

  lemma {:induction false} WalkElsewhere(root: Xml, tags: seq<string>, v: Option<Xml>, other: seq<string>)
    requires Diverge(tags, other)
    ensures Walk(Some(Rewrite(root, tags, v)), other) == Walk(Some(root), other)
    decreases |tags|
  {
    var es := Entries(root);
    if |tags| == 1 {
      LookupRemove(es, tags[0], other[0]);
      if v.Some? {
        LookupPut(es, tags[0], v.value, other[0]);
      }
    } else if Lookup(es, tags[0]).Some? {
      var child := Lookup(es, tags[0]).value;
      LookupPut(es, tags[0], Rewrite(child, tags[1..], v), other[0]);
      if tags[0] == other[0] {
        WalkElsewhere(child, tags[1..], v, other[1..]);
      }
    }
  }

  /** The node above a rewritten one stays there; only a string or a removal could empty it. */
  lemma {:induction false} ParentAfterPut(root: Xml, tags: seq<string>, v: Xml)
    requires tags != []
    requires Walk(Some(root), tags[..|tags| - 1]).Some? && !Walk(Some(root), tags[..|tags| - 1]).value.Text?
    ensures var before := Walk(Some(root), tags[..|tags| - 1]).value;
      Walk(Some(Rewrite(root, tags, Some(v))), tags[..|tags| - 1])
      == Some(WithEntries(before, Put(Entries(before), tags[|tags| - 1], v)))
    decreases |tags|
  {
    if |tags| > 1 {
      assert tags[..|tags| - 1][1..] == tags[1..][..|tags| - 2];
      var child := Lookup(Entries(root), tags[0]).value;
      ParentAfterPut(child, tags[1..], v);
      LookupPut(Entries(root), tags[0], Rewrite(child, tags[1..], Some(v)), tags[0]);
    }
  }

  lemma {:induction false} WalkAppend(x: Option<Xml>, one: seq<string>, two: seq<string>)
    ensures Walk(x, one + two) == Walk(Walk(x, one), two)
    decreases |one|
  {
    if one == [] {
      assert one + two == two;
    } else if x.Some? {
      assert (one + two)[1..] == one[1..] + two;
      WalkAppend(Lookup(Entries(x.value), one[0]), one[1..], two);
    }
  }

  // ---- set, then get ---------------------------------------------------------------------------

  function Target(path: string): seq<string> {
    ParentTags(path) + [LastTag(path)]
  }

  /** Both of the last two segments are empty, or neither is. `set` drops one empty segment of the parent path. */
  predicate IsClean(path: string) {
    var segs := Split(path);
    LastTag(path) == "" <==> |segs| > 1 && segs[|segs| - 2] == ""
  }

  lemma CleanPathsWriteWhereTheyRead(path: string)
    requires IsClean(path)
    ensures Target(path) == Tags(path)
  {
    var segs := Split(path);
    assert segs[..|segs| - 1] + [LastTag(path)] == segs;
  }

  lemma SettableParent(root: Xml, path: string)
    requires IsSettable(root, path)
    ensures Target(path)[..|Target(path)| - 1] == ParentTags(path)
    ensures Walk(Some(root), ParentTags(path)).Some?
  {
  }

  lemma SetWritesTarget(root: Xml, path: string, overwrite: bool, v: Xml)
    requires IsSettable(root, path)
    ensures Walk(Some(SetAt(root, path, overwrite, v).0), Target(path))
      == Some(NewValue(Walk(Some(root), Target(path)), overwrite, v))
  {
    SettableParent(root, path);
    WalkRewritten(root, Target(path), Some(NewValue(Walk(Some(root), Target(path)), overwrite, v)));
  }

  lemma SetThenGet(root: Xml, path: string, v: Xml)
    requires SetAt(root, path, true, v).1 && IsClean(path)
    ensures GetElement(Some(SetAt(root, path, true, v).0), path) == Some(v)
    ensures !v.Many? ==> Get(SetAt(root, path, true, v).0, path, None) == Some([v])
  {
    SetWritesTarget(root, path, true, v);
    CleanPathsWriteWhereTheyRead(path);
    GetElementWalksTags(Some(SetAt(root, path, true, v).0), path);
  }

  /** Every successful overwrite of `path` is read back at `path`, in every document. */
  ghost predicate ReadsBack(path: string) {
    forall root, v :: SetAt(root, path, true, v).1 ==>
      GetElement(Some(SetAt(root, path, true, v).0), path) == Some(v)
  }

  function Nest(tags: seq<string>, node: Xml): Xml
    decreases |tags|
  {
    if tags == [] then node else Elem([Entry(tags[0], Nest(tags[1..], node))])
  }

  lemma {:induction false} WalkNest(tags: seq<string>, node: Xml)
    ensures Walk(Some(Nest(tags, node)), tags) == Some(node)
    decreases |tags|
  {
    if tags != [] {
      WalkNest(tags[1..], node);
    }
  }

  /** Below a document whose parent of `path` holds `node`, `set` changes that one element. */
  lemma SetInNest(path: string, node: Xml, v: Xml)
    requires !IsForbidden(path) && node.Elem? && node.entries != []
    ensures SetAt(Nest(ParentTags(path), node), path, true, v).1
    ensures Walk(Some(SetAt(Nest(ParentTags(path), node), path, true, v).0), ParentTags(path))
      == Some(Elem(Put(node.entries, LastTag(path), v)))
  {
    var root := Nest(ParentTags(path), node);
    WalkNest(ParentTags(path), node);
    SettableParent(root, path);
    ParentAfterPut(root, Target(path), v);
  }

  lemma UncleanTags(path: string)
    requires !IsClean(path)
    ensures Tags(path) == ParentTags(path) + if LastTag(path) == "" then [] else ["", LastTag(path)]
  {
    var segs := Split(path);
    if LastTag(path) != "" {
      assert segs == ParentTags(path) + ["", LastTag(path)];
    }
  }

  lemma UncleanPathMisses(path: string)
    requires !IsClean(path) && !IsForbidden(path)
    ensures !ReadsBack(path)
  {
    var above, tag, node, v := ParentTags(path), LastTag(path), Elem([Entry("k", Text(""))]), Text("x");
    var result := SetAt(Nest(above, node), path, true, v).0;
    SetInNest(path, node, v);
    GetElementWalksTags(Some(result), path);
    UncleanTags(path);
    if tag != "" {
      WalkAppend(Some(result), above, ["", tag]);
      LookupPut(node.entries, tag, v, "");
    } else {
      assert above + [] == above;
    }
  }

  /** Main result on `set`: a path reads back what it wrote exactly when it is refused or clean. */
  lemma ReadsBackIffClean(path: string)
    ensures ReadsBack(path) <==> IsForbidden(path) || IsClean(path)
  {
    if IsClean(path) {
      forall root, v | SetAt(root, path, true, v).1
        ensures GetElement(Some(SetAt(root, path, true, v).0), path) == Some(v)
      {
        SetThenGet(root, path, v);
      }
    } else if !IsForbidden(path) {
      UncleanPathMisses(path);
    }
  }

  lemma SetLeavesOthersAlone(root: Xml, path: string, overwrite: bool, v: Xml, other: string)
    requires Diverge(Target(path), Tags(other))
    ensures GetElement(Some(SetAt(root, path, overwrite, v).0), other) == GetElement(Some(root), other)
  {
    GetElementWalksTags(Some(root), other);
    GetElementWalksTags(Some(SetAt(root, path, overwrite, v).0), other);
    if IsSettable(root, path) {
      WalkElsewhere(root, Target(path), Some(NewValue(Walk(Some(root), Target(path)), overwrite, v)), Tags(other));
    }
  }

  // ---- Appending -------------------------------------------------------------------------------

  function Appended(root: Xml, path: string, vs: seq<Xml>): Xml {
    if vs == [] then root else SetAt(Appended(root, path, vs[..|vs| - 1]), path, false, vs[|vs| - 1]).0
  }

  lemma {:induction false} PutIsNotEmpty(es: seq<Entry>, tag: string, v: Xml)
    ensures Put(es, tag, v) != []
  {
  }

  lemma StillSettable(root: Xml, path: string, overwrite: bool, v: Xml)
    requires IsSettable(root, path)
    ensures IsSettable(SetAt(root, path, overwrite, v).0, path)
  {
    SettableParent(root, path);
    var written := NewValue(Walk(Some(root), Target(path)), overwrite, v);
    ParentAfterPut(root, Target(path), written);
    PutIsNotEmpty(Entries(Walk(Some(root), ParentTags(path)).value), LastTag(path), written);
  }

  lemma AppendOne(root: Xml, path: string, v: Xml)
    requires IsSettable(root, path) && IsClean(path) && !v.Many?
    ensures IsSettable(SetAt(root, path, false, v).0, path)
    ensures ElementsOf(GetElement(Some(SetAt(root, path, false, v).0), path))
      == ElementsOf(GetElement(Some(root), path)) + [v]
  {
    StillSettable(root, path, false, v);
    SetWritesTarget(root, path, false, v);
    CleanPathsWriteWhereTheyRead(path);
    GetElementWalksTags(Some(root), path);
    GetElementWalksTags(Some(SetAt(root, path, false, v).0), path);
  }

  /** Main result on appending: n appends leave the old elements followed by the n new ones, in order. */
  lemma {:induction false} AppendsAccumulate(root: Xml, path: string, vs: seq<Xml>)
    requires IsSettable(root, path) && IsClean(path)
    requires forall i :: 0 <= i < |vs| ==> !vs[i].Many?
    ensures IsSettable(Appended(root, path, vs), path)
    ensures ElementsOf(GetElement(Some(Appended(root, path, vs)), path)) ==
      ElementsOf(GetElement(Some(root), path)) + vs
    decreases |vs|
  {
    if vs != [] {
      var init, last := vs[..|vs| - 1], vs[|vs| - 1];
      AppendsAccumulate(root, path, init);
      AppendOne(Appended(root, path, init), path, last);
      JoinLast(ElementsOf(GetElement(Some(root), path)), init, last, vs);
    }
  }

  lemma JoinLast<T>(front: seq<T>, init: seq<T>, last: T, all: seq<T>)
    requires all == init + [last]
    ensures front + init + [last] == front + all
  {
  }

  lemma {:induction false} AppendsLeaveOthersAlone(root: Xml, path: string, vs: seq<Xml>, other: string)
    requires Diverge(Target(path), Tags(other))
    ensures GetElement(Some(Appended(root, path, vs)), other) == GetElement(Some(root), other)
    decreases |vs|
  {
    if vs != [] {
      AppendsLeaveOthersAlone(root, path, vs[..|vs| - 1], other);
      SetLeavesOthersAlone(Appended(root, path, vs[..|vs| - 1]), path, false, vs[|vs| - 1], other);
    }
  }

  // ---- Deleting --------------------------------------------------------------------------------

  lemma {:induction false} DeletableParent(root: Xml, tags: seq<string>)
    requires tags != [] && Walk(Some(root), tags).Some?
    ensures Walk(Some(root), tags[..|tags| - 1]).Some? && !Walk(Some(root), tags[..|tags| - 1]).value.Text?
    decreases |tags|
  {
    if |tags| > 1 {
      assert tags[..|tags| - 1][1..] == tags[1..][..|tags| - 2];
      DeletableParent(Lookup(Entries(root), tags[0]).value, tags[1..]);
    }
  }

  /** What stays of the elements at a path after a deletion that reports success. */
  function Kept(found: seq<Xml>, condition: Option<Condition>): seq<Xml> {
    if condition.None? then [] else NotMatching(found, condition.value)
  }

  lemma OneElementKept(x: Xml, condition: Condition)
    ensures Matching([x], condition) != [] ==> NotMatching([x], condition) == []
  {
    assert Matching([x][1..], condition) == [] && NotMatching([x][1..], condition) == [];
  }

  lemma TagsOfNonemptyPath(path: string)
    ensures Tags(path) == [] <==> path == ""
  {
    if path == "" {
      assert Split(path) == [path];
    } else {
      assert Split(path)[0] == FirstTag(path) || Split(path) == [path];
    }
  }

  /**
   Main result on `delete`: it succeeds exactly when something matches and the path is allowed; then exactly the
   elements that do not match stay, in order, and the key goes when none does.
   */
  lemma DeleteKeepsTheRest(root: Xml, path: string, condition: Option<Condition>)
    requires path != ""
    ensures Deleted(root, path, condition).1
      <==> !IsForbidden(path) && Get(root, path, condition).Some?
    ensures Deleted(root, path, condition).1 ==>
      var after := GetElement(Some(Deleted(root, path, condition).0), path);
      && ElementsOf(after) == Kept(ElementsOf(GetElement(Some(root), path)), condition)
      && (ElementsOf(after) == [] ==> after.None?)
  {
    TagsOfNonemptyPath(path);
    var (result, ok) := Deleted(root, path, condition);
    GetElementWalksTags(Some(root), path);
    GetElementWalksTags(Some(result), path);
    if ok {
      DeletableParent(root, Tags(path));
      if condition.Some? {
        OneElementKept(GetElement(Some(root), path).value, condition.value);
      }
      var target := GetElement(Some(root), path);
      var kept := if condition.Some? && target.value.Many? then NotMatching(target.value.items, condition.value)
        else [];
      WalkRewritten(root, Tags(path), if kept == [] then None else Some(Many(kept, [])));
    }
  }

  /** The one success without effect: the root itself cannot be deleted. */
  lemma DeleteRoot(root: Xml, condition: Option<Condition>)
    ensures Deleted(root, "", condition).0 == root
    ensures Deleted(root, "", condition).1 <==> Get(root, "", condition).Some?
  {
    TagsOfNonemptyPath("");
    assert Split("") == [""];
  }

  lemma DeleteLeavesOthersAlone(root: Xml, path: string, condition: Option<Condition>, other: string)
    requires Diverge(Tags(path), Tags(other))
    ensures GetElement(Some(Deleted(root, path, condition).0), other) == GetElement(Some(root), other)
  {
    var result := Deleted(root, path, condition).0;
    GetElementWalksTags(Some(root), other);
    GetElementWalksTags(Some(result), other);
    var target := GetElement(Some(root), path);
    if result != root {
      var kept := if condition.Some? && target.value.Many? then NotMatching(target.value.items, condition.value)
        else [];
      WalkElsewhere(root, Tags(path), if kept == [] then None else Some(Many(kept, [])), Tags(other));
    }
  }

  // ---- Refused paths ---------------------------------------------------------------------------

  /** A path is refused, and nothing written or deleted, exactly when one of its segments is one of three names. */
  lemma RefusedPaths(root: Xml, path: string, overwrite: bool, v: Xml, condition: Option<Condition>)
    ensures IsForbidden(path) <==>
      "__proto__" in Split(path) || "constructor" in Split(path) || "prototype" in Split(path)
    ensures "__proto__" in Split(path) || "constructor" in Split(path) || "prototype" in Split(path) ==>
      SetAt(root, path, overwrite, v) == (root, false) && Deleted(root, path, condition) == (root, false)
  {
    if IsForbidden(path) {
      var i :| 0 <= i < |Split(path)| && Split(path)[i] in FORBIDDEN;
    }
  }

  lemma MultisetCons<T>(head: seq<T>, rest: seq<T>)
    ensures multiset(head + rest) == multiset(head) + multiset(rest)
  {
  }

  lemma {:induction false} MatchingCounts(items: seq<Xml>, condition: Condition)
    ensures multiset(Matching(items, condition)) + multiset(NotMatching(items, condition)) == multiset(items)
  {
    if items != [] {
      var one := if MatchesSubset(items[0], condition) then [items[0]] else [];
      var other := if MatchesSubset(items[0], condition) then [] else [items[0]];
      MatchingCounts(items[1..], condition);
      assert items == [items[0]] + items[1..];
      MultisetCons(one, Matching(items[1..], condition));
      MultisetCons(other, NotMatching(items[1..], condition));
      MultisetCons([items[0]], items[1..]);
    }
  }

  lemma {:induction false} SelectedIffMatching(items: seq<Xml>, condition: Condition, x: Xml)
    ensures x in Matching(items, condition) <==> x in items && MatchesSubset(x, condition)
  {
    if items != [] {
      SelectedIffMatching(items[1..], condition, x);
    }
  }

  /** A condition selects the elements that match it; with the others they are all, as often as each occurs. */
  lemma MatchingSplits(items: seq<Xml>, condition: Condition, x: Xml)
    ensures x in Matching(items, condition) <==> x in items && MatchesSubset(x, condition)
    ensures multiset(Matching(items, condition)) + multiset(NotMatching(items, condition)) == multiset(items)
  {
    SelectedIffMatching(items, condition, x);
    MatchingCounts(items, condition);
  }
}
