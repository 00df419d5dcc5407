/**
 Secret redaction of an arbitrary object graph (packages/server/src/audit/redact.ts).

 The graph is the Dafny heap itself: objects may be shared and cyclic. `Walk` copies it depth first
 and memoises finished and unfinished copies in `Seen`, as the source's WeakMap does.
 */
module Redaction {
  import opened Options
  import opened Decimal
  import opened SensitiveKeys

  const REDACTED := "[REDACTED]"

  // ---- Values and objects -----------------------------------------------------------------

  /** What `walk` distinguishes: binary views, arrays, pass-through leaves (Date, Map, Set), the rest. */
  datatype Shape = Binary(byteLength: int) | List | Leaf | Record

  /** Text is a string; Scalar is any other non-object value (null, undefined, numbers, functions). */
  datatype Value = Text(text: string) | Scalar(id: int) | Ref(obj: Obj)

  datatype Field = Field(key: string, value: Value)

  class Obj {
    const shape: Shape
    var items: seq<Value>   // array elements
    var fields: seq<Field>  // own enumerable properties, in Object.entries order

    constructor (shape: Shape)
      ensures this.shape == shape && items == [] && fields == []
    {
      this.shape := shape;
      items, fields := [], [];
    }
  }

  class Seen {
    var copies: map<Obj, Obj>

    constructor ()
      ensures copies == map[]
    {
      copies := map[];
    }
  }

  function Stub(byteLength: int): Value {
    if byteLength < 0 then Text("[REDACTED:Buffer]") else Text("[REDACTED:Buffer/" + Numeral(byteLength) + "]")
  }

  /** Assigning to `__proto__` sets the prototype and creates no own property. */
  predicate IsOwnable(key: string) {
    key != "__proto__"
  }

  function Ownable(fields: seq<Field>): seq<Field> {
    if fields == [] then []
    else
      var rest := Ownable(fields[..|fields| - 1]);
      if IsOwnable(fields[|fields| - 1].key) then rest + [fields[|fields| - 1]] else rest
  }

  // ---- Specification ----------------------------------------------------------------------

  /** `r` is what `v` becomes once the memo table holds `copies`. */
  ghost predicate IsImage(v: Value, r: Value, copies: map<Obj, Obj>) {
    if !v.Ref? then r == v
    else match v.obj.shape
      case Binary(n) => r == Stub(n)
      case Leaf => r == v
      case _ => v.obj in copies && r == Ref(copies[v.obj])
  }

  ghost predicate IsFieldImage(f: Field, r: Field, copies: map<Obj, Obj>) {
    r.key == f.key &&
    if IsSensitiveKey(f.key) then r.value == Text(REDACTED) else IsImage(f.value, r.value, copies)
  }

  ghost predicate ItemsCopied(items: seq<Value>, out: seq<Value>, copies: map<Obj, Obj>) {
    |out| == |items| && forall i :: 0 <= i < |items| ==> IsImage(items[i], out[i], copies)
  }

  ghost predicate FieldsCopied(fields: seq<Field>, out: seq<Field>, copies: map<Obj, Obj>) {
    |out| == |fields| && forall i :: 0 <= i < |fields| ==> IsFieldImage(fields[i], out[i], copies)
  }

  /** The copy of `o` is finished: every child of `o` is represented by its image. */
  ghost predicate Copied(o: Obj, copies: map<Obj, Obj>)
    requires o in copies
    reads o, copies[o]
  {
    var c := copies[o];
    c.shape == o.shape &&
    (o.shape == List ==> ItemsCopied(o.items, c.items, copies) && c.fields == []) &&
    (o.shape == Record ==> FieldsCopied(Ownable(o.fields), c.fields, copies) && c.items == [])
  }

  ghost predicate InGraph(v: Value, graph: set<Obj>) {
    v.Ref? ==> v.obj in graph
  }

  ghost predicate Closed(graph: set<Obj>)
    reads graph
  {
    forall o :: o in graph ==>
      (forall v :: v in o.items ==> InGraph(v, graph)) && (forall f :: f in o.fields ==> InGraph(f.value, graph))
  }

  /** Only arrays and plain objects are memoised, each with a copy of its own outside the graph. */
  ghost predicate TableOk(copies: map<Obj, Obj>, graph: set<Obj>) {
    copies.Keys <= graph &&
    (forall o :: o in copies ==>
      copies[o] !in graph && (o.shape == List || o.shape == Record) && copies[o].shape == o.shape) &&
    (forall o, p :: o in copies && p in copies && copies[o] == copies[p] ==> o == p)
  }

  ghost predicate Extends(newer: map<Obj, Obj>, older: map<Obj, Obj>) {
    forall o :: o in older ==> o in newer && newer[o] == older[o]
  }

  /** Every entry added to the memo table since `base` is a finished copy. */
  ghost predicate Grown(copies: map<Obj, Obj>, base: map<Obj, Obj>, graph: set<Obj>)
    reads set o | o in copies && o !in base, set o | o in copies && o !in base :: copies[o]
  {
    TableOk(copies, graph) && Extends(copies, base) && forall o :: o in copies && o !in base ==> Copied(o, copies)
  }

  lemma ImagesOutliveGrowth(o: Obj, older: map<Obj, Obj>, newer: map<Obj, Obj>)
    requires o in older && Copied(o, older) && Extends(newer, older)
    ensures Copied(o, newer)
  {
    forall v, r | IsImage(v, r, older) ensures IsImage(v, r, newer) {
    }
  }

  lemma GrowthComposes(base: map<Obj, Obj>, older: map<Obj, Obj>, newer: map<Obj, Obj>, graph: set<Obj>)
    requires Extends(older, base) && Grown(newer, older, graph)
    requires forall o :: o in older && o !in base ==> Copied(o, older)
    ensures Grown(newer, base, graph)
  {
    forall o | o in older && o !in base ensures Copied(o, newer) {
      ImagesOutliveGrowth(o, older, newer);
    }
  }

  lemma OneMoreItem(items: seq<Value>, i: nat, out: seq<Value>, r: Value, older: map<Obj, Obj>, newer: map<Obj, Obj>)
    requires i < |items| && ItemsCopied(items[..i], out, older) && Extends(newer, older)
    requires IsImage(items[i], r, newer)
    ensures ItemsCopied(items[..i + 1], out + [r], newer)
  {
    forall j | 0 <= j < i ensures IsImage(items[j], out[j], newer) {
      assert items[..i][j] == items[j];
    }
  }

  lemma OneMoreField(fields: seq<Field>, i: nat, out: seq<Field>, r: Field, older: map<Obj, Obj>, newer: map<Obj, Obj>)
    requires i < |fields| && FieldsCopied(Ownable(fields[..i]), out, older) && Extends(newer, older)
    requires IsFieldImage(fields[i], r, newer)
    ensures FieldsCopied(Ownable(fields[..i + 1]), if IsOwnable(fields[i].key) then out + [r] else out, newer)
  {
    assert fields[..i + 1][..i] == fields[..i];
  }

  // ---- The copy ---------------------------------------------------------------------------

  method Walk(value: Value, seen: Seen, ghost graph: set<Obj>) returns (result: Value)
    requires Closed(graph) && InGraph(value, graph) && TableOk(seen.copies, graph)
    modifies seen
    ensures Grown(seen.copies, old(seen.copies), graph)
    ensures forall o :: o in seen.copies && o !in old(seen.copies) ==> fresh(seen.copies[o])
    ensures IsImage(value, result, seen.copies)
    decreases graph - seen.copies.Keys, 1
  {
    if !value.Ref? {
      return value;
    }
    var o := value.obj;
    if o in seen.copies {
      return Ref(seen.copies[o]);
    }
    match o.shape {
      case Binary(n) =>
        return Stub(n);
      case List =>
        var out := CopyArray(o, seen, graph);
        return Ref(out);
      case Leaf =>
        return value;
      case Record =>
        var out := CopyObject(o, seen, graph);
        return Ref(out);
    }
  }

  /** An array is memoised before its elements are walked. */
  method CopyArray(o: Obj, seen: Seen, ghost graph: set<Obj>) returns (out: Obj)
    requires Closed(graph) && o in graph && o.shape == List && o !in seen.copies && TableOk(seen.copies, graph)
    modifies seen
    ensures Grown(seen.copies, old(seen.copies), graph)
    ensures forall p :: p in seen.copies && p !in old(seen.copies) ==> fresh(seen.copies[p])
    ensures o in seen.copies && seen.copies[o] == out
    decreases graph - seen.copies.Keys, 0
  {
    out := new Obj(List);
    seen.copies := seen.copies[o := out];
    assert o in old(graph - seen.copies.Keys) && o !in graph - seen.copies.Keys;
    CopyItems(o, out, seen, graph);
  }

  /** So is an object before its properties are. */
  method CopyObject(o: Obj, seen: Seen, ghost graph: set<Obj>) returns (out: Obj)
    requires Closed(graph) && o in graph && o.shape == Record && o !in seen.copies && TableOk(seen.copies, graph)
    modifies seen
    ensures Grown(seen.copies, old(seen.copies), graph)
    ensures forall p :: p in seen.copies && p !in old(seen.copies) ==> fresh(seen.copies[p])
    ensures o in seen.copies && seen.copies[o] == out
    decreases graph - seen.copies.Keys, 0
  {
    out := new Obj(Record);
    seen.copies := seen.copies[o := out];
    assert o in old(graph - seen.copies.Keys) && o !in graph - seen.copies.Keys;
    CopyFields(o, out, seen, graph);
  }

  method CopyItems(o: Obj, out: Obj, seen: Seen, ghost graph: set<Obj>)
    requires Closed(graph) && o in graph && o.shape == List && TableOk(seen.copies, graph)
    requires o in seen.copies && seen.copies[o] == out && out.items == [] && out.fields == []
    modifies seen, out
    ensures Grown(seen.copies, old(seen.copies), graph) && Copied(o, seen.copies)
    ensures forall p :: p in seen.copies && p !in old(seen.copies) ==> fresh(seen.copies[p])
    decreases graph - seen.copies.Keys, 3
  {
    var i := 0;
    ghost var base := seen.copies;
    while i < |o.items|
      invariant 0 <= i <= |o.items| && o.items == old(o.items) && Closed(graph)
      invariant Grown(seen.copies, base, graph)
      invariant forall p :: p in seen.copies && p !in base ==> fresh(seen.copies[p])
      invariant ItemsCopied(o.items[..i], out.items, seen.copies) && out.fields == []
    {
      assert graph - seen.copies.Keys <= graph - old(seen.copies.Keys);
      PushItem(o, i, out, seen, base, graph);
      i := i + 1;
    }
    assert o.items[..i] == o.items;
  }

  /** One iteration of the array loop: `out.push(walk(item, seen))`. */
  method PushItem(o: Obj, i: nat, out: Obj, seen: Seen, ghost base: map<Obj, Obj>, ghost graph: set<Obj>)
    requires Closed(graph) && o in graph && i < |o.items| && out !in graph
    requires forall p :: p in seen.copies && p !in base ==> seen.copies[p] != out
    requires Grown(seen.copies, base, graph) && ItemsCopied(o.items[..i], out.items, seen.copies)
    modifies seen, out
    ensures Grown(seen.copies, base, graph) && Extends(seen.copies, old(seen.copies))
    ensures forall p :: p in seen.copies && p !in old(seen.copies) ==> fresh(seen.copies[p])
    ensures ItemsCopied(o.items[..i + 1], out.items, seen.copies) && out.fields == old(out.fields)
    decreases graph - seen.copies.Keys, 2
  {
    ghost var before := seen.copies;
    var r := Walk(o.items[i], seen, graph);
    GrowthComposes(base, before, seen.copies, graph);
    OneMoreItem(o.items, i, out.items, r, before, seen.copies);
    out.items := out.items + [r];
  }

  method CopyFields(o: Obj, out: Obj, seen: Seen, ghost graph: set<Obj>)
    requires Closed(graph) && o in graph && o.shape == Record && TableOk(seen.copies, graph)
    requires o in seen.copies && seen.copies[o] == out && out.items == [] && out.fields == []
    modifies seen, out
    ensures Grown(seen.copies, old(seen.copies), graph) && Copied(o, seen.copies)
    ensures forall p :: p in seen.copies && p !in old(seen.copies) ==> fresh(seen.copies[p])
    decreases graph - seen.copies.Keys, 4
  {
    var i := 0;
    ghost var base := seen.copies;
    while i < |o.fields|
      invariant 0 <= i <= |o.fields| && o.fields == old(o.fields) && Closed(graph)
      invariant Grown(seen.copies, base, graph)
      invariant forall p :: p in seen.copies && p !in base ==> fresh(seen.copies[p])
      invariant FieldsCopied(Ownable(o.fields[..i]), out.fields, seen.copies) && out.items == []
    {
      assert graph - seen.copies.Keys <= graph - old(seen.copies.Keys);
      SetField(o, i, out, seen, base, graph);
      i := i + 1;
    }
    assert o.fields[..i] == o.fields;
  }

  /** One iteration of the object loop: redact under a sensitive key, otherwise walk the child. */
  method SetField(o: Obj, i: nat, out: Obj, seen: Seen, ghost base: map<Obj, Obj>, ghost graph: set<Obj>)
    requires Closed(graph) && o in graph && i < |o.fields| && out !in graph
    requires forall p :: p in seen.copies && p !in base ==> seen.copies[p] != out
    requires Grown(seen.copies, base, graph) && FieldsCopied(Ownable(o.fields[..i]), out.fields, seen.copies)
    modifies seen, out
    ensures Grown(seen.copies, base, graph) && Extends(seen.copies, old(seen.copies))
    ensures forall p :: p in seen.copies && p !in old(seen.copies) ==> fresh(seen.copies[p])
    ensures FieldsCopied(Ownable(o.fields[..i + 1]), out.fields, seen.copies) && out.items == old(out.items)
    decreases graph - seen.copies.Keys, 3
  {
    var f := o.fields[i];
    ghost var before := seen.copies;
    var r := FieldCopy(f, seen, graph);
    GrowthComposes(base, before, seen.copies, graph);
    OneMoreField(o.fields, i, out.fields, r, before, seen.copies);
    if IsOwnable(f.key) {
      out.fields := out.fields + [r];
    }
  }

  method FieldCopy(f: Field, seen: Seen, ghost graph: set<Obj>) returns (r: Field)
    requires Closed(graph) && InGraph(f.value, graph) && TableOk(seen.copies, graph)
    modifies seen
    ensures Grown(seen.copies, old(seen.copies), graph)
    ensures forall o :: o in seen.copies && o !in old(seen.copies) ==> fresh(seen.copies[o])
    ensures IsFieldImage(f, r, seen.copies)
    decreases graph - seen.copies.Keys, 2
  {
    if IsSensitiveKey(f.key) {
      return Field(f.key, Text(REDACTED));
    }
    var v := Walk(f.value, seen, graph);
    return Field(f.key, v);
  }

  /** What one call of `redactSecrets` establishes; `copies` is the memo table it built. */
  ghost predicate Redacted(input: Value, result: Value, copies: map<Obj, Obj>)
    reads copies.Keys, copies.Values
  {
    IsImage(input, result, copies) && TableOk(copies, copies.Keys) &&
    forall o :: o in copies ==> Copied(o, copies)
  }

  /** Terminates on every graph, writes no existing object, and every container in the result is new. */
  method RedactSecrets(input: Value) returns (result: Value, ghost copies: map<Obj, Obj>)
    ensures Redacted(input, result, copies)
    ensures forall o :: o in copies ==> fresh(copies[o])
  {
    ghost var graph := set o: Obj {:trigger o.shape} | allocated(o);
    var seen := new Seen();
    result := Walk(input, seen, graph);
    copies := seen.copies;
  }

  // ---- Paths through the result -----------------------------------------------------------

  datatype Step = Key(key: string) | Index(index: nat)

  function Lookup(fields: seq<Field>, key: string): Option<Value> {
    if fields == [] then None
    else if fields[|fields| - 1].key == key then Some(fields[|fields| - 1].value)
    else Lookup(fields[..|fields| - 1], key)
  }

  /** The value one step below `v`; leaves and binary views have nothing below them. */
  ghost function Child(v: Value, s: Step): Option<Value>
    reads if v.Ref? then {v.obj} else {}
  {
    if !v.Ref? then None
    else match s
      case Index(i) => if v.obj.shape == List && i < |v.obj.items| then Some(v.obj.items[i]) else None
      case Key(k) => if v.obj.shape == Record then Lookup(v.obj.fields, k) else None
  }

  ghost function Follow(v: Value, path: seq<Step>): Option<Value>
    reads *
    decreases |path|
  {
    if path == [] then Some(v)
    else match Child(v, path[0])
      case None => None
      case Some(c) => Follow(c, path[1..])
  }

  predicate IsSensitiveStep(s: Step) {
    s.Key? && IsSensitiveKey(s.key)
  }

  predicate IsVisibleStep(s: Step) {
    s.Key? ==> !IsSensitiveKey(s.key) && IsOwnable(s.key)
  }

  predicate IsVisible(path: seq<Step>) {
    forall i :: 0 <= i < |path| ==> IsVisibleStep(path[i])
  }

  ghost predicate IsOptionImage(v: Option<Value>, r: Option<Value>, copies: map<Obj, Obj>) {
    v.Some? == r.Some? && (v.Some? ==> IsImage(v.value, r.value, copies))
  }

  lemma {:induction false} LookupInCopy(fields: seq<Field>, out: seq<Field>, copies: map<Obj, Obj>, key: string)
    requires FieldsCopied(Ownable(fields), out, copies)
    ensures !IsOwnable(key) ==> Lookup(out, key) == None
    ensures IsOwnable(key) && IsSensitiveKey(key) ==>
              Lookup(out, key) == if Lookup(fields, key).Some? then Some(Text(REDACTED)) else None
    ensures IsOwnable(key) && !IsSensitiveKey(key) ==>
              IsOptionImage(Lookup(fields, key), Lookup(out, key), copies)
  {
    if fields != [] {
      var rest := fields[..|fields| - 1];
      if IsOwnable(fields[|fields| - 1].key) {
        assert Ownable(fields)[..|out| - 1] == Ownable(rest);
        LookupInCopy(rest, out[..|out| - 1], copies, key);
      } else {
        LookupInCopy(rest, out, copies, key);
      }
    }
  }

  lemma ChildOfImage(v: Value, r: Value, copies: map<Obj, Obj>, s: Step)
    requires Redacted(v, r, copies)
    ensures IsVisibleStep(s) ==> IsOptionImage(Child(v, s), Child(r, s), copies)
    ensures IsSensitiveStep(s) && IsOwnable(s.key) ==>
              Child(r, s) == if Child(v, s).Some? then Some(Text(REDACTED)) else None
    ensures s == Key("__proto__") ==> Child(r, s) == None
  {
    if v.Ref? && v.obj in copies && v.obj.shape == Record && s.Key? {
      assert Copied(v.obj, copies);
      LookupInCopy(v.obj.fields, copies[v.obj].fields, copies, s.key);
    }
  }

  /** Along any path without sensitive keys the result mirrors the input: same shape, image values. */
  lemma {:induction false} VisiblePathMirrored(v: Value, r: Value, copies: map<Obj, Obj>, path: seq<Step>)
    requires Redacted(v, r, copies) && IsVisible(path)
    ensures IsOptionImage(Follow(v, path), Follow(r, path), copies)
    decreases |path|
  {
    if path != [] {
      ChildOfImage(v, r, copies, path[0]);
      assert IsVisibleStep(path[0]);
      if Child(v, path[0]).Some? {
        VisiblePathMirrored(Child(v, path[0]).value, Child(r, path[0]).value, copies, path[1..]);
      }
    }
  }

  /** Whatever a path of the result reaches, it never reaches past a sensitive key. */
  lemma {:induction false} ReachedIsVisibleOrRedacted(v: Value, r: Value, copies: map<Obj, Obj>, path: seq<Step>)
    requires Redacted(v, r, copies) && Follow(r, path).Some?
    ensures IsVisible(path) ||
            (IsVisible(path[..|path| - 1]) && IsSensitiveStep(path[|path| - 1]) &&
              Follow(r, path) == Some(Text(REDACTED)))
    decreases |path|
  {
    if path != [] {
      var s := path[0];
      ChildOfImage(v, r, copies, s);
      if IsVisibleStep(s) {
        ReachedIsVisibleOrRedacted(Child(v, s).value, Child(r, s).value, copies, path[1..]);
        if !IsVisible(path[1..]) {
          assert path[..|path| - 1] == [s] + path[1..][..|path[1..]| - 1];
        }
      } else {
        assert Child(r, s) == Some(Text(REDACTED));
        assert path[1..] == [];
      }
    }
  }

  /** Under a sensitive key, at any depth, the result holds exactly the redaction marker. */
  lemma SensitiveKeyRedacted(input: Value, result: Value, copies: map<Obj, Obj>, path: seq<Step>, key: string)
    requires Redacted(input, result, copies) && IsSensitiveKey(key)
    ensures var below := path + [Key(key)];
            Follow(result, below) in {None, Some(Text(REDACTED))} &&
            (IsVisible(path) && Follow(input, below).Some? ==> Follow(result, below) == Some(Text(REDACTED)))
  {
    var below := path + [Key(key)];
    if Follow(result, below).Some? {
      ReachedIsVisibleOrRedacted(input, result, copies, below);
      assert below[|path|] == Key(key);
    }
    if IsVisible(path) && Follow(input, below).Some? {
      VisiblePathMirrored(input, result, copies, path);
      FollowSplit(input, path, Key(key));
      FollowSplit(result, path, Key(key));
      ProtoIsNotSensitive();
      ChildOfImage(Follow(input, path).value, Follow(result, path).value, copies, Key(key));
    }
  }

  lemma {:induction false} FollowSplit(v: Value, path: seq<Step>, s: Step)
    ensures Follow(v, path + [s]) ==
            match Follow(v, path) case None => None case Some(c) => Child(c, s)
    decreases |path|
  {
    if path == [] {
      assert (path + [s])[1..] == [];
    } else {
      assert (path + [s])[1..] == path[1..] + [s];
      if Child(v, path[0]).Some? {
        FollowSplit(Child(v, path[0]).value, path[1..], s);
      }
    }
  }

  /** Under a key that spells a listed word or holds one of three, at any depth, the result holds the marker. */
  lemma SecretsRedacted(input: Value, result: Value, copies: map<Obj, Obj>, path: seq<Step>, key: string)
    requires Redacted(input, result, copies) && IsVisible(path) && Follow(input, path + [Key(key)]).Some?
    requires (exists word :: IsListed(word) && Spells(key, word)) ||
      HoldsWord(key, "secret") || HoldsWord(key, "token") || HoldsWord(key, "password")
    ensures Follow(result, path + [Key(key)]) == Some(Text("[REDACTED]"))
  {
    SensitiveIffSpelled(key);
    SensitiveKeyRedacted(input, result, copies, path, key);
  }

  /** A binary view, at any depth, is replaced by its length. */
  lemma BinaryIsStubbed(input: Value, result: Value, copies: map<Obj, Obj>, path: seq<Step>, n: nat)
    requires Redacted(input, result, copies) && IsVisible(path)
    requires match Follow(input, path) case Some(Ref(o)) => o.shape == Binary(n) case _ => false
    ensures Follow(result, path) == Some(Text("[REDACTED:Buffer/" + Numeral(n) + "]"))
  {
    VisiblePathMirrored(input, result, copies, path);
  }

  /** No binary view is reachable in the result; the containers are the new copies. */
  lemma NoBinaryReachable(input: Value, result: Value, copies: map<Obj, Obj>, path: seq<Step>)
    requires Redacted(input, result, copies)
    ensures match Follow(result, path)
            case Some(Ref(o)) => o.shape == Leaf || o in copies.Values
            case _ => true
  {
    if Follow(result, path).Some? {
      ReachedIsVisibleOrRedacted(input, result, copies, path);
      if IsVisible(path) {
        VisiblePathMirrored(input, result, copies, path);
      }
    }
  }

  ghost predicate IsContainer(v: Option<Value>) {
    v.Some? && v.value.Ref? && v.value.obj.shape in {List, Record}
  }

  /** Two paths meet in one container of the result exactly when they meet in the input: cycles included. */
  lemma SharingPreserved(input: Value, result: Value, copies: map<Obj, Obj>, p: seq<Step>, q: seq<Step>)
    requires Redacted(input, result, copies) && IsVisible(p) && IsVisible(q)
    requires IsContainer(Follow(input, p)) && IsContainer(Follow(input, q))
    ensures IsContainer(Follow(result, p)) && IsContainer(Follow(result, q))
    ensures Follow(input, p) == Follow(input, q) <==> Follow(result, p) == Follow(result, q)
  {
    VisiblePathMirrored(input, result, copies, p);
    VisiblePathMirrored(input, result, copies, q);
  }

  function Keys(fields: seq<Field>): seq<string> {
    seq(|fields|, i requires 0 <= i < |fields| => fields[i].key)
  }

  /** A copied object has the keys of its original exactly when no own key is `__proto__`. */
  lemma KeysKept(o: Obj, copies: map<Obj, Obj>)
    requires o in copies && Copied(o, copies) && o.shape == Record
    ensures Keys(copies[o].fields) == Keys(o.fields) <==> "__proto__" !in Keys(o.fields)
  {
    OwnableAll(o.fields);
    assert Keys(copies[o].fields) == Keys(Ownable(o.fields));
  }

  lemma {:induction false} OwnableAll(fields: seq<Field>)
    ensures |Ownable(fields)| <= |fields|
    ensures "__proto__" !in Keys(fields) ==> Ownable(fields) == fields
    ensures "__proto__" in Keys(fields) ==> |Ownable(fields)| < |fields|
  {
    if fields != [] {
      var rest := fields[..|fields| - 1];
      OwnableAll(rest);
      assert Keys(fields) == Keys(rest) + [fields[|fields| - 1].key];
      assert fields == rest + [fields[|fields| - 1]];
    }
  }
}
