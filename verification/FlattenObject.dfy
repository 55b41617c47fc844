/**
 `flattenObject`: a nested object becomes one level of dotted keys. An array is an object whose keys are its
 indexes, which is all that `typeof` and `Object.keys` see of it; `fields` are the own properties in order.
 */
module FlattenObject {
  import opened Wrappers

  /** `Scalar` is any other value, null included. */
  datatype Value = Scalar(json: string) | Undefined | Date(text: string) | Object(fields: seq<Field>)

  datatype Field = Field(key: string, value: Value)

  type Flat = map<string, Value>

  // ---------------------------------------------------------------- the function

  function Dotted(key1: string, key2: string): string { key1 + "." + key2 }

  lemma DottedTail(key1: string, key2: string)
    ensures Dotted(key1, key2)[|key1| + 1..] == key2
  {
  }

  /** The keys of `flat` below `key1`; undefined values are skipped. */
  function Below(key1: string, flat: Flat): Flat {
    var keys := set key2 | key2 in flat && flat[key2] != Undefined :: Dotted(key1, key2);
    map key | key in keys && |key| > |key1| && key[|key1| + 1..] in flat :: flat[key[|key1| + 1..]]
  }

  function Piece(field: Field): Flat {
    match field.value
    case Object(fields) => Below(field.key, Flatten(fields))
    case Date(text) => map[field.key := Scalar(text)]
    case _ => map[field.key := field.value]
  }

  /** Later fields overwrite earlier ones. */
  function Flatten(fields: seq<Field>): Flat {
    if fields == [] then map[] else Flatten(fields[..|fields| - 1]) + Piece(fields[|fields| - 1])
  }

  lemma BelowAt(key1: string, flat: Flat, key2: string)
    ensures Dotted(key1, key2) in Below(key1, flat) <==> key2 in flat && flat[key2] != Undefined
    ensures Dotted(key1, key2) in Below(key1, flat) ==> Below(key1, flat)[Dotted(key1, key2)] == flat[key2]
  {
    DottedTail(key1, key2);
    if Dotted(key1, key2) in Below(key1, flat) {
      var k :| k in flat && flat[k] != Undefined && Dotted(key1, k) == Dotted(key1, key2);
      DottedTail(key1, k);
    }
  }

  lemma BelowOnly(key1: string, flat: Flat, key: string)
    requires key in Below(key1, flat)
    ensures exists key2 :: key == Dotted(key1, key2)
  {
    var key2 :| key2 in flat && flat[key2] != Undefined && Dotted(key1, key2) == key;
  }

  lemma FlattenOneMore(fields: seq<Field>, i: nat)
    requires i < |fields|
    ensures Flatten(fields[..i + 1]) == Flatten(fields[..i]) + Piece(fields[i])
  {
    assert fields[..i + 1][..i] == fields[..i];
  }

  lemma AddOne(flat: Flat, key: string, value: Value)
    ensures flat + map[key := value] == flat[key := value]
  {
  }

  method FlattenFields(fields: seq<Field>) returns (returnData: Flat)
    ensures returnData == Flatten(fields)
    decreases fields
  {
    returnData := map[];
    for i := 0 to |fields|
      invariant returnData == Flatten(fields[..i])
    {
      FlattenOneMore(fields, i);
      var key1, value := fields[i].key, fields[i].value;
      match value
      case Object(inner) =>
        var flatObject := FlattenFields(inner);
        returnData := Merge(returnData, key1, flatObject);
      case Date(text) =>
        AddOne(returnData, key1, Scalar(text));
        returnData := returnData[key1 := Scalar(text)];
      case _ =>
        AddOne(returnData, key1, value);
        returnData := returnData[key1 := value];
    }
    assert fields[..|fields|] == fields;
  }

  /** The entries of `flat` whose keys are not in `keys`. */
  function Without(flat: Flat, keys: set<string>): Flat { flat - keys }

  /** The inner loop; the keys of `flatObject` are visited in no particular order. */
  method Merge(start: Flat, key1: string, flatObject: Flat) returns (returnData: Flat)
    ensures returnData == start + Below(key1, flatObject)
  {
    returnData := start;
    var keys := flatObject.Keys;
    MergeNone(start, key1, flatObject);
    while keys != {}
      invariant keys <= flatObject.Keys
      invariant returnData == start + Below(key1, Without(flatObject, keys))
      decreases keys
    {
      var key2 :| key2 in keys;
      MergeOne(start, key1, flatObject, keys, key2);
      keys := keys - {key2};
      if flatObject[key2] != Undefined {
        returnData := returnData[Dotted(key1, key2) := flatObject[key2]];
      }
    }
    assert Without(flatObject, {}) == flatObject;
  }

  lemma MergeNone(start: Flat, key1: string, flat: Flat)
    ensures start + Below(key1, Without(flat, flat.Keys)) == start
  {
    assert Without(flat, flat.Keys) == map[];
    assert Below(key1, map[]) == map[];
  }

  lemma MergeOne(start: Flat, key1: string, flat: Flat, keys: set<string>, key2: string)
    requires keys <= flat.Keys && key2 in keys
    ensures start + Below(key1, Without(flat, keys - {key2})) ==
      var before := start + Below(key1, Without(flat, keys));
      if flat[key2] == Undefined then before else before[Dotted(key1, key2) := flat[key2]]
  {
    assert Without(flat, keys - {key2}) == Without(flat, keys)[key2 := flat[key2]];
    BelowOneMore(key1, Without(flat, keys), key2, flat[key2]);
  }

  lemma BelowOneMore(key1: string, flat: Flat, key2: string, value: Value)
    requires key2 !in flat
    ensures Below(key1, flat[key2 := value]) ==
      if value == Undefined then Below(key1, flat) else Below(key1, flat)[Dotted(key1, key2) := value]
  {
    var a := Below(key1, flat[key2 := value]);
    var b := if value == Undefined then Below(key1, flat) else Below(key1, flat)[Dotted(key1, key2) := value];
    forall key ensures (key in a <==> key in b) && (key in a ==> a[key] == b[key]) {
      if key in a || key in b {
        var k :| key == Dotted(key1, k) by {
          if key in a {
            BelowOnly(key1, flat[key2 := value], key);
          } else if key in Below(key1, flat) {
            BelowOnly(key1, flat, key);
          }
        }
        BelowAt(key1, flat, k);
        BelowAt(key1, flat[key2 := value], k);
        DottedTail(key1, k);
        DottedTail(key1, key2);
      }
    }
  }

  // ---------------------------------------------------------------- trees and dotted paths

  datatype Tree = Leaf(value: Value) | Node(children: map<string, Tree>)

  function ToTree(value: Value): Tree {
    if value.Object? then Node(Children(value.fields)) else Leaf(value)
  }

  function Children(fields: seq<Field>): map<string, Tree> {
    if fields == [] then map[]
    else
      var last := fields[|fields| - 1];
      Children(fields[..|fields| - 1])[last.key := ToTree(last.value)]
  }

  /** Dot-free distinct keys; below the root no empty object, no date and no undefined value. */
  ghost predicate Proper(fields: seq<Field>) {
    && (forall i :: 0 <= i < |fields| ==> '.' !in fields[i].key && ProperValue(fields[i].value))
    && (forall i, j :: 0 <= i < j < |fields| ==> fields[i].key != fields[j].key)
  }

  ghost predicate ProperValue(value: Value) {
    value.Scalar? || (value.Object? && value.fields != [] && Proper(value.fields))
  }

  /** Following `path` down from the root of `tree` ends at a leaf with this value. */
  predicate HasLeaf(tree: Tree, path: seq<string>, value: Value)
    decreases |path|
  {
    if path == [] then tree == Leaf(value)
    else tree.Node? && path[0] in tree.children && HasLeaf(tree.children[path[0]], path[1..], value)
  }

  /** `key.split('.')`. */
  function Split(key: string): (path: seq<string>)
    ensures path != []
  {
    if key == "" then [""]
    else
      var rest := Split(key[1..]);
      if key[0] == '.' then [""] + rest else [[key[0]] + rest[0]] + rest[1..]
  }

  function Join(path: seq<string>): string
    requires path != []
  {
    if |path| == 1 then path[0] else Dotted(path[0], Join(path[1..]))
  }

  lemma {:induction false} SplitDotted(key1: string, key2: string)
    requires '.' !in key1
    ensures Split(Dotted(key1, key2)) == [key1] + Split(key2)
    decreases |key1|
  {
    if key1 == "" {
      assert Dotted(key1, key2)[1..] == key2;
    } else {
      assert Dotted(key1, key2)[1..] == Dotted(key1[1..], key2);
      SplitDotted(key1[1..], key2);
      var rest := [key1[1..]] + Split(key2);
      assert rest[1..] == Split(key2) && [key1[0]] + rest[0] == key1;
    }
  }

  lemma {:induction false} SplitDotFree(key: string)
    requires '.' !in key
    ensures Split(key) == [key]
    decreases |key|
  {
    if key != "" {
      SplitDotFree(key[1..]);
      assert [key[0]] + key[1..] == key && [key[1..]][1..] == [];
    }
  }

  lemma {:induction false} JoinSplit(key: string)
    ensures Join(Split(key)) == key
    decreases |key|
  {
    if key != "" {
      JoinSplit(key[1..]);
      var rest := Split(key[1..]);
      if key[0] == '.' {
        assert ([""] + rest)[1..] == rest;
      } else if |rest| > 1 {
        assert ([[key[0]] + rest[0]] + rest[1..])[1..] == rest[1..];
      }
    }
  }

  // ---------------------------------------------------------------- every leaf under its path

  /** `flat` holds exactly the leaves of `tree`, each under its dotted path. */
  ghost predicate Represents(flat: Flat, tree: Tree) {
    forall key, value :: (key in flat && flat[key] == value) <==> HasLeaf(tree, Split(key), value)
  }

  lemma {:induction false} NoUndefined(fields: seq<Field>)
    requires Proper(fields)
    ensures forall key :: key in Flatten(fields) ==> Flatten(fields)[key].Scalar?
    decreases fields
  {
    if fields != [] {
      var last := fields[|fields| - 1];
      NoUndefined(fields[..|fields| - 1]);
      if last.value.Object? {
        var flat := Flatten(last.value.fields);
        NoUndefined(last.value.fields);
        forall key | key in Below(last.key, flat) ensures Below(last.key, flat)[key].Scalar? {
          BelowOnly(last.key, flat, key);
          var key2 :| key == Dotted(last.key, key2);
          BelowAt(last.key, flat, key2);
        }
      }
    }
  }

  lemma {:induction false} ChildrenKeys(fields: seq<Field>)
    ensures forall key :: key in Children(fields) ==> exists i :: 0 <= i < |fields| && fields[i].key == key
  {
    if fields != [] {
      var front := fields[..|fields| - 1];
      ChildrenKeys(front);
      forall key | key in Children(fields) ensures exists i :: 0 <= i < |fields| && fields[i].key == key {
        if key in Children(front) {
          var i :| 0 <= i < |front| && front[i].key == key;
          assert fields[i].key == key;
        } else {
          assert fields[|fields| - 1].key == key;
        }
      }
    }
  }

  lemma PieceRepresents(field: Field, key: string, value: Value)
    requires '.' !in field.key && ProperValue(field.value)
    requires field.value.Object? ==>
      Represents(Flatten(field.value.fields), ToTree(field.value)) &&
      forall k :: k in Flatten(field.value.fields) ==> Flatten(field.value.fields)[k] != Undefined
    ensures (key in Piece(field) && Piece(field)[key] == value) <==>
      Split(key)[0] == field.key && HasLeaf(ToTree(field.value), Split(key)[1..], value)
  {
    var path := Split(key);
    JoinSplit(key);
    if field.value.Object? {
      var flat := Flatten(field.value.fields);
      if key in Piece(field) {
        BelowOnly(field.key, flat, key);
        var key2 :| key == Dotted(field.key, key2);
        SplitDotted(field.key, key2);
        assert path[1..] == Split(key2);
        BelowAt(field.key, flat, key2);
      }
      if path[0] == field.key && HasLeaf(ToTree(field.value), path[1..], value) {
        assert |path| > 1;
        var key2 := Join(path[1..]);
        assert key == Dotted(field.key, key2);
        SplitDotted(field.key, key2);
        assert path[1..] == Split(key2);
        BelowAt(field.key, flat, key2);
      }
    } else {
      SplitDotFree(field.key);
      if path[0] == field.key && HasLeaf(ToTree(field.value), path[1..], value) {
        assert path[1..] == [] && path == [field.key];
      }
    }
  }

  /** Each leaf is under exactly its dotted path, and nothing else is: no two leaves collide. */
  lemma {:induction false} FlattenRepresents(fields: seq<Field>)
    requires Proper(fields)
    ensures Represents(Flatten(fields), Node(Children(fields)))
    decreases fields
  {
    if fields != [] {
      var front, last := fields[..|fields| - 1], fields[|fields| - 1];
      FlattenRepresents(front);
      if last.value.Object? {
        FlattenRepresents(last.value.fields);
        NoUndefined(last.value.fields);
      }
      ChildrenKeys(front);
      assert last.key !in Children(front);
      forall key, value
        ensures (key in Flatten(fields) && Flatten(fields)[key] == value) <==>
          HasLeaf(Node(Children(fields)), Split(key), value)
      {
        OneMoreField(fields, key, value);
      }
    }
  }

  lemma OneMoreField(fields: seq<Field>, key: string, value: Value)
    requires Proper(fields) && fields != []
    requires var front, last := fields[..|fields| - 1], fields[|fields| - 1];
      && last.key !in Children(front) && Represents(Flatten(front), Node(Children(front)))
      && (last.value.Object? ==>
            Represents(Flatten(last.value.fields), ToTree(last.value)) &&
            forall k :: k in Flatten(last.value.fields) ==> Flatten(last.value.fields)[k] != Undefined)
    ensures (key in Flatten(fields) && Flatten(fields)[key] == value) <==>
      HasLeaf(Node(Children(fields)), Split(key), value)
  {
    var front, last := fields[..|fields| - 1], fields[|fields| - 1];
    var path, a, b := Split(key), Flatten(front), Piece(last);
    PieceRepresents(last, key, value);
    if key in b { PieceKeys(last, key); }
    if key in a { assert HasLeaf(Node(Children(front)), path, a[key]); }
    assert (key in a && a[key] == value) <==> HasLeaf(Node(Children(front)), path, value);
    assert Children(fields) == Children(front)[last.key := ToTree(last.value)];
    assert Flatten(fields) == a + b;
  }

  lemma PieceKeys(field: Field, key: string)
    requires '.' !in field.key && ProperValue(field.value) && key in Piece(field)
    ensures Split(key)[0] == field.key
  {
    if field.value.Object? {
      BelowOnly(field.key, Flatten(field.value.fields), key);
      var key2 :| key == Dotted(field.key, key2);
      SplitDotted(field.key, key2);
    } else {
      SplitDotFree(field.key);
    }
  }

  // ---------------------------------------------------------------- rebuilding the tree

  type Leaves = set<(seq<string>, Value)>

  ghost function LeavesOf(flat: Flat): Leaves {
    set key | key in flat :: (Split(key), flat[key])
  }

  ghost function BelowHead(leaves: Leaves, head: string): Leaves {
    set leaf | leaf in leaves && leaf.0 != [] && leaf.0[0] == head :: (leaf.0[1..], leaf.1)
  }

  ghost function Heads(leaves: Leaves): set<string> {
    set leaf | leaf in leaves && leaf.0 != [] :: leaf.0[0]
  }

  /** The tree, at most `depth` levels deep, that has these leaves at these paths. */
  ghost function Rebuild(leaves: Leaves, depth: nat): Tree
    decreases depth
  {
    if exists value :: ([], value) in leaves then
      var value :| ([], value) in leaves;
      Leaf(value)
    else if depth == 0 then Node(map[])
    else Node(map head | head in Heads(leaves) :: Rebuild(BelowHead(leaves, head), depth - 1))
  }

  /** At most `depth` levels, and no inner node below the root is empty. */
  ghost predicate Fits(tree: Tree, depth: nat)
    decreases depth
  {
    tree.Node? ==>
      depth > 0 &&
      forall key :: key in tree.children ==> Fits(tree.children[key], depth - 1) && tree.children[key] != Node(map[])
  }

  ghost predicate LeavesAre(leaves: Leaves, tree: Tree) {
    forall path, value :: (path, value) in leaves <==> HasLeaf(tree, path, value)
  }

  lemma {:induction false} NonEmptyHasLeaf(tree: Tree, depth: nat) returns (path: seq<string>, value: Value)
    requires Fits(tree, depth) && tree != Node(map[])
    ensures HasLeaf(tree, path, value)
    decreases depth
  {
    if tree.Leaf? {
      path, value := [], tree.value;
    } else {
      var key :| key in tree.children;
      path, value := NonEmptyHasLeaf(tree.children[key], depth - 1);
      path := [key] + path;
      assert path[1..] == path[1..] && path[0] == key;
    }
  }

  lemma HeadsAre(tree: Tree, leaves: Leaves, depth: nat)
    requires Fits(tree, depth) && LeavesAre(leaves, tree) && tree.Node?
    ensures Heads(leaves) == tree.children.Keys
  {
    forall key | key in tree.children ensures key in Heads(leaves) {
      var path, value := NonEmptyHasLeaf(tree.children[key], depth - 1);
      assert ([key] + path)[1..] == path;
      assert HasLeaf(tree, [key] + path, value);
      assert ([key] + path, value) in leaves;
    }
    forall key | key in Heads(leaves) ensures key in tree.children {
      var leaf :| leaf in leaves && leaf.0 != [] && leaf.0[0] == key;
      assert HasLeaf(tree, leaf.0, leaf.1);
    }
  }

  lemma {:induction false} RebuildTree(tree: Tree, leaves: Leaves, depth: nat)
    requires Fits(tree, depth) && LeavesAre(leaves, tree)
    ensures Rebuild(leaves, depth) == tree
    decreases depth
  {
    if tree.Leaf? {
      assert HasLeaf(tree, [], tree.value);
      assert ([], tree.value) in leaves;
    } else {
      assert forall value :: !HasLeaf(tree, [], value);
      HeadsAre(tree, leaves, depth);
      forall key | key in tree.children ensures Rebuild(BelowHead(leaves, key), depth - 1) == tree.children[key] {
        HeadLeaves(tree, leaves, key);
        RebuildTree(tree.children[key], BelowHead(leaves, key), depth - 1);
      }
    }
  }

  lemma HeadLeaves(tree: Tree, leaves: Leaves, key: string)
    requires LeavesAre(leaves, tree) && tree.Node? && key in tree.children
    ensures LeavesAre(BelowHead(leaves, key), tree.children[key])
  {
    forall path, value ensures (path, value) in BelowHead(leaves, key) <==> HasLeaf(tree.children[key], path, value) {
      assert ([key] + path)[1..] == path;
      if (path, value) in BelowHead(leaves, key) {
        var leaf :| leaf in leaves && leaf.0 != [] && leaf.0[0] == key && (leaf.0[1..], leaf.1) == (path, value);
        assert HasLeaf(tree, leaf.0, leaf.1);
      }
      if HasLeaf(tree.children[key], path, value) {
        assert HasLeaf(tree, [key] + path, value);
        assert ([key] + path, value) in leaves;
      }
    }
  }

  ghost function Depth(fields: seq<Field>): nat {
    if fields == [] then 1
    else
      var front, last := Depth(fields[..|fields| - 1]), fields[|fields| - 1].value;
      var below := if last.Object? then 1 + Depth(last.fields) else 1;
      if front < below then below else front
  }

  lemma {:induction false} FitsMore(tree: Tree, d: nat, d': nat)
    requires Fits(tree, d) && d <= d'
    ensures Fits(tree, d')
    decreases d
  {
    if tree.Node? {
      forall key | key in tree.children ensures Fits(tree.children[key], d' - 1) {
        FitsMore(tree.children[key], d - 1, d' - 1);
      }
    }
  }

  lemma {:induction false} ProperFits(fields: seq<Field>)
    requires Proper(fields)
    ensures Fits(Node(Children(fields)), Depth(fields))
    ensures fields != [] ==> Children(fields) != map[]
    decreases fields
  {
    if fields != [] {
      var front, last := fields[..|fields| - 1], fields[|fields| - 1];
      ProperFits(front);
      FitsMore(Node(Children(front)), Depth(front), Depth(fields));
      if last.value.Object? {
        ProperFits(last.value.fields);
        FitsMore(ToTree(last.value), Depth(last.value.fields), Depth(fields) - 1);
      }
      assert last.key in Children(fields);
    }
  }

  /**
   Splitting the keys of a flattened object on dots and putting the leaves back at their paths rebuilds the
   tree, for every object with dot-free keys and without empty objects, dates and undefined values.
   */
  lemma FlattenRoundTrip(fields: seq<Field>)
    requires Proper(fields)
    ensures Rebuild(LeavesOf(Flatten(fields)), Depth(fields)) == Node(Children(fields))
  {
    var flat, tree := Flatten(fields), Node(Children(fields));
    FlattenRepresents(fields);
    ProperFits(fields);
    forall path, value ensures (path, value) in LeavesOf(flat) <==> HasLeaf(tree, path, value) {
      if (path, value) in LeavesOf(flat) {
        var key :| key in flat && (Split(key), flat[key]) == (path, value);
      }
      if HasLeaf(tree, path, value) {
        LeafPath(fields, path, value);
        assert Join(path) in flat && flat[Join(path)] == value;
      }
    }
    RebuildTree(tree, LeavesOf(flat), Depth(fields));
  }

  /** A path to a leaf consists of dot-free keys, so joining and splitting gives it back. */
  lemma {:induction false} LeafPath(fields: seq<Field>, path: seq<string>, value: Value)
    requires Proper(fields) && HasLeaf(Node(Children(fields)), path, value)
    ensures path != [] && Split(Join(path)) == path
    decreases fields
  {
    var front, last := fields[..|fields| - 1], fields[|fields| - 1];
    assert Children(fields) == Children(front)[last.key := ToTree(last.value)];
    assert HasLeaf(Children(fields)[path[0]], path[1..], value);
    if path[0] == last.key {
      if last.value.Object? {
        LeafPath(last.value.fields, path[1..], value);
        SplitDotted(last.key, Join(path[1..]));
      } else {
        assert path[1..] == [];
        SplitDotFree(last.key);
      }
    } else {
      LeafPath(front, path, value);
    }
  }

  // ---------------------------------------------------------------- dates and undefined values

  /**
   What one field gives: a date its text, any other value but an object itself, undefined included, and an object
   its own flattened fields, behind its key and a dot, but for the undefined ones.
   */
  lemma OneField(field: Field, key: string)
    ensures var flat := Flatten([field]);
      match field.value
      case Date(text) => flat == map[field.key := Scalar(text)]
      case Object(inner) => HoldsBelow(flat, field.key, Flatten(inner), key)
      case _ => flat == map[field.key := field.value]
  {
    assert [field][..0] == [] && Flatten([field]) == Piece(field);
    if field.value.Object? { BelowKeys(field.key, Flatten(field.value.fields), key); }
  }

  lemma BelowKeys(key1: string, inner: Flat, key: string)
    ensures HoldsBelow(Below(key1, inner), key1, inner, key)
  {
    if key in Below(key1, inner) {
      BelowOnly(key1, inner, key);
      var key2 :| key == Dotted(key1, key2);
      BelowAt(key1, inner, key2);
      assert IsBelow(key1, key, key2, inner);
    }
    forall key2 | IsBelow(key1, key, key2, inner)
      ensures key in Below(key1, inner) && Below(key1, inner)[key] == inner[key2]
    {
      assert key == Dotted(key1, key2);
      BelowAt(key1, inner, key2);
    }
  }

  /** `key` is `key2` of `inner` behind `key1` and a dot, and is defined. */
  predicate IsBelow(key1: string, key: string, key2: string, inner: Flat) {
    key == key1 + "." + key2 && key2 in inner && inner[key2] != Undefined
  }

  /** At `key`, `flat` holds what is below `key1`, and only that. */
  ghost predicate HoldsBelow(flat: Flat, key1: string, inner: Flat, key: string) {
    && (key in flat <==> exists key2 :: IsBelow(key1, key, key2, inner))
    && (forall key2 :: IsBelow(key1, key, key2, inner) ==> key in flat && flat[key] == inner[key2])
  }

  /** One more field at the end overwrites what is there under its keys and leaves the rest. */
  lemma LaterFieldWins(fields: seq<Field>, field: Field)
    ensures Flatten(fields + [field]) == Flatten(fields) + Flatten([field])
  {
    assert (fields + [field])[..|fields|] == fields;
    assert [field][..0] == [] && Flatten([field]) == Piece(field);
  }

  /** The value with every date in it replaced by its text. */
  function Undated(value: Value): Value {
    match value
    case Date(text) => Scalar(text)
    case Object(fields) => Object(UndatedFields(fields))
    case _ => value
  }

  function UndatedFields(fields: seq<Field>): (r: seq<Field>)
    ensures |r| == |fields|
  {
    if fields == [] then []
    else
      UndatedFields(fields[..|fields| - 1]) +
      [Field(fields[|fields| - 1].key, Undated(fields[|fields| - 1].value))]
  }

  /** A date flattens like its text, at any depth. */
  lemma {:induction false} DatesAreTexts(fields: seq<Field>)
    ensures Flatten(UndatedFields(fields)) == Flatten(fields)
    decreases fields
  {
    if fields != [] {
      var front, last := fields[..|fields| - 1], fields[|fields| - 1];
      DatesAreTexts(front);
      if last.value.Object? { DatesAreTexts(last.value.fields); }
      assert UndatedFields(fields)[..|fields| - 1] == UndatedFields(front);
      assert Piece(Field(last.key, Undated(last.value))) == Piece(last);
    }
  }

  /** So the round trip holds for objects with dates, too, up to writing a date as its text. */
  lemma FlattenRoundTripWithDates(fields: seq<Field>)
    requires Proper(UndatedFields(fields))
    ensures Rebuild(LeavesOf(Flatten(fields)), Depth(UndatedFields(fields))) == Node(Children(UndatedFields(fields)))
  {
    DatesAreTexts(fields);
    FlattenRoundTrip(UndatedFields(fields));
  }

  /** A key with a dot in it can collide with a path: then a leaf is lost. */
  lemma DotCollides(x: string, y: string)
    ensures var fields := [Field("a", Object([Field("b", Scalar(x))])), Field("a.b", Scalar(y))];
      Flatten(fields) == map["a.b" := Scalar(y)]
  {
    var inner, outer := Field("b", Scalar(x)), Field("a.b", Scalar(y));
    assert [inner][..0] == [];
    assert Flatten([inner]) == map["b" := Scalar(x)];
    var a := Field("a", Object([inner]));
    assert [a, outer][..1] == [a] && [a][..0] == [];
    assert Dotted("a", "b") == "a.b";
    assert Flatten([a]) == Below("a", Flatten([inner]));
    assert Flatten([a]).Keys <= {"a.b"};
  }
}
