/**
 The ancestors of a credential type. A hierarchy maps each known type to the types it extends; `rank` is a
 witness that the extends relation has no cycle.
 */
module CredentialTypes {
  type TypeName = string

  type Hierarchy = map<TypeName, seq<TypeName>>

  function Extends(h: Hierarchy, t: TypeName): seq<TypeName> {
    if t in h then h[t] else []
  }

  ghost predicate Ranked(h: Hierarchy, rank: map<TypeName, nat>) {
    forall t, i :: t in h && 0 <= i < |h[t]| ==> Rank(rank, h[t][i]) < Rank(rank, t)
  }

  function Rank(rank: map<TypeName, nat>, t: TypeName): nat {
    if t in rank then rank[t] else 0
  }

  /** Every type in `types` has a rank below `r`. */
  ghost predicate Below(rank: map<TypeName, nat>, types: seq<TypeName>, r: int) {
    forall i :: 0 <= i < |types| ==> Rank(rank, types[i]) < r
  }

  // ---------------------------------------------------------------- the list that getParentTypes builds

  /** The lists of all elements of `types`, one after the other. */
  ghost function AllParents(h: Hierarchy, rank: map<TypeName, nat>, types: seq<TypeName>, r: nat): (ps: seq<TypeName>)
    requires Ranked(h, rank) && Below(rank, types, r)
    ensures Below(rank, ps, r - 1)
    decreases r, 1, |types|
  {
    if types == [] then []
    else Parents(h, rank, types[0]) + AllParents(h, rank, types[1..], r)
  }

  /** A worklist to which every element adds its own list, flattened generation by generation. */
  ghost function Levels(h: Hierarchy, rank: map<TypeName, nat>, types: seq<TypeName>, r: nat): (ls: seq<TypeName>)
    requires Ranked(h, rank) && Below(rank, types, r)
    ensures Below(rank, ls, r)
    decreases r, 2, 0
  {
    if types == [] then [] else types + Levels(h, rank, AllParents(h, rank, types, r), r - 1)
  }

  /** What `getParentTypes(t)` returns, duplicates included. */
  ghost function Parents(h: Hierarchy, rank: map<TypeName, nat>, t: TypeName): (ps: seq<TypeName>)
    requires Ranked(h, rank)
    ensures Below(rank, ps, Rank(rank, t))
    decreases Rank(rank, t), 3, 0
  {
    Levels(h, rank, Extends(h, t), Rank(rank, t))
  }

  lemma {:induction false} AllParentsAppend(h: Hierarchy, rank: map<TypeName, nat>, a: seq<TypeName>,
                                            b: seq<TypeName>, r: nat)
    requires Ranked(h, rank) && Below(rank, a, r) && Below(rank, b, r)
    ensures Below(rank, a + b, r)
    ensures AllParents(h, rank, a + b, r) == AllParents(h, rank, a, r) + AllParents(h, rank, b, r)
    decreases |a|
  {
    if a == [] {
      assert a + b == b;
    } else {
      assert (a + b)[1..] == a[1..] + b;
      AllParentsAppend(h, rank, a[1..], b, r);
      Associative(Parents(h, rank, a[0]), AllParents(h, rank, a[1..], r), AllParents(h, rank, b, r));
    }
  }

  lemma {:induction false} AllParentsBound(h: Hierarchy, rank: map<TypeName, nat>, types: seq<TypeName>, r: nat,
                                           r': nat)
    requires Ranked(h, rank) && Below(rank, types, r) && r <= r'
    ensures AllParents(h, rank, types, r) == AllParents(h, rank, types, r')
    decreases |types|
  {
    if types != [] { AllParentsBound(h, rank, types[1..], r, r'); }
  }

  lemma LevelsUnfold(h: Hierarchy, rank: map<TypeName, nat>, a: seq<TypeName>, b: seq<TypeName>, r: nat)
    requires Ranked(h, rank) && Below(rank, a, r) && Below(rank, b, r) && a + b != []
    ensures r > 0 && Below(rank, a + b, r)
    ensures Levels(h, rank, a + b, r) ==
      a + b + Levels(h, rank, AllParents(h, rank, a, r) + AllParents(h, rank, b, r), r - 1)
  {
    AllParentsAppend(h, rank, a, b, r);
    var x := (a + b)[0];
    assert Rank(rank, x) < r;
  }

  /** `ps` can be moved to the front of the worklist at once: its own lists end up behind `rest`. */
  ghost predicate Rotates(h: Hierarchy, rank: map<TypeName, nat>, ps: seq<TypeName>, rest: seq<TypeName>, r: nat) {
    && Ranked(h, rank) && Below(rank, ps, r) && Below(rank, rest, r)
    && Below(rank, ps + rest, r) && Below(rank, rest + AllParents(h, rank, ps, r), r)
    && Levels(h, rank, ps + rest, r) == ps + Levels(h, rank, rest + AllParents(h, rank, ps, r), r)
  }

  lemma {:induction false} LevelsRotate(h: Hierarchy, rank: map<TypeName, nat>, ps: seq<TypeName>,
                                        rest: seq<TypeName>, r: nat)
    requires Ranked(h, rank) && Below(rank, ps, r) && Below(rank, rest, r)
    ensures Rotates(h, rank, ps, rest, r)
    decreases r
  {
    if ps == [] {
      RotateNothing(h, rank, rest, r);
    } else {
      BoundPositive(rank, ps, r);
      LevelsRotate(h, rank, AllParents(h, rank, ps, r), AllParents(h, rank, rest, r), r - 1);
      RotateStep(h, rank, ps, rest, r);
    }
  }

  lemma RotateNothing(h: Hierarchy, rank: map<TypeName, nat>, rest: seq<TypeName>, r: nat)
    requires Ranked(h, rank) && Below(rank, rest, r)
    ensures Rotates(h, rank, [], rest, r)
  {
    assert [] + rest == rest && rest + AllParents(h, rank, [], r) == rest;
  }

  lemma BoundPositive(rank: map<TypeName, nat>, types: seq<TypeName>, r: int)
    requires Below(rank, types, r) && types != []
    ensures r > 0
  {
    assert Rank(rank, types[0]) < r;
  }

  lemma RotateStep(h: Hierarchy, rank: map<TypeName, nat>, ps: seq<TypeName>, rest: seq<TypeName>, r: nat)
    requires Ranked(h, rank) && Below(rank, ps, r) && Below(rank, rest, r) && ps != [] && r > 0
    requires Rotates(h, rank, AllParents(h, rank, ps, r), AllParents(h, rank, rest, r), r - 1)
    ensures Rotates(h, rank, ps, rest, r)
  {
    var ps1, rest1 := AllParents(h, rank, ps, r), AllParents(h, rank, rest, r);
    AllParentsBound(h, rank, ps1, r - 1, r);
    LevelsUnfold(h, rank, ps, rest, r);
    RotatedTail(h, rank, ps1, rest, r);
    Rearrange(ps, rest, ps1, Levels(h, rank, rest1 + AllParents(h, rank, ps1, r), r - 1));
  }

  lemma Rearrange(a: seq<TypeName>, b: seq<TypeName>, c: seq<TypeName>, d: seq<TypeName>)
    ensures a + b + (c + d) == a + (b + c + d)
  {
  }

  lemma RotatedTail(h: Hierarchy, rank: map<TypeName, nat>, ps1: seq<TypeName>, rest: seq<TypeName>, r: nat)
    requires Ranked(h, rank) && r > 0 && Below(rank, ps1, r - 1) && Below(rank, rest, r)
    ensures Below(rank, rest + ps1, r)
    ensures Below(rank, AllParents(h, rank, rest, r) + AllParents(h, rank, ps1, r), r - 1)
    ensures Levels(h, rank, rest + ps1, r) ==
      rest + ps1 + Levels(h, rank, AllParents(h, rank, rest, r) + AllParents(h, rank, ps1, r), r - 1)
  {
    if rest + ps1 == [] {
      assert rest == [] && ps1 == [];
      assert AllParents(h, rank, rest, r) + AllParents(h, rank, ps1, r) == [];
    } else {
      LevelsUnfold(h, rank, rest, ps1, r);
    }
  }

  /** Taking the first element off the worklist and appending its own list. */
  lemma LevelsPop(h: Hierarchy, rank: map<TypeName, nat>, t: TypeName, rest: seq<TypeName>, r: nat)
    requires Ranked(h, rank) && Rank(rank, t) < r && Below(rank, rest, r)
    ensures Below(rank, [t] + rest, r) && Below(rank, rest + Parents(h, rank, t), r)
    ensures Levels(h, rank, [t] + rest, r) == [t] + Levels(h, rank, rest + Parents(h, rank, t), r)
  {
    LevelsRotate(h, rank, [t], rest, r);
    assert AllParents(h, rank, [t], r) == Parents(h, rank, t) + AllParents(h, rank, [t][1..], r);
    assert AllParents(h, rank, [t], r) == Parents(h, rank, t);
  }

  /** One turn of the loop: `t` is done, its own list goes to the end of what is to do. */
  lemma WorklistStep(h: Hierarchy, rank: map<TypeName, nat>, done: seq<TypeName>, t: TypeName, rest: seq<TypeName>,
                     r: nat)
    requires Ranked(h, rank) && Rank(rank, t) < r && Below(rank, rest, r)
    ensures Below(rank, [t] + rest, r) && Below(rank, rest + Parents(h, rank, t), r)
    ensures done + Levels(h, rank, [t] + rest, r) == done + [t] + Levels(h, rank, rest + Parents(h, rank, t), r)
  {
    LevelsPop(h, rank, t, rest, r);
    Associative(done, [t], Levels(h, rank, rest + Parents(h, rank, t), r));
  }

  lemma Associative(a: seq<TypeName>, b: seq<TypeName>, c: seq<TypeName>)
    ensures a + (b + c) == a + b + c
  {
  }

  lemma LevelsNotShorter(h: Hierarchy, rank: map<TypeName, nat>, types: seq<TypeName>, r: nat)
    requires Ranked(h, rank) && Below(rank, types, r)
    ensures |types| <= |Levels(h, rank, types, r)|
  {
  }

  /**
   `getParentTypes`, which appends to the list it is going through. It terminates because that list only
   grows towards `Parents(h, rank, typeName)`, which is fixed.
   */
  method GetParentTypes(h: Hierarchy, ghost rank: map<TypeName, nat>, typeName: TypeName) returns (types: seq<TypeName>)
    requires Ranked(h, rank)
    ensures types == Parents(h, rank, typeName)
    decreases Rank(rank, typeName)
  {
    types := Extends(h, typeName);
    if |types| == 0 { return; }
    ghost var r := Rank(rank, typeName);
    ghost var done, todo := [], types;
    var i := 0;
    while i < |types|
      invariant i == |done| && types == done + todo && Below(rank, todo, r)
      invariant Parents(h, rank, typeName) == done + Levels(h, rank, todo, r)
      decreases |Parents(h, rank, typeName)| - i
    {
      ghost var t, rest := todo[0], todo[1..];
      assert todo == [t] + rest && types[i] == t;
      LevelsNotShorter(h, rank, todo, r);
      WorklistStep(h, rank, done, t, rest, r);
      var more := GetParentTypes(h, rank, types[i]);
      Requeue(done, t, rest, more);
      types := types + more;
      i := i + 1;
      done, todo := done + [t], rest + more;
    }
    assert todo == [] && types == done;
  }

  lemma Requeue(done: seq<TypeName>, t: TypeName, rest: seq<TypeName>, more: seq<TypeName>)
    ensures done + ([t] + rest) + more == done + [t] + (rest + more)
  {
  }

  // ---------------------------------------------------------------- what the list contains

  /** `path` leads from `t` upwards, one extends step at a time. */
  ghost predicate IsPath(h: Hierarchy, t: TypeName, path: seq<TypeName>)
    decreases |path|
  {
    path == [] || (path[0] in Extends(h, t) && IsPath(h, path[0], path[1..]))
  }

  ghost predicate Ancestor(h: Hierarchy, t: TypeName, a: TypeName) {
    exists path :: path != [] && IsPath(h, t, path) && path[|path| - 1] == a
  }

  lemma AncestorStep(h: Hierarchy, t: TypeName, p: TypeName, a: TypeName)
    requires p in Extends(h, t) && (a == p || Ancestor(h, p, a))
    ensures Ancestor(h, t, a)
  {
    if a == p {
      assert IsPath(h, t, [p]);
    } else {
      var path :| path != [] && IsPath(h, p, path) && path[|path| - 1] == a;
      assert ([p] + path)[1..] == path;
      assert IsPath(h, t, [p] + path);
    }
  }

  lemma {:induction false} PathJoins(h: Hierarchy, t: TypeName, path: seq<TypeName>, a: TypeName)
    requires path != [] && IsPath(h, t, path) && Ancestor(h, path[|path| - 1], a)
    ensures Ancestor(h, t, a)
    decreases |path|
  {
    if |path| > 1 { PathJoins(h, path[0], path[1..], a); }
    AncestorStep(h, t, path[0], a);
  }

  lemma AncestorTransitive(h: Hierarchy, t: TypeName, b: TypeName, a: TypeName)
    requires Ancestor(h, t, b) && Ancestor(h, b, a)
    ensures Ancestor(h, t, a)
  {
    var path :| path != [] && IsPath(h, t, path) && path[|path| - 1] == b;
    PathJoins(h, t, path, a);
  }

  /** Everything on the flattened worklist is one of its types or an ancestor of one. */
  lemma {:induction false} LevelsAreAncestors(h: Hierarchy, rank: map<TypeName, nat>, types: seq<TypeName>, r: nat,
                                              a: TypeName)
    returns (p: TypeName)
    requires Ranked(h, rank) && Below(rank, types, r) && a in Levels(h, rank, types, r)
    ensures p in types && (a == p || Ancestor(h, p, a))
    decreases r, 1, 0
  {
    if a in types {
      p := a;
    } else {
      var b := LevelsAreAncestors(h, rank, AllParents(h, rank, types, r), r - 1, a);
      p := AllParentsAreAncestors(h, rank, types, r, b);
      if a != b { AncestorTransitive(h, p, b, a); }
    }
  }

  lemma {:induction false} AllParentsAreAncestors(h: Hierarchy, rank: map<TypeName, nat>, types: seq<TypeName>,
                                                  r: nat, b: TypeName)
    returns (p: TypeName)
    requires Ranked(h, rank) && Below(rank, types, r) && b in AllParents(h, rank, types, r)
    ensures p in types && Ancestor(h, p, b)
    decreases r, 0, |types|
  {
    p := types[0];
    if b in Parents(h, rank, p) {
      var q := LevelsAreAncestors(h, rank, Extends(h, p), Rank(rank, p), b);
      AncestorStep(h, p, q, b);
    } else {
      p := AllParentsAreAncestors(h, rank, types[1..], r, b);
    }
  }

  lemma {:induction false} AllParentsHolds(h: Hierarchy, rank: map<TypeName, nat>, types: seq<TypeName>, r: nat, i: nat)
    requires Ranked(h, rank) && Below(rank, types, r) && i < |types|
    ensures forall a :: a in Parents(h, rank, types[i]) ==> a in AllParents(h, rank, types, r)
    decreases |types|
  {
    if i > 0 { AllParentsHolds(h, rank, types[1..], r, i - 1); }
  }

  /** The flattened worklist is closed: it holds the whole list of each of its elements. */
  lemma {:induction false} LevelsClosed(h: Hierarchy, rank: map<TypeName, nat>, types: seq<TypeName>, r: nat,
                                        b: TypeName, a: TypeName)
    requires Ranked(h, rank) && Below(rank, types, r) && b in Levels(h, rank, types, r) && a in Parents(h, rank, b)
    ensures a in Levels(h, rank, types, r)
    decreases r
  {
    var next := AllParents(h, rank, types, r);
    if b in types {
      var i :| 0 <= i < |types| && types[i] == b;
      AllParentsHolds(h, rank, types, r, i);
      assert next <= Levels(h, rank, next, r - 1);
    } else {
      LevelsClosed(h, rank, next, r - 1, b, a);
    }
  }

  lemma ParentsStart(h: Hierarchy, rank: map<TypeName, nat>, t: TypeName)
    requires Ranked(h, rank)
    ensures Extends(h, t) <= Parents(h, rank, t)
  {
  }

  lemma {:induction false} PathIsListed(h: Hierarchy, rank: map<TypeName, nat>, t: TypeName, path: seq<TypeName>)
    requires Ranked(h, rank) && path != [] && IsPath(h, t, path)
    ensures path[|path| - 1] in Parents(h, rank, t)
    decreases |path|
  {
    var p := path[0];
    ParentsStart(h, rank, t);
    if |path| > 1 {
      PathIsListed(h, rank, p, path[1..]);
      LevelsClosed(h, rank, Extends(h, t), Rank(rank, t), p, path[|path| - 1]);
    }
  }

  /** The result of `getParentTypes` holds exactly the strict transitive ancestors. */
  lemma ParentsAreTheAncestors(h: Hierarchy, rank: map<TypeName, nat>, t: TypeName, a: TypeName)
    requires Ranked(h, rank)
    ensures a in Parents(h, rank, t) <==> Ancestor(h, t, a)
  {
    if a in Parents(h, rank, t) {
      var p := LevelsAreAncestors(h, rank, Extends(h, t), Rank(rank, t), a);
      AncestorStep(h, t, p, a);
    }
    if Ancestor(h, t, a) {
      var path :| path != [] && IsPath(h, t, path) && path[|path| - 1] == a;
      PathIsListed(h, rank, t, path);
    }
  }

  // ---------------------------------------------------------------- a rank exists exactly without cycles

  ghost function Names(h: Hierarchy): set<TypeName> {
    set t, i | t in h && 0 <= i < |h[t]| :: h[t][i]
  }

  ghost function Ancestors(h: Hierarchy, t: TypeName): set<TypeName> {
    set a | a in Names(h) && Ancestor(h, t, a)
  }

  lemma {:induction false} SubsetSize<T>(a: set<T>, b: set<T>)
    requires a < b
    ensures |a| < |b|
    decreases b
  {
    assert exists x :: x in b && x !in a;
    var x :| x in b && x !in a;
    if a <= b - {x} && a != b - {x} { SubsetSize(a, b - {x}); } else { assert a == b - {x}; }
  }

  lemma {:induction false} RankFallsOnPath(h: Hierarchy, rank: map<TypeName, nat>, t: TypeName, path: seq<TypeName>)
    requires Ranked(h, rank) && path != [] && IsPath(h, t, path)
    ensures Rank(rank, path[|path| - 1]) < Rank(rank, t)
    decreases |path|
  {
    if |path| > 1 { RankFallsOnPath(h, rank, path[0], path[1..]); }
  }

  /** An extends relation without cycles has a rank, so `GetParentTypes` terminates on every one of them. */
  lemma AcyclicIsRanked(h: Hierarchy) returns (rank: map<TypeName, nat>)
    requires forall t :: !Ancestor(h, t, t)
    ensures Ranked(h, rank)
  {
    rank := map t | t in h.Keys :: |Ancestors(h, t)|;
    forall t, i | t in h && 0 <= i < |h[t]| ensures Rank(rank, h[t][i]) < Rank(rank, t) {
      var p := h[t][i];
      AncestorStep(h, t, p, p);
      forall a | a in Ancestors(h, p) ensures a in Ancestors(h, t) { AncestorTransitive(h, t, p, a); }
      assert p in Ancestors(h, t) && p !in Ancestors(h, p);
      SubsetSize(Ancestors(h, p), Ancestors(h, t));
    }
  }

  lemma RankedIsAcyclic(h: Hierarchy, rank: map<TypeName, nat>, t: TypeName)
    requires Ranked(h, rank)
    ensures !Ancestor(h, t, t)
  {
    if Ancestor(h, t, t) {
      var path :| path != [] && IsPath(h, t, path) && path[|path| - 1] == t;
      RankFallsOnPath(h, rank, t, path);
    }
  }

  // ---------------------------------------------------------------- single inheritance

  ghost predicate SingleParent(h: Hierarchy) {
    forall t :: t in h ==> |h[t]| <= 1
  }

  /** The ancestors of `t`, nearest first. */
  ghost function Chain(h: Hierarchy, rank: map<TypeName, nat>, t: TypeName): (c: seq<TypeName>)
    requires Ranked(h, rank)
    ensures Below(rank, c, Rank(rank, t))
    decreases Rank(rank, t)
  {
    if Extends(h, t) == [] then [] else [Extends(h, t)[0]] + Chain(h, rank, Extends(h, t)[0])
  }

  lemma {:induction false} ChainIsPrefix(h: Hierarchy, rank: map<TypeName, nat>, t: TypeName)
    requires Ranked(h, rank) && SingleParent(h)
    ensures Chain(h, rank, t) <= Parents(h, rank, t)
    decreases Rank(rank, t)
  {
    if Extends(h, t) != [] {
      var p, r := Extends(h, t)[0], Rank(rank, t);
      assert Extends(h, t) == [p];
      ChainIsPrefix(h, rank, p);
      LevelsPop(h, rank, p, [], r);
      assert [p] + [] == [p] && [] + Parents(h, rank, p) == Parents(h, rank, p);
      assert Parents(h, rank, t) == [p] + Levels(h, rank, Parents(h, rank, p), r);
      assert Parents(h, rank, p) <= Levels(h, rank, Parents(h, rank, p), r);
    }
  }

  lemma {:induction false} PathInChain(h: Hierarchy, rank: map<TypeName, nat>, t: TypeName, path: seq<TypeName>)
    requires Ranked(h, rank) && SingleParent(h) && path != [] && IsPath(h, t, path)
    ensures path[|path| - 1] in Chain(h, rank, t)
    decreases |path|
  {
    if |path| > 1 { PathInChain(h, rank, path[0], path[1..]); }
  }

  lemma {:induction false} ChainDistinct(h: Hierarchy, rank: map<TypeName, nat>, t: TypeName)
    requires Ranked(h, rank)
    ensures Distinct(Chain(h, rank, t))
    decreases Rank(rank, t)
  {
    if Extends(h, t) != [] {
      var p := Extends(h, t)[0];
      var c := Chain(h, rank, p);
      ChainDistinct(h, rank, p);
      assert Below(rank, c, Rank(rank, p));
      assert forall j :: 0 <= j < |c| ==> c[j] != p;
      assert Distinct([p] + c);
    }
  }

  ghost predicate Distinct(s: seq<TypeName>) {
    forall i, j :: 0 <= i < j < |s| ==> s[i] != s[j]
  }

  /**
   Under single inheritance the list starts with the chain of ancestors, nearest first and each once, and
   whatever follows only repeats them: first occurrences are ordered nearest first.
   */
  lemma NearestFirst(h: Hierarchy, rank: map<TypeName, nat>, t: TypeName)
    requires Ranked(h, rank) && SingleParent(h)
    ensures var c, ps := Chain(h, rank, t), Parents(h, rank, t);
      && c <= ps
      && Distinct(c)
      && (forall a :: a in ps <==> a in c)
  {
    ChainIsPrefix(h, rank, t);
    ChainDistinct(h, rank, t);
    forall a | a in Parents(h, rank, t) ensures a in Chain(h, rank, t) {
      ParentsAreTheAncestors(h, rank, t, a);
      var path :| path != [] && IsPath(h, t, path) && path[|path| - 1] == a;
      PathInChain(h, rank, t, path);
    }
  }
}
