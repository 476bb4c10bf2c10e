/** Choosing among several definitions of one symbol: preferences first, then the
    nearest position in the source text. */
module TypeResolver {
  import opened Basics

  datatype Def = Def(typeName: string, pkg: string, pos: int, kind: string, moduleStart: int)

  /** What the context of a reference asks for; a blank or zero wish asks nothing. */
  datatype Wish = ForPackage(pkg: string) | ForKind(kind: string) | ForModule(start: int)

  predicate Asks(w: Wish) {
    match w
    case ForPackage(pkg) => pkg != ""
    case ForKind(kind) => kind != ""
    case ForModule(start) => start > 0
  }

  predicate Meets(d: Def, w: Wish) {
    match w
    case ForPackage(pkg) => d.pkg == pkg
    case ForKind(kind) => d.kind == kind
    case ForModule(start) => d.moduleStart == start
  }

  function Filter(defs: seq<Def>, w: Wish): seq<Def> {
    if defs == [] then []
    else Filter(defs[..|defs| - 1], w) + if Meets(defs[|defs| - 1], w) then [defs[|defs| - 1]] else []
  }

  /** Those that meet the wish, or all if none does. */
  function Prefer(defs: seq<Def>, w: Wish): seq<Def> {
    if Asks(w) && Filter(defs, w) != [] then Filter(defs, w) else defs
  }

  method ApplyWish(defs: seq<Def>, w: Wish) returns (r: seq<Def>)
    ensures r == Prefer(defs, w)
  {
    r := defs;
    if Asks(w) {
      var tmp: seq<Def> := [];
      for i := 0 to |defs|
        invariant tmp == Filter(defs[..i], w)
      {
        assert defs[..i + 1][..i] == defs[..i];
        if Meets(defs[i], w) {
          tmp := tmp + [defs[i]];
        }
      }
      assert defs[..|defs|] == defs;
      if |tmp| > 0 {
        r := tmp;
      }
    }
  }

  function Distance(d: Def, pos: int): nat {
    if d.pos < pos then pos - d.pos else d.pos - pos
  }

  /** Nearer, or as near and not after the context while the other one is. */
  predicate Better(a: Def, b: Def, pos: int) {
    || Distance(a, pos) < Distance(b, pos)
    || (Distance(a, pos) == Distance(b, pos) && a.pos <= pos < b.pos)
  }

  /** The first of the definitions that no other one is better than. */
  predicate FirstBest(defs: seq<Def>, k: nat, pos: int) {
    && k < |defs|
    && (forall i :: 0 <= i < |defs| ==> !Better(defs[i], defs[k], pos))
    && (forall i :: 0 <= i < k ==> Better(defs[k], defs[i], pos))
  }

  method Nearest(defs: seq<Def>, pos: int) returns (best: int)
    ensures defs == [] ==> best == -1
    ensures defs != [] ==> best >= 0 && FirstBest(defs, best, pos)
  {
    best := -1;
    var bestDistance, bestIsFuture := 0, false;
    for index := 0 to |defs|
      invariant index == 0 ==> best == -1
      invariant index > 0 ==> 0 <= best < index && FirstBest(defs[..index], best, pos)
      invariant index > 0 ==> bestDistance == Distance(defs[best], pos) && bestIsFuture == (defs[best].pos > pos)
    {
      var distance := if defs[index].pos - pos < 0 then pos - defs[index].pos else defs[index].pos - pos;
      var isFuture := defs[index].pos > pos;
      if best == -1 || distance < bestDistance {
        best, bestDistance, bestIsFuture := index, distance, isFuture;
      } else if distance == bestDistance && bestIsFuture && !isFuture {
        best, bestIsFuture := index, isFuture;
      }
    }
    assert defs[..|defs|] == defs;
  }

  /** The candidates left by the three wishes, the strongest first: the package, the
      kind and the module of the context. */
  function Preferred(defs: seq<Def>, pkg: string, kind: string, moduleStart: int): seq<Def> {
    Prefer(Prefer(Prefer(defs, ForPackage(pkg)), ForKind(kind)), ForModule(moduleStart))
  }

  method PickBestDefinition(defs: seq<Def>, pos: int, moduleStart: int, pkg: string, kind: string) returns (r: Option<Def>)
    ensures r == None <==> defs == []
    ensures r.Some? ==> exists k: nat :: FirstBest(Preferred(defs, pkg, kind, moduleStart), k, pos)
                                         && r.value == Preferred(defs, pkg, kind, moduleStart)[k]
  {
    if |defs| == 0 {
      return None;
    }
    var filtered := ApplyWish(defs, ForPackage(pkg));
    filtered := ApplyWish(filtered, ForKind(kind));
    filtered := ApplyWish(filtered, ForModule(moduleStart));
    var best := Nearest(filtered, pos);
    assert FirstBest(Preferred(defs, pkg, kind, moduleStart), best, pos);
    return Some(filtered[best]);
  }

  // ----- what the choice means

  lemma {:induction false} FilterMembers(defs: seq<Def>, w: Wish)
    ensures forall d :: d in Filter(defs, w) <==> d in defs && Meets(d, w)
  {
    if defs != [] {
      var n := |defs| - 1;
      FilterMembers(defs[..n], w);
      assert forall d :: d in defs <==> d in defs[..n] || d == defs[n] by {
        assert defs == defs[..n] + [defs[n]];
      }
    }
  }

  /** Some definition meets a wish that is asked. */
  ghost predicate Granted(defs: seq<Def>, w: Wish) {
    Asks(w) && exists e :: e in defs && Meets(e, w)
  }

  lemma PreferMembers(defs: seq<Def>, w: Wish)
    ensures forall d :: d in Prefer(defs, w) <==> d in defs && (Granted(defs, w) ==> Meets(d, w))
  {
    FilterMembers(defs, w);
    var kept := Filter(defs, w);
    if kept != [] {
      assert kept[0] in kept;
    }
  }

  /** A definition of the preferred package, if it is given and there is one. */
  ghost predicate FitsPackage(defs: seq<Def>, pkg: string, d: Def) {
    d in defs && (pkg != "" && (exists e :: e in defs && e.pkg == pkg) ==> d.pkg == pkg)
  }

  /** Of those, one of the wanted kind, if it is given and there is one. */
  ghost predicate FitsKind(defs: seq<Def>, pkg: string, kind: string, d: Def) {
    FitsPackage(defs, pkg, d) && (kind != "" && (exists e :: FitsPackage(defs, pkg, e) && e.kind == kind) ==> d.kind == kind)
  }

  /** Of those, one of the module of the context, if it is known and there is one. */
  ghost predicate Fits(defs: seq<Def>, pkg: string, kind: string, moduleStart: int, d: Def) {
    && FitsKind(defs, pkg, kind, d)
    && (moduleStart > 0 && (exists e :: FitsKind(defs, pkg, kind, e) && e.moduleStart == moduleStart) ==> d.moduleStart == moduleStart)
  }

  /** The wishes in their order: a definition of the preferred package is chosen
      whenever there is one; the wanted kind whenever the remaining ones have it;
      and then the module of the context. */
  lemma WishesAreRespected(defs: seq<Def>, pkg: string, kind: string, moduleStart: int, d: Def)
    ensures d in Preferred(defs, pkg, kind, moduleStart) <==> Fits(defs, pkg, kind, moduleStart, d)
  {
    var ofPackage := Prefer(defs, ForPackage(pkg));
    var ofKind := Prefer(ofPackage, ForKind(kind));
    PreferMembers(defs, ForPackage(pkg));
    assert forall e :: e in ofPackage <==> FitsPackage(defs, pkg, e);
    PreferMembers(ofPackage, ForKind(kind));
    assert forall e :: e in ofKind <==> FitsKind(defs, pkg, kind, e);
    PreferMembers(ofKind, ForModule(moduleStart));
  }

  lemma {:induction false} FilterConcat(a: seq<Def>, b: seq<Def>, w: Wish)
    ensures Filter(a + b, w) == Filter(a, w) + Filter(b, w)
    decreases |b|
  {
    if b == [] {
      assert a + b == a;
    } else {
      var n := |b| - 1;
      FilterConcat(a, b[..n], w);
      assert (a + b)[..|a + b| - 1] == a + b[..n];
    }
  }

  /** Filtering keeps the definitions that meet the wish in their order. */
  lemma FilterInOrder(a: seq<Def>, b: seq<Def>, d: Def, w: Wish)
    ensures Filter(a + b, w) == Filter(a, w) + Filter(b, w) && Filter([], w) == []
    ensures Filter([d], w) ==
              if (w.ForPackage? && d.pkg == w.pkg) || (w.ForKind? && d.kind == w.kind) || (w.ForModule? && d.moduleStart == w.start)
              then [d] else []
  {
    FilterConcat(a, b, w);
    assert [d][..0] == [];
  }

  function Abs(x: int): nat {
    if x < 0 then -x else x
  }

  /** The chosen definition is nearest to the context; of equally near ones it is not
      after the context if one of them is not; and of those it is the first. */
  lemma NearestMeans(defs: seq<Def>, k: nat, pos: int, i: nat)
    requires FirstBest(defs, k, pos) && i < |defs|
    ensures Abs(defs[k].pos - pos) <= Abs(defs[i].pos - pos)
    ensures Abs(defs[i].pos - pos) == Abs(defs[k].pos - pos) && defs[i].pos <= pos ==> defs[k].pos <= pos
    ensures Abs(defs[i].pos - pos) == Abs(defs[k].pos - pos) && (defs[i].pos <= pos <==> defs[k].pos <= pos) ==> k <= i
  {
  }
}
