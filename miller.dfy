/**
 * The rhombohedral-to-orthorhombic Miller-index translation of
 * surface_generator: four fixed lists of rhombohedral indices, each
 * standing for one orthorhombic index, looked up by a first-match
 * chain of membership tests.
 */
module Miller {
  import opened Wrappers

  /** A Miller index (h, k, l). */
  type Triple = (int, int, int)

  /** The four families of symmetry-equivalent rhombohedral planes. */
  datatype Family = Family100 | Family001 | Family110 | Family012

  // The accepted rhombohedral indices, in the order the source lists them.
  const Plane100: seq<Triple> := [(1, 0, 0), (0, 1, 0), (1, -1, 0), (-1, 0, 0), (0, -1, 0), (-1, 1, 0)]
  const Plane001: seq<Triple> := [(0, 0, 1), (0, 0, -1)]
  const Plane110: seq<Triple> := [(1, 1, 0), (1, -2, 0), (2, -1, 0), (-1, -1, 0), (-1, 2, 0), (-2, 1, 0)]
  const Plane012: seq<Triple> := [(0, 1, 2), (1, -1, 2), (-1, -1, 2), (0, -2, -2), (-1, 1, -2), (1, 1, -2)]

  /** The order in which the source tests the families. */
  const SourceOrder: seq<Family> := [Family100, Family001, Family110, Family012]

  /** The rhombohedral indices the source accepts for a family. */
  function Members(f: Family): seq<Triple> {
    match f
    case Family100 => Plane100
    case Family001 => Plane001
    case Family110 => Plane110
    case Family012 => Plane012
  }

  /** The orthorhombic index that stands for a family. */
  function Canonical(f: Family): Triple {
    match f
    case Family100 => (1, 1, 0)
    case Family001 => (0, 0, 1)
    case Family110 => (1, 0, 0)
    case Family012 => (0, 2, 2)
  }

  /** The four orthorhombic indices the translation can produce. */
  const CanonicalIndices: set<Triple> := {(1, 1, 0), (0, 0, 1), (1, 0, 0), (0, 2, 2)}

  /**
   * The if/elif chain of surface_generator. None is the case where no
   * branch is taken and the orthorhombic index is never bound.
   */
  function Translate(m: Triple): (r: Option<Triple>)
    ensures r.Some? ==> r.value in CanonicalIndices
  {
    if m in Plane100 then Some((1, 1, 0))
    else if m in Plane001 then Some((0, 0, 1))
    else if m in Plane110 then Some((1, 0, 0))
    else if m in Plane012 then Some((0, 2, 2))
    else None
  }

  /** The same chain with the families tested in an arbitrary order. */
  function FirstMatch(order: seq<Family>, m: Triple): Option<Triple> {
    if order == [] then None
    else if m in Members(order[0]) then Some(Canonical(order[0]))
    else FirstMatch(order[1..], m)
  }

  /** The index with every component negated: the same plane seen from the other side. */
  function Negate(m: Triple): Triple {
    (-m.0, -m.1, -m.2)
  }

  /** No index is listed twice in a sequence. */
  predicate Distinct(s: seq<Triple>) {
    forall i, j :: 0 <= i < j < |s| ==> s[i] != s[j]
  }

  /** No two families share an index, so at most one branch of the chain can apply. */
  lemma FamiliesDisjoint(f: Family, g: Family, m: Triple)
    requires m in Members(f) && m in Members(g)
    ensures f == g
  {
  }

  /** Distinct families stand for distinct orthorhombic indices. */
  lemma CanonicalInjective(f: Family, g: Family)
    ensures Canonical(f) == Canonical(g) <==> f == g
  {
  }

  /** The four lists hold 20 indices and none lists an index twice. */
  lemma AcceptedCount(f: Family)
    ensures |Plane100| + |Plane001| + |Plane110| + |Plane012| == 20
    ensures Distinct(Members(f))
  {
  }

  /** The indices a sequence holds. */
  function Elements(s: seq<Triple>): set<Triple> {
    set m | m in s
  }

  /** Every index the four lists hold. */
  const AcceptedIndices: set<Triple> := Elements(Plane100 + Plane001 + Plane110 + Plane012)

  /** A sequence that lists no index twice holds as many indices as it is long. */
  lemma {:induction false} DistinctCard(s: seq<Triple>)
    requires Distinct(s)
    ensures |Elements(s)| == |s|
  {
    if s != [] {
      assert Elements(s) == {s[0]} + Elements(s[1..]);
      assert s[0] !in Elements(s[1..]);
      DistinctCard(s[1..]);
    }
  }

  lemma ElementsConcat(a: seq<Triple>, b: seq<Triple>)
    ensures Elements(a + b) == Elements(a) + Elements(b)
  {
  }

  /** No index is held by two of the lists. */
  lemma ListsDisjoint()
    ensures Elements(Plane100) !! Elements(Plane001) + Elements(Plane110) + Elements(Plane012)
    ensures Elements(Plane001) !! Elements(Plane110) + Elements(Plane012)
    ensures Elements(Plane110) !! Elements(Plane012)
  {
    forall f, g, x | x in Members(f) && x in Members(g) ensures f == g {
      FamiliesDisjoint(f, g, x);
    }
  }

  /** The chain accepts exactly 20 distinct indices. */
  lemma AcceptedIndicesCount()
    ensures |AcceptedIndices| == 20
  {
    ElementsConcat(Plane100 + Plane001 + Plane110, Plane012);
    ElementsConcat(Plane100 + Plane001, Plane110);
    ElementsConcat(Plane100, Plane001);
    AcceptedCount(Family100);
    AcceptedCount(Family001);
    AcceptedCount(Family110);
    AcceptedCount(Family012);
    DistinctCard(Plane100);
    DistinctCard(Plane001);
    DistinctCard(Plane110);
    DistinctCard(Plane012);
    ListsDisjoint();
  }

  /** An index is translated exactly when one of the lists holds it. */
  lemma TranslateAccepted(m: Triple)
    ensures Translate(m).Some? <==> m in AcceptedIndices
  {
  }

  /** CanonicalIndices holds exactly the orthorhombic indices of the four families. */
  lemma CanonicalIndicesOfFamilies(c: Triple)
    ensures c in CanonicalIndices <==> exists f :: Canonical(f) == c
  {
    if c in CanonicalIndices {
      var f :| f in [Family100, Family001, Family110, Family012] && Canonical(f) == c;
    }
  }

  /**
   * The translation in terms of families: an index is translated to c
   * exactly when it belongs to a family whose orthorhombic index is c.
   */
  lemma TranslateSpec(m: Triple, c: Triple)
    ensures Translate(m) == Some(c) <==> exists f :: m in Members(f) && c == Canonical(f)
  {
    if Translate(m) == Some(c) {
      var f :| f in SourceOrder && m in Members(f) && c == Canonical(f);
    }
  }

  /** An index outside all four families is not translated. */
  lemma TranslateUnbound(m: Triple)
    ensures Translate(m) == None <==> forall f :: m !in Members(f)
  {
    if Translate(m) == None {
      forall f ensures m !in Members(f) {
        if m in Members(f) {
          TranslateSpec(m, Canonical(f));
        }
      }
    } else {
      TranslateSpec(m, Translate(m).value);
    }
  }

  /** Every member of a family translates to that family's orthorhombic index. */
  lemma TranslateFamily(f: Family, m: Triple)
    requires m in Members(f)
    ensures Translate(m) == Some(Canonical(f))
  {
  }

  /** Each of the four orthorhombic indices is produced by some accepted index. */
  lemma TranslateOnto(c: Triple)
    requires c in CanonicalIndices
    ensures exists m :: Translate(m) == Some(c)
  {
    if c == (1, 1, 0) {
      assert Translate((1, 0, 0)) == Some(c);
    } else if c == (0, 0, 1) {
      assert Translate((0, 0, 1)) == Some(c);
    } else if c == (1, 0, 0) {
      assert Translate((1, 1, 0)) == Some(c);
    } else {
      assert Translate((0, 1, 2)) == Some(c);
    }
  }

  /** The source's chain is the first-match lookup in the source's order. */
  lemma {:induction false} TranslateIsFirstMatch(m: Triple)
    ensures Translate(m) == FirstMatch(SourceOrder, m)
  {
    var tail3, tail2, tail1 := [Family012], [Family110, Family012], [Family001, Family110, Family012];
    assert tail3[1..] == [] && tail2[1..] == tail3 && tail1[1..] == tail2 && SourceOrder[1..] == tail1;
    assert FirstMatch(tail3, m) == if m in Plane012 then Some((0, 2, 2)) else None;
    assert FirstMatch(tail2, m) == if m in Plane110 then Some((1, 0, 0)) else FirstMatch(tail3, m);
    assert FirstMatch(tail1, m) == if m in Plane001 then Some((0, 0, 1)) else FirstMatch(tail2, m);
  }

  /** First-match lookup finds the family an index belongs to, wherever it stands in the order. */
  lemma {:induction false} FirstMatchFinds(order: seq<Family>, f: Family, m: Triple)
    requires f in order && m in Members(f)
    ensures FirstMatch(order, m) == Some(Canonical(f))
  {
    if m in Members(order[0]) {
      FamiliesDisjoint(order[0], f, m);
    } else {
      assert f in order[1..];
      FirstMatchFinds(order[1..], f, m);
    }
  }

  /** First-match lookup over families that do not hold the index finds nothing. */
  lemma {:induction false} FirstMatchMisses(order: seq<Family>, m: Triple)
    requires forall f :: f in order ==> m !in Members(f)
    ensures FirstMatch(order, m) == None
  {
    if order != [] {
      assert order[0] in order;
      forall f | f in order[1..] ensures m !in Members(f) {
        assert f in order;
      }
      FirstMatchMisses(order[1..], m);
    }
  }

  /**
   * Because the families are disjoint, the order of the if/elif chain
   * does not matter: any order that tests all four families agrees
   * with the source.
   */
  lemma OrderIrrelevant(order: seq<Family>, m: Triple)
    requires forall f :: f in order
    ensures FirstMatch(order, m) == Translate(m)
  {
    TranslateUnbound(m);
    if Translate(m) == None {
      FirstMatchMisses(order, m);
    } else {
      TranslateSpec(m, Translate(m).value);
      var f :| m in Members(f) && Translate(m).value == Canonical(f);
      FirstMatchFinds(order, f, m);
    }
  }

  /**
   * The (100), (001) and (110) families are closed under negation, so
   * an index and its negation translate alike.
   */
  lemma NegationClosed(f: Family, m: Triple)
    requires f != Family012 && m in Members(f)
    ensures Negate(m) in Members(f)
    ensures Translate(Negate(m)) == Translate(m)
  {
  }

  /**
   * The (012) family is not closed under negation: the negation of a
   * member stays in the family exactly when its h component is non-zero;
   * (0, 1, 2) and (0, -2, -2) are accepted, their negations are not.
   */
  lemma Plane012Negation(m: Triple)
    requires m in Plane012
    ensures Negate(m) in Plane012 <==> m.0 != 0
    ensures m.0 == 0 ==> Translate(Negate(m)) == None
  {
  }

  /** The list holds (0, -2, -2) where the (012) family would have (0, -1, -2). */
  lemma Plane012AsListed()
    ensures Translate((0, -2, -2)) == Some((0, 2, 2))
    ensures Translate((0, -1, -2)) == None
    ensures Translate((0, 1, 2)) == Some((0, 2, 2))
  {
  }

  /**
   * The comment beside the lists names (-1, 0, 2) as an equivalent of
   * (0, 1, 2), but the list does not hold it; the orthorhombic index
   * (0, 2, 2) is not itself accepted either.
   */
  lemma CommentedIndicesNotListed()
    ensures Translate((-1, 0, 2)) == None
    ensures Translate((0, 2, 2)) == None
  {
  }

  /**
   * The translation is not idempotent: it swaps (1, 0, 0) and (1, 1, 0),
   * so the input (1, 1, 0) is sent to a different index.
   */
  lemma TranslateSwaps100And110()
    ensures Translate((1, 1, 0)) == Some((1, 0, 0))
    ensures Translate((1, 0, 0)) == Some((1, 1, 0))
  {
  }
}
