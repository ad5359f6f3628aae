/** What `getRelationship` answers, stated on the raw links of a valid
    store: who is in each answer, that nobody is in it twice, and that its
    order is the order of creation. */
module Kinship {
  import opened Wrappers
  import opened Seqs
  import opened StableSort
  import opened PersonRecord
  import opened Tree

  /** `x` and `y` are different people with the same mother. */
  ghost predicate SiblingOf(m: Members, x: string, y: string)
    requires x in m && y in m
  {
    x != y && m[y].mother.Some? && m[x].mother == m[y].mother
  }

  /** An in-law through spouse `sp`: a sibling of `sp` of gender `g`, or the
      spouse of a sibling of `sp` of the other gender. */
  ghost predicate InLaw(m: Members, sp: string, x: string, g: Gender)
    requires Linked(m) && sp in m && x in m
  {
    || (SiblingOf(m, x, sp) && m[x].gender == g)
    || (&& m[x].spouse.Some?
        && SiblingOf(m, m[x].spouse.value, sp)
        && m[m[x].spouse.value].gender == Opposite(g))
  }

  /** The reference meaning of each relationship kind, on the `mother` and
      `spouse` links alone (paternal kinds go through `getFather`). */
  ghost predicate Kin(m: Members, n: string, rel: Relationship, x: string)
    requires Linked(m) && n in m && x in m
  {
    var p := m[n];
    match rel
    case Son => m[x].mother == Some(n) && m[x].gender == Male
    case Daughter => m[x].mother == Some(n) && m[x].gender == Female
    case Sibling => SiblingOf(m, x, n)
    case PaternalUncle =>
      Father(m, p).Some? && SiblingOf(m, x, Father(m, p).value) && m[x].gender == Male
    case MaternalUncle =>
      p.mother.Some? && SiblingOf(m, x, p.mother.value) && m[x].gender == Male
    case PaternalAunt =>
      Father(m, p).Some? && SiblingOf(m, x, Father(m, p).value) && m[x].gender == Female
    case MaternalAunt =>
      p.mother.Some? && SiblingOf(m, x, p.mother.value) && m[x].gender == Female
    case SisterInLaw => p.spouse.Some? && InLaw(m, p.spouse.value, x, Female)
    case BrotherInLaw => p.spouse.Some? && InLaw(m, p.spouse.value, x, Male)
  }

  /** In a valid store the children of `n` are exactly those whose mother is `n`. */
  lemma ChildrenMeaning(s: Store, n: string, x: string)
    requires Valid(s) && n in s.members
    ensures x in s.members[n].children <==> x in s.members && s.members[x].mother == Some(n)
  {
    var m := s.members;
    if x in m[n].children {
      assert ChildrenOk(m, n) && Resolves(m, m[n]);
    }
    if x in m && m[x].mother == Some(n) {
      assert MotherOk(m, x);
    }
  }

  /** `getSiblings` of `y` lists exactly the other children of `y`'s mother. */
  lemma SiblingsMeaning(s: Store, y: string, x: string)
    requires Valid(s) && y in s.members
    ensures x in Siblings(s.members, s.members[y]) <==> x in s.members && SiblingOf(s.members, x, y)
  {
    var m := s.members;
    assert m[y].name == y;
    match m[y].mother
    case None =>
    case Some(mo) => ChildrenMeaning(s, mo, x);
  }

  /** The in-law list for spouse `sp`: siblings of gender `g`, then the
      spouses of the married siblings of the other gender. */
  lemma InLawMeaning(s: Store, sp: string, x: string, g: Gender)
    requires Valid(s) && sp in s.members
    ensures
      var m := s.members;
      var sibs := Siblings(m, m[sp]);
      (x in OfGender(m, sibs, g) + SpouseNames(m, Married(m, OfGender(m, sibs, Opposite(g)))))
        <==> (x in m && InLaw(m, sp, x, g))
  {
    var m := s.members;
    var sibs := Siblings(m, m[sp]);
    var others := Married(m, OfGender(m, sibs, Opposite(g)));
    var wed := SpouseNames(m, others);
    SiblingsMeaning(s, sp, x);
    if x in wed {
      var i :| 0 <= i < |wed| && wed[i] == x;
      var b := others[i];
      assert m[b].spouse == Some(x);
      assert SpouseOk(m, b) && Resolves(m, m[b]);
      SiblingsMeaning(s, sp, b);
    }
    if x in m && m[x].spouse.Some? && SiblingOf(m, m[x].spouse.value, sp)
       && m[m[x].spouse.value].gender == Opposite(g) {
      var b := m[x].spouse.value;
      assert SpouseOk(m, x);
      SiblingsMeaning(s, sp, b);
      assert b in others;
      var i :| 0 <= i < |others| && others[i] == b;
      assert wed[i] == x;
    }
  }

  /** Who the derived list holds, for every kind. */
  lemma RelatedMembers(s: Store, n: string, rel: Relationship, x: string)
    requires Valid(s) && n in s.members
    ensures x in Related(s.members, n, rel) <==> x in s.members && Kin(s.members, n, rel, x)
  {
    var m := s.members;
    var p := m[n];
    match rel
    case Son => ChildrenMeaning(s, n, x);
    case Daughter => ChildrenMeaning(s, n, x);
    case Sibling => SiblingsMeaning(s, n, x);
    case PaternalUncle =>
      if Father(m, p).Some? {
        SiblingsMeaning(s, Father(m, p).value, x);
      }
    case PaternalAunt =>
      if Father(m, p).Some? {
        SiblingsMeaning(s, Father(m, p).value, x);
      }
    case MaternalUncle =>
      if p.mother.Some? {
        SiblingsMeaning(s, p.mother.value, x);
      }
    case MaternalAunt =>
      if p.mother.Some? {
        SiblingsMeaning(s, p.mother.value, x);
      }
    case SisterInLaw =>
      if p.spouse.Some? {
        InLawMeaning(s, p.spouse.value, x, Female);
      }
    case BrotherInLaw =>
      if p.spouse.Some? {
        InLawMeaning(s, p.spouse.value, x, Male);
      }
  }

  /** Siblings, and so brothers and sisters, are listed at most once. */
  lemma SiblingsDistinct(s: Store, y: string, g: Gender)
    requires Valid(s) && y in s.members
    ensures Distinct(Siblings(s.members, s.members[y]))
    ensures Distinct(OfGender(s.members, Siblings(s.members, s.members[y]), g))
  {
    var m := s.members;
    var sibs := Siblings(m, m[y]);
    if m[y].mother.Some? {
      var mo := m[y].mother.value;
      assert ChildrenOk(m, mo);
      SubseqDistinct(sibs, m[mo].children);
    }
    SubseqDistinct(OfGender(m, sibs, g), sibs);
  }

  /** Spouse links are one-to-one, so the spouses of distinct people are distinct. */
  lemma SpouseNamesDistinct(s: Store, ns: seq<string>)
    requires Valid(s) && Distinct(ns)
    requires forall n :: n in ns ==> n in s.members && s.members[n].spouse.Some?
    ensures Distinct(SpouseNames(s.members, ns))
  {
    var m := s.members;
    var r := SpouseNames(m, ns);
    forall i, j | 0 <= i < j < |r| ensures r[i] != r[j] {
      assert SpouseOk(m, ns[i]) && SpouseOk(m, ns[j]);
    }
  }

  /** No in-law is reached along both paths: a sibling of the spouse is
      never also married to another sibling of the spouse. */
  lemma InLawDistinct(s: Store, sp: string, g: Gender)
    requires Valid(s) && sp in s.members
    ensures
      var m := s.members;
      var sibs := Siblings(m, m[sp]);
      Distinct(OfGender(m, sibs, g) + SpouseNames(m, Married(m, OfGender(m, sibs, Opposite(g)))))
  {
    var m := s.members;
    var sibs := Siblings(m, m[sp]);
    var same := OfGender(m, sibs, g);
    var others := Married(m, OfGender(m, sibs, Opposite(g)));
    var wed := SpouseNames(m, others);
    SiblingsDistinct(s, sp, g);
    SiblingsDistinct(s, sp, Opposite(g));
    SubseqDistinct(others, OfGender(m, sibs, Opposite(g)));
    SpouseNamesDistinct(s, others);
    forall x, i | x in same && 0 <= i < |wed| ensures wed[i] != x {
      var b := others[i];
      SiblingsMeaning(s, sp, x);
      SiblingsMeaning(s, sp, b);
      assert SpouseOk(m, b);
    }
    DistinctConcat(same, wed);
  }

  /** No derived list holds anybody twice. */
  lemma RelatedDistinct(s: Store, n: string, rel: Relationship)
    requires Valid(s) && n in s.members
    ensures Distinct(Related(s.members, n, rel))
  {
    var m := s.members;
    var p := m[n];
    match rel
    case Son =>
      assert ChildrenOk(m, n);
      SubseqDistinct(Sons(m, p), p.children);
    case Daughter =>
      assert ChildrenOk(m, n);
      SubseqDistinct(Daughters(m, p), p.children);
    case Sibling => SiblingsDistinct(s, n, Male);
    case PaternalUncle =>
      if Father(m, p).Some? {
        SiblingsDistinct(s, Father(m, p).value, Male);
      }
    case PaternalAunt =>
      if Father(m, p).Some? {
        SiblingsDistinct(s, Father(m, p).value, Female);
      }
    case MaternalUncle =>
      if p.mother.Some? {
        SiblingsDistinct(s, p.mother.value, Male);
      }
    case MaternalAunt =>
      if p.mother.Some? {
        SiblingsDistinct(s, p.mother.value, Female);
      }
    case SisterInLaw =>
      if p.spouse.Some? {
        InLawDistinct(s, p.spouse.value, Female);
      }
    case BrotherInLaw =>
      if p.spouse.Some? {
        InLawDistinct(s, p.spouse.value, Male);
      }
  }

  /** A query answer names exactly the people the reference meaning picks. */
  lemma GetRelationshipMembers(s: Store, n: string, kind: string, x: string)
    requires Valid(s) && n in s.members && ParseRelationship(kind).Some?
    ensures x in GetRelationship(s, n, kind).value <==>
      x in s.members && Kin(s.members, n, ParseRelationship(kind).value, x)
  {
    var rel := ParseRelationship(kind).value;
    var r := GetRelationship(s, n, kind).value;
    RelatedMembers(s, n, rel, x);
    assert x in r <==> x in multiset(r);
    assert x in Related(s.members, n, rel) <==> x in multiset(Related(s.members, n, rel));
  }

  /** A query answer holds nobody twice and lists people strictly in the
      order they were created. */
  lemma GetRelationshipOrdered(s: Store, n: string, kind: string)
    requires Valid(s) && n in s.members && ParseRelationship(kind).Some?
    ensures var r := GetRelationship(s, n, kind).value;
      && Distinct(r)
      && (forall x :: x in r ==> x in s.members)
      && forall i, j :: 0 <= i < j < |r| ==> s.members[r[i]].createdAt < s.members[r[j]].createdAt
  {
    var rel := ParseRelationship(kind).value;
    RelatedDistinct(s, n, rel);
    SortByStamps(s, Related(s.members, n, rel));
  }

  /** Sorting duplicate-free member names by stamp orders them strictly. */
  lemma SortByStamps(s: Store, xs: seq<string>)
    requires Stamped(s) && Distinct(xs)
    requires forall x :: x in xs ==> x in s.members
    ensures var r := SortBy(xs, StampOf(s.members));
      && Distinct(r)
      && (forall x :: x in r ==> x in s.members)
      && forall i, j :: 0 <= i < j < |r| ==> s.members[r[i]].createdAt < s.members[r[j]].createdAt
  {
    var m := s.members;
    var r := SortBy(xs, StampOf(m));
    SortByNoDuplicates(xs, StampOf(m));
    forall x | x in r ensures x in m {
      assert x in multiset(r);
    }
    forall i, j | 0 <= i < j < |r| ensures m[r[i]].createdAt < m[r[j]].createdAt {
      assert r[i] in r && r[j] in r;
      assert StampOf(m)(r[i]) <= StampOf(m)(r[j]);
    }
  }

  /** The sort is stable: people sharing a creation stamp keep the order in
      which the derived list holds them. */
  lemma GetRelationshipStable(s: Store, n: string, kind: string, k: int)
    requires Linked(s.members) && n in s.members && ParseRelationship(kind).Some?
    ensures WithKey(GetRelationship(s, n, kind).value, StampOf(s.members), k)
         == WithKey(Related(s.members, n, ParseRelationship(kind).value), StampOf(s.members), k)
  {
    SortByStable(Related(s.members, n, ParseRelationship(kind).value), StampOf(s.members), k);
  }

  /** The answer is the ONLY duplicate-free, creation-ordered list of the
      people the reference meaning picks: it does not depend on the order in
      which the calls that built the tree were interleaved. */
  lemma GetRelationshipCanonical(s: Store, n: string, kind: string, q: seq<string>)
    requires Valid(s) && n in s.members && ParseRelationship(kind).Some?
    requires Distinct(q)
    requires forall x :: x in q <==> x in s.members && Kin(s.members, n, ParseRelationship(kind).value, x)
    requires forall i, j :: 0 <= i < j < |q| ==>
      q[i] in s.members && q[j] in s.members && s.members[q[i]].createdAt <= s.members[q[j]].createdAt
    ensures q == GetRelationship(s, n, kind).value
  {
    var m := s.members;
    var r := GetRelationship(s, n, kind).value;
    GetRelationshipOrdered(s, n, kind);
    forall x ensures x in q <==> x in r {
      GetRelationshipMembers(s, n, kind, x);
    }
    DistinctSameElements(q, r);
    assert SortedBy(q, StampOf(m)) by {
      forall i, j | 0 <= i < j < |q| ensures StampOf(m)(q[i]) <= StampOf(m)(q[j]) {
      }
    }
    forall x, y | x in q && y in q && StampOf(m)(x) == StampOf(m)(y) ensures x == y {
      assert x in m && y in m;
    }
    SortedPermutationUnique(q, r, StampOf(m));
  }

  /** The answer to a known kind, asked by its name, about a stored person. */
  lemma GetRelationshipOf(s: Store, n: string, rel: Relationship)
    requires Linked(s.members) && n in s.members
    ensures GetRelationship(s, n, KindName(rel)) ==
      Success(SortBy(Related(s.members, n, rel), StampOf(s.members)))
  {
    ParseKindName(rel, KindName(rel));
  }

  /** In-law answers are not deduplicated: their length is the number of the
      spouse's same-gender siblings plus the number of the spouse's married
      other-gender siblings. Without a spouse the answer is empty. */
  lemma InLawCount(s: Store, n: string)
    requires Linked(s.members) && n in s.members
    ensures var m := s.members;
      m[n].spouse.Some? ==>
        var sp := m[m[n].spouse.value];
        && GetRelationship(s, n, "SISTER_IN_LAW").Success?
        && |GetRelationship(s, n, "SISTER_IN_LAW").value| ==
             |Sisters(m, sp)| + |Married(m, Brothers(m, sp))|
        && GetRelationship(s, n, "BROTHER_IN_LAW").Success?
        && |GetRelationship(s, n, "BROTHER_IN_LAW").value| ==
             |Brothers(m, sp)| + |Married(m, Sisters(m, sp))|
    ensures s.members[n].spouse.None? ==>
      && GetRelationship(s, n, "SISTER_IN_LAW") == Success([])
      && GetRelationship(s, n, "BROTHER_IN_LAW") == Success([])
  {
    var m := s.members;
    GetRelationshipOf(s, n, SisterInLaw);
    GetRelationshipOf(s, n, BrotherInLaw);
    assert KindName(SisterInLaw) == "SISTER_IN_LAW";
    assert KindName(BrotherInLaw) == "BROTHER_IN_LAW";
    if m[n].spouse.None? {
      assert Related(m, n, SisterInLaw) == [] && Related(m, n, BrotherInLaw) == [];
      assert SortBy([], StampOf(m)) == [];
    }
  }

  /** An empty derived list is answered with []. */
  lemma EmptyAnswer(s: Store, n: string, rel: Relationship)
    requires Linked(s.members) && n in s.members && Related(s.members, n, rel) == []
    ensures GetRelationship(s, n, KindName(rel)) == Success([])
  {
    GetRelationshipOf(s, n, rel);
    assert SortBy([], StampOf(s.members)) == [];
  }

  /** A missing mother ends every maternal chain: no siblings, no uncles and
      no aunts on either side, since the father is found through the mother. */
  lemma NoMotherNoKin(s: Store, n: string)
    requires Linked(s.members) && n in s.members && s.members[n].mother.None?
    ensures GetRelationship(s, n, "SIBLINGS") == Success([])
    ensures GetRelationship(s, n, "PATERNAL_UNCLE") == Success([])
    ensures GetRelationship(s, n, "MATERNAL_UNCLE") == Success([])
    ensures GetRelationship(s, n, "PATERNAL_AUNT") == Success([])
    ensures GetRelationship(s, n, "MATERNAL_AUNT") == Success([])
  {
    NoMotherRelated(s, n, Sibling);
    NoMotherRelated(s, n, PaternalUncle);
    NoMotherRelated(s, n, MaternalUncle);
    NoMotherRelated(s, n, PaternalAunt);
    NoMotherRelated(s, n, MaternalAunt);
  }

  lemma NoMotherRelated(s: Store, n: string, rel: Relationship)
    requires Linked(s.members) && n in s.members && s.members[n].mother.None?
    requires rel in {Sibling, PaternalUncle, MaternalUncle, PaternalAunt, MaternalAunt}
    ensures GetRelationship(s, n, KindName(rel)) == Success([])
  {
    EmptyAnswer(s, n, rel);
  }

  /** The `getFather` fallback as written: when the mother has no spouse,
      the paternal queries answer with the MOTHER's brothers and sisters, the
      same as the maternal ones. */
  lemma UnmarriedMotherPaternalIsMaternal(s: Store, n: string)
    requires Linked(s.members) && n in s.members
    requires s.members[n].mother.Some? && s.members[n].mother.value in s.members
    requires s.members[s.members[n].mother.value].spouse.None?
    ensures GetRelationship(s, n, "PATERNAL_UNCLE") == GetRelationship(s, n, "MATERNAL_UNCLE")
    ensures GetRelationship(s, n, "PATERNAL_AUNT") == GetRelationship(s, n, "MATERNAL_AUNT")
  {
    assert KindName(PaternalUncle) == "PATERNAL_UNCLE" && KindName(MaternalUncle) == "MATERNAL_UNCLE";
    assert KindName(PaternalAunt) == "PATERNAL_AUNT" && KindName(MaternalAunt) == "MATERNAL_AUNT";
    SameRelated(s, n, PaternalUncle, MaternalUncle);
    SameRelated(s, n, PaternalAunt, MaternalAunt);
  }

  lemma SameRelated(s: Store, n: string, paternal: Relationship, maternal: Relationship)
    requires Linked(s.members) && n in s.members
    requires s.members[n].mother.Some? && s.members[n].mother.value in s.members
    requires s.members[s.members[n].mother.value].spouse.None?
    requires (paternal, maternal) in {(PaternalUncle, MaternalUncle), (PaternalAunt, MaternalAunt)}
    ensures GetRelationship(s, n, KindName(paternal)) == GetRelationship(s, n, KindName(maternal))
  {
    var m := s.members;
    assert Father(m, m[n]) == m[n].mother;
    GetRelationshipOf(s, n, paternal);
    GetRelationshipOf(s, n, maternal);
  }

  /** In a valid store `getFather` yields a MALE person exactly when the
      mother is married; otherwise it yields the mother, who is FEMALE. */
  lemma FatherGender(s: Store, n: string)
    requires Valid(s) && n in s.members && s.members[n].mother.Some?
    ensures var m := s.members;
      var f := Father(m, m[n]).value;
      (m[f].gender == Male <==> m[m[n].mother.value].spouse.Some?)
  {
    var m := s.members;
    var mo := m[n].mother.value;
    assert MotherOk(m, n) && Resolves(m, m[n]);
    assert SpouseOk(m, mo);
  }
}
