/** Scenarios of the service's own test suites, replayed on the model. */
module Scenarios {
  import opened Wrappers
  import opened StableSort
  import opened PersonRecord
  import opened Tree
  import opened TreeInvariant
  import opened Kinship

  method SpouseStep(s: Store, personName: string, spouseName: string) returns (t: Store)
    requires spouseName !in s.members && personName in s.members
    requires s.members[personName].spouse.None?
    ensures t.clock == s.clock + 1
    ensures t.members == s.members
      [spouseName := NewPerson(spouseName, Opposite(s.members[personName].gender), s.clock).(spouse := Some(personName))]
      [personName := s.members[personName].(spouse := Some(spouseName))]
  {
    AddSpouseShape(s, personName, spouseName);
    t := AddSpouse(s, personName, spouseName).value;
  }

  method ChildStep(s: Store, personName: string, childName: string, gender: Gender) returns (t: Store)
    requires childName !in s.members && personName in s.members
    requires s.members[personName].gender == Female
    ensures t.clock == s.clock + 1
    ensures t.members == s.members
      [personName := s.members[personName].(children := s.members[personName].children + [childName])]
      [childName := NewPerson(childName, gender, s.clock).(mother := Some(personName))]
  {
    AddChildShape(s, personName, childName, gender);
    t := AddChild(s, personName, childName, gender).value;
  }

  /** The tree of the PATERNAL_UNCLE test, as the calls leave it. */
  function UncleFamily(jane: string, michael: string, conny: string, david: string, robert: string, emily: string): Members {
    map[jane := Person(jane, Female, None, None, [michael, david, robert], 0),
        michael := Person(michael, Male, Some(jane), Some(conny), [], 1),
        conny := Person(conny, Female, None, Some(michael), [emily], 2),
        david := Person(david, Male, Some(jane), None, [], 3),
        robert := Person(robert, Male, Some(jane), None, [], 4),
        emily := Person(emily, Female, Some(conny), None, [], 5)]
  }

  /** A mother, her son and his wife: Jane, Michael and Conny. */
  method UncleFamilyStart(jane: string, michael: string, conny: string) returns (s: Store)
    requires jane != michael && jane != conny && michael != conny
    ensures s.clock == 3
    ensures s.members == map[jane := Person(jane, Female, None, None, [michael], 0),
                             michael := Person(michael, Male, Some(jane), Some(conny), [], 1),
                             conny := Person(conny, Female, None, Some(michael), [], 2)]
  {
    var J := Person(jane, Female, None, None, [], 0);
    var s1 := AddPerson(Empty(), jane, Female).value;
    assert s1 == Store(map[jane := J], 1);
    var s2 := ChildStep(s1, jane, michael, Male);
    assert J.children + [michael] == [michael];
    s := SpouseStep(s2, michael, conny);
  }

  /** Six pairwise different names. */
  predicate Apart(a: string, b: string, c: string, d: string, e: string, f: string) {
    && a != b && a != c && a != d && a != e && a != f
    && b != c && b != d && b != e && b != f
    && c != d && c != e && c != f
    && d != e && d != f && e != f
  }

  lemma UncleFamilyLinked(jane: string, michael: string, conny: string, david: string, robert: string, emily: string)
    requires Apart(jane, michael, conny, david, robert, emily)
    ensures Linked(UncleFamily(jane, michael, conny, david, robert, emily))
  {
  }

  lemma UncleFamilyBrothers(jane: string, michael: string, conny: string, david: string, robert: string, emily: string)
    requires Apart(jane, michael, conny, david, robert, emily)
    requires Linked(UncleFamily(jane, michael, conny, david, robert, emily))
    ensures var m := UncleFamily(jane, michael, conny, david, robert, emily);
      Brothers(m, m[michael]) == [david, robert]
  {
    var m := UncleFamily(jane, michael, conny, david, robert, emily);
    assert [michael, david, robert][1..] == [david, robert];
    assert [david, robert][1..] == [robert];
    assert Without([robert], michael) == [robert];
    assert Without([david, robert], michael) == [david, robert];
    assert Siblings(m, m[michael]) == [david, robert];
    assert OfGender(m, [robert], Male) == [robert];
    assert OfGender(m, [david, robert], Male) == [david, robert];
  }

  lemma UncleFamilyRelated(jane: string, michael: string, conny: string, david: string, robert: string, emily: string)
    requires Apart(jane, michael, conny, david, robert, emily)
    requires Linked(UncleFamily(jane, michael, conny, david, robert, emily))
    ensures var m := UncleFamily(jane, michael, conny, david, robert, emily);
      Related(m, emily, PaternalUncle) == [david, robert]
  {
    var m := UncleFamily(jane, michael, conny, david, robert, emily);
    UncleFamilyBrothers(jane, michael, conny, david, robert, emily);
    assert m[emily].mother == Some(conny) && m[conny].spouse == Some(michael);
    assert Father(m, m[emily]) == Some(michael);
  }

  lemma UncleFamilySorted(jane: string, michael: string, conny: string, david: string, robert: string, emily: string)
    requires Apart(jane, michael, conny, david, robert, emily)
    ensures var m := UncleFamily(jane, michael, conny, david, robert, emily);
      SortBy([david, robert], StampOf(m)) == [david, robert]
  {
    var m := UncleFamily(jane, michael, conny, david, robert, emily);
    assert StampOf(m)(david) == 3 && StampOf(m)(robert) == 4;
    assert [david, robert][1..] == [robert];
    assert [robert][1..] == [];
  }

  /** Emily's father is Michael, whose brothers are David and Robert. */
  lemma UncleFamilyAnswer(jane: string, michael: string, conny: string, david: string, robert: string, emily: string)
    requires Apart(jane, michael, conny, david, robert, emily)
    ensures Linked(UncleFamily(jane, michael, conny, david, robert, emily))
    ensures GetRelationship(Store(UncleFamily(jane, michael, conny, david, robert, emily), 6), emily, "PATERNAL_UNCLE")
      == Success([david, robert])
  {
    var m := UncleFamily(jane, michael, conny, david, robert, emily);
    UncleFamilyLinked(jane, michael, conny, david, robert, emily);
    UncleFamilyRelated(jane, michael, conny, david, robert, emily);
    UncleFamilySorted(jane, michael, conny, david, robert, emily);
    assert KindName(PaternalUncle) == "PATERNAL_UNCLE";
    GetRelationshipOf(Store(m, 6), emily, PaternalUncle);
  }

  /** The PATERNAL_UNCLE test: Jane has the sons Michael, David and Robert;
      Michael marries Conny, whose daughter is Emily. Emily's paternal uncles
      are David and Robert, in that order. */
  method PaternalUncleScenario(jane: string, michael: string, conny: string, david: string, robert: string, emily: string)
    returns (answer: Result<seq<string>, Error>)
    requires Apart(jane, michael, conny, david, robert, emily)
    ensures answer == Success([david, robert])
  {
    var s6 := UncleFamilyBuild(jane, michael, conny, david, robert, emily);
    UncleFamilyAnswer(jane, michael, conny, david, robert, emily);
    answer := GetRelationship(s6, emily, "PATERNAL_UNCLE");
  }

  /** The calls of the PATERNAL_UNCLE test build `UncleFamily`. */
  method UncleFamilyBuild(jane: string, michael: string, conny: string, david: string, robert: string, emily: string)
    returns (s6: Store)
    requires Apart(jane, michael, conny, david, robert, emily)
    ensures s6 == Store(UncleFamily(jane, michael, conny, david, robert, emily), 6)
  {
    var s3 := UncleFamilyStart(jane, michael, conny);
    var s4 := ChildStep(s3, jane, david, Male);
    assert [michael] + [david] == [michael, david];
    var s5 := ChildStep(s4, jane, robert, Male);
    assert [michael, david] + [robert] == [michael, david, robert];
    s6 := ChildStep(s5, conny, emily, Female);
    assert [] + [emily] == [emily];
  }

  /** Eight pairwise different names. */
  predicate Apart8(a: string, b: string, c: string, d: string, e: string, f: string, g: string, h: string) {
    && Apart(a, b, c, d, e, f)
    && g != a && g != b && g != c && g != d && g != e && g != f
    && h != a && h != b && h != c && h != d && h != e && h != f && h != g
  }

  /** The tree of the SISTER_IN_LAW test, as the calls leave it. */
  function InLawFamily(jane: string, lara: string, emily: string, sarah: string, kurt: string, russel: string,
                       fiona: string, michael: string): Members {
    map[jane := Person(jane, Female, None, None, [lara, emily, sarah, kurt, russel], 0),
        lara := Person(lara, Female, Some(jane), Some(michael), [], 1),
        emily := Person(emily, Female, Some(jane), None, [], 2),
        sarah := Person(sarah, Female, Some(jane), None, [], 3),
        kurt := Person(kurt, Male, Some(jane), Some(fiona), [], 4),
        russel := Person(russel, Male, Some(jane), None, [], 5),
        fiona := Person(fiona, Female, None, Some(kurt), [], 6),
        michael := Person(michael, Male, None, Some(lara), [], 7)]
  }

  /** Jane and her first daughter Lara. */
  method MotherAndDaughter(jane: string, lara: string) returns (s: Store)
    requires jane != lara
    ensures s.clock == 2
    ensures s.members == map[jane := Person(jane, Female, None, None, [lara], 0),
                             lara := Person(lara, Female, Some(jane), None, [], 1)]
  {
    var J := Person(jane, Female, None, None, [], 0);
    var s1 := AddPerson(Empty(), jane, Female).value;
    assert s1 == Store(map[jane := J], 1);
    s := ChildStep(s1, jane, lara, Female);
    assert J.children + [lara] == [lara];
  }

  /** Jane and her daughters Lara, Emily and Sarah. */
  method InLawFamilyDaughters(jane: string, lara: string, emily: string, sarah: string) returns (s: Store)
    requires jane != lara && jane != emily && jane != sarah && lara != emily && lara != sarah && emily != sarah
    ensures s.clock == 4
    ensures s.members == map[jane := Person(jane, Female, None, None, [lara, emily, sarah], 0),
                             lara := Person(lara, Female, Some(jane), None, [], 1),
                             emily := Person(emily, Female, Some(jane), None, [], 2),
                             sarah := Person(sarah, Female, Some(jane), None, [], 3)]
  {
    var s2 := MotherAndDaughter(jane, lara);
    var s3 := ChildStep(s2, jane, emily, Female);
    assert [lara] + [emily] == [lara, emily];
    s := ChildStep(s3, jane, sarah, Female);
    assert [lara, emily] + [sarah] == [lara, emily, sarah];
  }

  /** ... then her sons Kurt and Russel. */
  method InLawFamilyChildren(jane: string, lara: string, emily: string, sarah: string, kurt: string, russel: string)
    returns (s: Store)
    requires Apart(jane, lara, emily, sarah, kurt, russel)
    ensures s.clock == 6
    ensures s.members == map[jane := Person(jane, Female, None, None, [lara, emily, sarah, kurt, russel], 0),
                             lara := Person(lara, Female, Some(jane), None, [], 1),
                             emily := Person(emily, Female, Some(jane), None, [], 2),
                             sarah := Person(sarah, Female, Some(jane), None, [], 3),
                             kurt := Person(kurt, Male, Some(jane), None, [], 4),
                             russel := Person(russel, Male, Some(jane), None, [], 5)]
  {
    var s4 := InLawFamilyDaughters(jane, lara, emily, sarah);
    var s5 := ChildStep(s4, jane, kurt, Male);
    assert [lara, emily, sarah] + [kurt] == [lara, emily, sarah, kurt];
    s := ChildStep(s5, jane, russel, Male);
    assert [lara, emily, sarah, kurt] + [russel] == [lara, emily, sarah, kurt, russel];
  }

  lemma InLawFamilyLinked(jane: string, lara: string, emily: string, sarah: string, kurt: string, russel: string,
                          fiona: string, michael: string)
    requires Apart8(jane, lara, emily, sarah, kurt, russel, fiona, michael)
    ensures Linked(InLawFamily(jane, lara, emily, sarah, kurt, russel, fiona, michael))
  {
  }

  /** Lara's siblings split into the sisters Emily and Sarah and the brothers
      Kurt and Russel; only the lookups the views make are assumed of `m`. */
  lemma FiveChildren(m: Members, jane: string, lara: string, emily: string, sarah: string, kurt: string, russel: string)
    requires Linked(m) && Apart(jane, lara, emily, sarah, kurt, russel)
    requires lara in m && jane in m && emily in m && sarah in m && kurt in m && russel in m
    requires m[lara].name == lara && m[lara].mother == Some(jane)
    requires m[jane].children == [lara, emily, sarah, kurt, russel]
    requires m[emily].gender == Female && m[sarah].gender == Female
    requires m[kurt].gender == Male && m[russel].gender == Male
    ensures Sisters(m, m[lara]) == [emily, sarah]
    ensures Brothers(m, m[lara]) == [kurt, russel]
  {
    FiveSiblings(m, jane, lara, emily, sarah, kurt, russel);
    FourGenders(m, emily, sarah, kurt, russel);
  }

  lemma FiveSiblings(m: Members, jane: string, lara: string, emily: string, sarah: string, kurt: string, russel: string)
    requires Linked(m) && Apart(jane, lara, emily, sarah, kurt, russel)
    requires lara in m && jane in m
    requires m[lara].name == lara && m[lara].mother == Some(jane)
    requires m[jane].children == [lara, emily, sarah, kurt, russel]
    ensures Siblings(m, m[lara]) == [emily, sarah, kurt, russel]
  {
    assert [lara, emily, sarah, kurt, russel][1..] == [emily, sarah, kurt, russel];
    assert [emily, sarah, kurt, russel][1..] == [sarah, kurt, russel];
    assert [sarah, kurt, russel][1..] == [kurt, russel];
    assert [kurt, russel][1..] == [russel];
    assert Without([russel], lara) == [russel];
    assert Without([kurt, russel], lara) == [kurt, russel];
    assert Without([sarah, kurt, russel], lara) == [sarah, kurt, russel];
    assert Without([emily, sarah, kurt, russel], lara) == [emily, sarah, kurt, russel];
  }

  lemma FourGenders(m: Members, emily: string, sarah: string, kurt: string, russel: string)
    requires emily in m && sarah in m && kurt in m && russel in m
    requires m[emily].gender == Female && m[sarah].gender == Female
    requires m[kurt].gender == Male && m[russel].gender == Male
    ensures OfGender(m, [emily, sarah, kurt, russel], Female) == [emily, sarah]
    ensures OfGender(m, [emily, sarah, kurt, russel], Male) == [kurt, russel]
  {
    assert [emily, sarah, kurt, russel][1..] == [sarah, kurt, russel];
    assert [sarah, kurt, russel][1..] == [kurt, russel];
    assert [kurt, russel][1..] == [russel];
    assert OfGender(m, [russel], Female) == [];
    assert OfGender(m, [kurt, russel], Female) == [];
    assert OfGender(m, [sarah, kurt, russel], Female) == [sarah];
    assert OfGender(m, [russel], Male) == [russel];
    assert OfGender(m, [kurt, russel], Male) == [kurt, russel];
    assert OfGender(m, [sarah, kurt, russel], Male) == [kurt, russel];
  }

  /** Michael, married to Lara, has as sisters-in-law Lara's sisters and the
      wife of her one married brother, in creation order. */
  lemma SistersInLaw(m: Members, clock: nat, jane: string, lara: string, emily: string, sarah: string,
                     kurt: string, russel: string, fiona: string, michael: string)
    requires Linked(m) && Apart(jane, lara, emily, sarah, kurt, russel)
    requires lara in m && jane in m && emily in m && sarah in m && kurt in m && russel in m
    requires m[lara].name == lara && m[lara].mother == Some(jane)
    requires m[jane].children == [lara, emily, sarah, kurt, russel]
    requires m[emily].gender == Female && m[sarah].gender == Female
    requires m[kurt].gender == Male && m[russel].gender == Male
    requires michael in m && m[michael].spouse == Some(lara)
    requires m[kurt].spouse == Some(fiona) && m[russel].spouse.None? && fiona in m
    requires m[emily].createdAt < m[sarah].createdAt < m[fiona].createdAt
    ensures GetRelationship(Store(m, clock), michael, "SISTER_IN_LAW") == Success([emily, sarah, fiona])
  {
    SistersInLawRelated(m, jane, lara, emily, sarah, kurt, russel, fiona, michael);
    assert SortedBy([emily, sarah, fiona], StampOf(m)) by {
      assert StampOf(m)(emily) < StampOf(m)(sarah) < StampOf(m)(fiona);
    }
    assert KindName(SisterInLaw) == "SISTER_IN_LAW";
    AnswerInOrder(Store(m, clock), michael, SisterInLaw, [emily, sarah, fiona]);
  }

  lemma SistersInLawRelated(m: Members, jane: string, lara: string, emily: string, sarah: string,
                            kurt: string, russel: string, fiona: string, michael: string)
    requires Linked(m) && Apart(jane, lara, emily, sarah, kurt, russel)
    requires lara in m && jane in m && emily in m && sarah in m && kurt in m && russel in m
    requires m[lara].name == lara && m[lara].mother == Some(jane)
    requires m[jane].children == [lara, emily, sarah, kurt, russel]
    requires m[emily].gender == Female && m[sarah].gender == Female
    requires m[kurt].gender == Male && m[russel].gender == Male
    requires michael in m && m[michael].spouse == Some(lara)
    requires m[kurt].spouse == Some(fiona) && m[russel].spouse.None?
    ensures Related(m, michael, SisterInLaw) == [emily, sarah, fiona]
  {
    FiveChildren(m, jane, lara, emily, sarah, kurt, russel);
    InLawTail(m, kurt, russel, fiona);
    SisterInLawUnfold(m, michael, lara);
    assert Sisters(m, m[lara]) + [fiona] == [emily, sarah, fiona];
  }

  /** A derived list that is already in creation order is the answer as is. */
  lemma AnswerInOrder(s: Store, n: string, rel: Relationship, xs: seq<string>)
    requires Linked(s.members) && n in s.members
    requires Related(s.members, n, rel) == xs
    requires SortedBy(xs, StampOf(s.members))
    ensures GetRelationship(s, n, KindName(rel)) == Success(xs)
  {
    GetRelationshipOf(s, n, rel);
    SortBySorted(xs, StampOf(s.members));
  }

  lemma SisterInLawUnfold(m: Members, n: string, sp: string)
    requires Linked(m) && n in m && m[n].spouse == Some(sp)
    ensures Related(m, n, SisterInLaw) == Sisters(m, m[sp]) + SpouseNames(m, Married(m, Brothers(m, m[sp])))
  {
  }

  /** Of the brothers Kurt and Russel only Kurt is married, to Fiona. */
  lemma InLawTail(m: Members, kurt: string, russel: string, fiona: string)
    requires kurt in m && russel in m
    requires m[kurt].spouse == Some(fiona) && m[russel].spouse.None?
    ensures Married(m, [kurt, russel]) == [kurt]
    ensures SpouseNames(m, [kurt]) == [fiona]
  {
    assert [kurt, russel][1..] == [russel];
    assert Married(m, [russel]) == [];
  }

  /** Michael's sisters-in-law are Emily, Sarah and Fiona, in that order. */
  lemma InLawFamilyAnswer(jane: string, lara: string, emily: string, sarah: string, kurt: string, russel: string,
                          fiona: string, michael: string)
    requires Apart8(jane, lara, emily, sarah, kurt, russel, fiona, michael)
    ensures Linked(InLawFamily(jane, lara, emily, sarah, kurt, russel, fiona, michael))
    ensures GetRelationship(Store(InLawFamily(jane, lara, emily, sarah, kurt, russel, fiona, michael), 8),
                            michael, "SISTER_IN_LAW") == Success([emily, sarah, fiona])
  {
    var m := InLawFamily(jane, lara, emily, sarah, kurt, russel, fiona, michael);
    InLawFamilyLinked(jane, lara, emily, sarah, kurt, russel, fiona, michael);
    SistersInLaw(m, 8, jane, lara, emily, sarah, kurt, russel, fiona, michael);
  }

  /** The SISTER_IN_LAW test: Jane's children are Lara, Emily, Sarah, Kurt
      and Russel; Kurt marries Fiona, then Lara marries Michael. Michael's
      sisters-in-law are Lara's sisters followed by her married brother's
      wife, ordered by creation. */
  method SisterInLawScenario(jane: string, lara: string, emily: string, sarah: string, kurt: string, russel: string,
                             fiona: string, michael: string)
    returns (answer: Result<seq<string>, Error>)
    requires Apart8(jane, lara, emily, sarah, kurt, russel, fiona, michael)
    ensures answer == Success([emily, sarah, fiona])
  {
    var s8 := InLawFamilyBuild(jane, lara, emily, sarah, kurt, russel, fiona, michael);
    InLawFamilyAnswer(jane, lara, emily, sarah, kurt, russel, fiona, michael);
    answer := GetRelationship(s8, michael, "SISTER_IN_LAW");
  }

  /** The calls of the SISTER_IN_LAW test build `InLawFamily`. */
  method InLawFamilyBuild(jane: string, lara: string, emily: string, sarah: string, kurt: string, russel: string,
                          fiona: string, michael: string)
    returns (s8: Store)
    requires Apart8(jane, lara, emily, sarah, kurt, russel, fiona, michael)
    ensures s8 == Store(InLawFamily(jane, lara, emily, sarah, kurt, russel, fiona, michael), 8)
  {
    var s6 := InLawFamilyChildren(jane, lara, emily, sarah, kurt, russel);
    var s7 := SpouseStep(s6, kurt, fiona);
    s8 := SpouseStep(s7, lara, michael);
  }

  /** Ginerva's branch of the royal tree: her sons James and Albus, their
      wives Darcy and Alice, and her daughter Lily. */
  function PotterFamily(ginerva: string, james: string, darcy: string, albus: string, alice: string, lily: string): Members {
    map[ginerva := Person(ginerva, Female, None, None, [james, albus, lily], 0),
        james := Person(james, Male, Some(ginerva), Some(darcy), [], 1),
        darcy := Person(darcy, Female, None, Some(james), [], 2),
        albus := Person(albus, Male, Some(ginerva), Some(alice), [], 3),
        alice := Person(alice, Female, None, Some(albus), [], 4),
        lily := Person(lily, Female, Some(ginerva), None, [], 5)]
  }

  /** Darcy's husband James has the sister Lily and the married brother
      Albus, whose wife is Alice. */
  lemma PotterRelated(m: Members, ginerva: string, james: string, darcy: string, albus: string, alice: string, lily: string)
    requires Linked(m) && james != albus && james != lily && albus != lily
    requires ginerva in m && james in m && darcy in m && albus in m && lily in m
    requires m[james].name == james && m[james].mother == Some(ginerva)
    requires m[ginerva].children == [james, albus, lily]
    requires m[albus].gender == Male && m[lily].gender == Female
    requires m[darcy].spouse == Some(james)
    requires m[albus].spouse == Some(alice) && m[lily].spouse.None?
    ensures Related(m, darcy, SisterInLaw) == [lily, alice]
  {
    assert [james, albus, lily][1..] == [albus, lily];
    assert [albus, lily][1..] == [lily];
    assert Without([lily], james) == [lily];
    assert Without([albus, lily], james) == [albus, lily];
    assert Siblings(m, m[james]) == [albus, lily];
    assert OfGender(m, [lily], Female) == [lily];
    assert OfGender(m, [albus, lily], Female) == [lily];
    assert OfGender(m, [lily], Male) == [];
    assert OfGender(m, [albus, lily], Male) == [albus];
    assert Married(m, [albus]) == [albus];
    assert SpouseNames(m, [albus]) == [alice];
    SisterInLawUnfold(m, darcy, james);
  }

  /** Alice joined the tree before Lily, so she comes first. */
  lemma PotterSorted(m: Members, alice: string, lily: string)
    requires alice in m && lily in m && m[alice].createdAt < m[lily].createdAt
    ensures SortBy([lily, alice], StampOf(m)) == [alice, lily]
  {
    assert [lily, alice][1..] == [alice];
    assert [alice][1..] == [];
    assert SortBy([alice], StampOf(m)) == [alice];
  }

  lemma PotterFamilyLinked(ginerva: string, james: string, darcy: string, albus: string, alice: string, lily: string)
    requires Apart(ginerva, james, darcy, albus, alice, lily)
    ensures Linked(PotterFamily(ginerva, james, darcy, albus, alice, lily))
  {
  }

  lemma PotterFamilyRelated(ginerva: string, james: string, darcy: string, albus: string, alice: string, lily: string)
    requires Apart(ginerva, james, darcy, albus, alice, lily)
    requires Linked(PotterFamily(ginerva, james, darcy, albus, alice, lily))
    ensures var m := PotterFamily(ginerva, james, darcy, albus, alice, lily);
      && Related(m, darcy, SisterInLaw) == [lily, alice]
      && SortBy([lily, alice], StampOf(m)) == [alice, lily]
  {
    var m := PotterFamily(ginerva, james, darcy, albus, alice, lily);
    PotterRelated(m, ginerva, james, darcy, albus, alice, lily);
    PotterSorted(m, alice, lily);
  }

  lemma PotterFamilyAnswer(ginerva: string, james: string, darcy: string, albus: string, alice: string, lily: string)
    requires Apart(ginerva, james, darcy, albus, alice, lily)
    ensures Linked(PotterFamily(ginerva, james, darcy, albus, alice, lily))
    ensures GetRelationship(Store(PotterFamily(ginerva, james, darcy, albus, alice, lily), 6), darcy, "SISTER_IN_LAW")
      == Success([alice, lily])
  {
    var m := PotterFamily(ginerva, james, darcy, albus, alice, lily);
    PotterFamilyLinked(ginerva, james, darcy, albus, alice, lily);
    PotterFamilyRelated(ginerva, james, darcy, albus, alice, lily);
    assert KindName(SisterInLaw) == "SISTER_IN_LAW";
    GetRelationshipOf(Store(m, 6), darcy, SisterInLaw);
  }

  /** The "Darcy Sister in Law" test of the royal tree: the derived list is
      Lily then Alice, and ordering by creation makes it Alice then Lily.
      The rest of the royal tree does not reach this answer and is omitted. */
  method SisterInLawOrderScenario(ginerva: string, james: string, darcy: string, albus: string, alice: string, lily: string)
    returns (answer: Result<seq<string>, Error>)
    requires Apart(ginerva, james, darcy, albus, alice, lily)
    ensures answer == Success([alice, lily])
  {
    var s6 := PotterFamilyBuild(ginerva, james, darcy, albus, alice, lily);
    PotterFamilyAnswer(ginerva, james, darcy, albus, alice, lily);
    answer := GetRelationship(s6, darcy, "SISTER_IN_LAW");
  }

  /** The calls that create Ginerva's branch build `PotterFamily`. */
  method PotterFamilyBuild(ginerva: string, james: string, darcy: string, albus: string, alice: string, lily: string)
    returns (s6: Store)
    requires Apart(ginerva, james, darcy, albus, alice, lily)
    ensures s6 == Store(PotterFamily(ginerva, james, darcy, albus, alice, lily), 6)
  {
    var s3 := UncleFamilyStart(ginerva, james, darcy);
    var s4 := ChildStep(s3, ginerva, albus, Male);
    assert [james] + [albus] == [james, albus];
    var s5 := SpouseStep(s4, albus, alice);
    s6 := ChildStep(s5, ginerva, lily, Female);
    assert [james, albus] + [lily] == [james, albus, lily];
  }

  /** The rejection tests of the service suite, one ensures per test. */
  lemma RejectionScenarios(john: string, jane: string, mary: string)
    requires john != jane && john != mary && jane != mary
    ensures var one := AddPerson(Empty(), john, Male).value;
      && AddPerson(one, john, Male) == Failure(PersonAlreadyExists)
      && AddChild(one, john, jane, Female) == Failure(NotFemale)
      && AddSpouse(AddPerson(one, jane, Female).value, john, jane) == Failure(SpouseAlreadyExists)
      && AddSpouse(AddSpouse(one, john, jane).value, john, mary) == Failure(AlreadyHasSpouse)
    ensures Message(GetPerson(Empty(), john).error) == "Person " + john + " doesn't exist"
    ensures Message(GetRelationship(Empty(), john, "SON").error) == "Person " + john + " does not exist."
  {
  }
}
