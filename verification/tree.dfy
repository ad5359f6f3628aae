/** The family-tree service (src/services/tree.service.ts): a name-keyed
    store of person records, its insert-only operations and the
    relationship query. Each operation is a pure function from the store to
    `Result<Store, Error>`; a `Failure` carries no store, so a call that
    throws leaves the caller's store exactly as it was. */
module Tree {
  import opened Wrappers
  import opened Seqs
  import opened StableSort
  import opened PersonRecord

  /** The errors the service throws, one per message text. */
  datatype Error =
    | PersonAlreadyExists
    | PersonNotFound(name: string)
    | SpouseAlreadyExists
    | AlreadyHasSpouse
    | ChildAlreadyExists
    | NotFemale
    | NoSuchPerson(name: string)
    | UnknownRelationship(kind: string)

  /** The text of the thrown `Error`. `getPerson` and `getRelationship`
      word their not-found messages differently. */
  function Message(e: Error): string {
    match e
    case PersonAlreadyExists => "Person already exists"
    case PersonNotFound(n) => "Person " + n + " doesn't exist"
    case SpouseAlreadyExists => "Spouse already exists"
    case AlreadyHasSpouse => "Person already has a spouse"
    case ChildAlreadyExists => "Child already exists"
    case NotFemale => "Person is not female"
    case NoSuchPerson(n) => "Person " + n + " does not exist."
    case UnknownRelationship(k) => "Unknown relationship " + k + "."
  }

  /** The closed set of relationship kinds a query may ask for. */
  datatype Relationship =
    | Son | Daughter | Sibling
    | PaternalUncle | MaternalUncle | PaternalAunt | MaternalAunt
    | SisterInLaw | BrotherInLaw

  /** The string value of each relationship kind. */
  function KindName(rel: Relationship): string {
    match rel
    case Son => "SON"
    case Daughter => "DAUGHTER"
    case Sibling => "SIBLINGS"
    case PaternalUncle => "PATERNAL_UNCLE"
    case MaternalUncle => "MATERNAL_UNCLE"
    case PaternalAunt => "PATERNAL_AUNT"
    case MaternalAunt => "MATERNAL_AUNT"
    case SisterInLaw => "SISTER_IN_LAW"
    case BrotherInLaw => "BROTHER_IN_LAW"
  }

  /** The `switch` of `getRelationship`: which kind, if any, a value names. */
  function ParseRelationship(kind: string): (r: Option<Relationship>)
    ensures r.Some? ==> KindName(r.value) == kind
  {
    if kind == "SON" then Some(Son)
    else if kind == "DAUGHTER" then Some(Daughter)
    else if kind == "SIBLINGS" then Some(Sibling)
    else if kind == "PATERNAL_UNCLE" then Some(PaternalUncle)
    else if kind == "MATERNAL_UNCLE" then Some(MaternalUncle)
    else if kind == "PATERNAL_AUNT" then Some(PaternalAunt)
    else if kind == "MATERNAL_AUNT" then Some(MaternalAunt)
    else if kind == "SISTER_IN_LAW" then Some(SisterInLaw)
    else if kind == "BROTHER_IN_LAW" then Some(BrotherInLaw)
    else None
  }

  /** Every kind is recognised by its own name, and by no other value. */
  lemma ParseKindName(rel: Relationship, kind: string)
    ensures ParseRelationship(KindName(rel)) == Some(rel)
    ensures ParseRelationship(kind) == Some(rel) <==> kind == KindName(rel)
  {
  }

  /** The service state: all members by name, and the counter that hands out
      creation stamps. */
  datatype Store = Store(members: Members, clock: nat)

  /** A new service holds no members. */
  function Empty(): (s: Store)
    ensures |s.members| == 0
  {
    Store(map[], 0)
  }

  /** The gender `addSpouse` gives a new spouse. */
  function Opposite(g: Gender): (r: Gender)
    ensures r != g
  {
    if g == Male then Female else Male
  }

  // ----- The store invariant -----

  /** Each record is stored under its own name. */
  ghost predicate Named(m: Members) {
    forall n :: n in m ==> m[n].name == n
  }

  /** Stamps were handed out by the counter: each is below it and no two
      members share one. */
  ghost predicate Stamped(s: Store) {
    && (forall n :: n in s.members ==> s.members[n].createdAt < s.clock)
    && (forall a, b :: a in s.members && b in s.members && s.members[a].createdAt == s.members[b].createdAt ==> a == b)
  }

  /** The spouse link of `n`, if any, is mutual, not reflexive, joins
      opposite genders, and at least one partner of the couple joined the
      tree as a spouse, that is, without a mother. */
  ghost predicate SpouseOk(m: Members, n: string)
    requires Linked(m) && n in m
  {
    m[n].spouse.Some? ==>
      var q := m[n].spouse.value;
      && q != n
      && m[q].spouse == Some(n)
      && m[q].gender == Opposite(m[n].gender)
      && (m[n].mother.None? || m[q].mother.None?)
  }

  /** The mother of `n`, if any, is FEMALE and lists `n` among her children. */
  ghost predicate MotherOk(m: Members, n: string)
    requires Linked(m) && n in m
  {
    m[n].mother.Some? ==>
      m[m[n].mother.value].gender == Female && n in m[m[n].mother.value].children
  }

  /** Each child of `n` is listed once and has `n` as its mother. */
  ghost predicate ChildrenOk(m: Members, n: string)
    requires Linked(m) && n in m
  {
    && Distinct(m[n].children)
    && forall c :: c in m[n].children ==> m[c].mother == Some(n)
  }

  /** Spouse links are mutual, and `mother` links and `children` lists
      describe the same edges. */
  ghost predicate LinksAgree(m: Members)
    requires Linked(m)
  {
    forall n :: n in m ==> SpouseOk(m, n) && MotherOk(m, n) && ChildrenOk(m, n)
  }

  /** What every store built by the operations satisfies. */
  ghost predicate Valid(s: Store) {
    && Linked(s.members)
    && Named(s.members)
    && Stamped(s)
    && LinksAgree(s.members)
  }

  // ----- Operations -----

  /** addPerson: stores a fresh record under a new name; a taken name throws. */
  function AddPerson(s: Store, name: string, gender: Gender): (r: Result<Store, Error>)
    ensures r.Success? <==> name !in s.members
    ensures r.Failure? ==> r.error == PersonAlreadyExists
    ensures r.Success? ==> r.value.members.Keys == s.members.Keys + {name}
    ensures r.Success? ==> |r.value.members| == |s.members| + 1
    ensures r.Success? ==> forall n :: n in s.members ==> r.value.members[n] == s.members[n]
    ensures r.Success? ==>
      var p := r.value.members[name];
      p.name == name && p.gender == gender && p.mother.None? && p.spouse.None? && p.children == []
    ensures r.Success? && Stamped(s) ==>
      forall n :: n in s.members ==> s.members[n].createdAt < r.value.members[name].createdAt
    ensures r.Success? ==> r.value.members[name].createdAt < r.value.clock
  {
    if name !in s.members then
      Success(Store(s.members[name := NewPerson(name, gender, s.clock)], s.clock + 1))
    else
      Failure(PersonAlreadyExists)
  }

  /** getPerson: the stored record, or a throw for an absent name. */
  function GetPerson(s: Store, name: string): (r: Result<Person, Error>)
    ensures r.Success? <==> name in s.members
    ensures r.Success? ==> r.value == s.members[name]
    ensures r.Failure? ==> r.error == PersonNotFound(name)
    ensures r.Success? && Valid(s) ==> r.value.name == name
  {
    if name in s.members then Success(s.members[name]) else Failure(PersonNotFound(name))
  }

  /** getTree: the whole table, read-only. A name is a key exactly when
      `getPerson` finds it, and it maps to the same record. */
  function GetTree(s: Store): (r: Members)
    ensures forall n :: n in r <==> GetPerson(s, n).Success?
    ensures forall n :: n in r ==> r[n] == GetPerson(s, n).value
  {
    s.members
  }

  /** addSpouse: checks, in this order, that the spouse's name is free, that
      the anchor exists and that the anchor is unmarried; then creates the
      spouse with the opposite gender and links the two both ways. */
  function AddSpouse(s: Store, personName: string, spouseName: string): (r: Result<Store, Error>)
    ensures spouseName in s.members ==> r == Failure(SpouseAlreadyExists)
    ensures spouseName !in s.members && personName !in s.members ==>
      r == Failure(PersonNotFound(personName))
    ensures spouseName !in s.members && personName in s.members && s.members[personName].spouse.Some? ==>
      r == Failure(AlreadyHasSpouse)
    ensures r.Success? <==>
      spouseName !in s.members && personName in s.members && s.members[personName].spouse.None?
    ensures r.Success? ==> r.value.members.Keys == s.members.Keys + {spouseName}
    ensures r.Success? ==>
      var q := r.value.members[spouseName];
      && q.name == spouseName
      && q.gender == Opposite(s.members[personName].gender)
      && q.mother.None? && q.children == []
      && q.spouse == Some(personName)
    ensures r.Success? ==>
      r.value.members[personName] == s.members[personName].(spouse := Some(spouseName))
    ensures r.Success? ==>
      forall n :: n in s.members && n != personName ==> r.value.members[n] == s.members[n]
    ensures r.Success? && Stamped(s) ==>
      forall n :: n in s.members ==> s.members[n].createdAt < r.value.members[spouseName].createdAt
    ensures r.Success? ==> r.value.members[spouseName].createdAt < r.value.clock
  {
    if spouseName in s.members then Failure(SpouseAlreadyExists)
    else
      var anchor :- GetPerson(s, personName);
      if anchor.spouse.Some? then Failure(AlreadyHasSpouse)
      else
        var added := AddPerson(s, spouseName, Opposite(anchor.gender)).value;
        var spouse := added.members[spouseName].(spouse := Some(personName));
        Success(Store(added.members[spouseName := spouse][personName := anchor.(spouse := Some(spouseName))], added.clock))
  }

  /** addChild: checks, in this order, that the child's name is free, that
      the anchor exists and that the anchor is FEMALE; then creates the child,
      appends it to the anchor's `children` and points its `mother` at her. */
  function AddChild(s: Store, personName: string, childName: string, gender: Gender): (r: Result<Store, Error>)
    ensures childName in s.members ==> r == Failure(ChildAlreadyExists)
    ensures childName !in s.members && personName !in s.members ==>
      r == Failure(PersonNotFound(personName))
    ensures childName !in s.members && personName in s.members && s.members[personName].gender != Female ==>
      r == Failure(NotFemale)
    ensures r.Success? <==>
      childName !in s.members && personName in s.members && s.members[personName].gender == Female
    ensures r.Success? ==> r.value.members.Keys == s.members.Keys + {childName}
    ensures r.Success? ==>
      var c := r.value.members[childName];
      && c.name == childName && c.gender == gender
      && c.mother == Some(personName) && c.spouse.None? && c.children == []
    ensures r.Success? ==>
      r.value.members[personName] ==
        s.members[personName].(children := s.members[personName].children + [childName])
    ensures r.Success? ==>
      forall n :: n in s.members && n != personName ==> r.value.members[n] == s.members[n]
    ensures r.Success? && Stamped(s) ==>
      forall n :: n in s.members ==> s.members[n].createdAt < r.value.members[childName].createdAt
    ensures r.Success? ==> r.value.members[childName].createdAt < r.value.clock
  {
    if childName in s.members then Failure(ChildAlreadyExists)
    else
      var anchor :- GetPerson(s, personName);
      if anchor.gender != Female then Failure(NotFemale)
      else
        var added := AddPerson(s, childName, gender).value;
        var child := added.members[childName].(mother := Some(personName));
        Success(Store(
          added.members[personName := anchor.(children := anchor.children + [childName])][childName := child],
          added.clock))
  }

  // ----- The relationship query -----

  /** The sort key of `sortBy('createdAt')`, looked up by name. */
  function StampOf(m: Members): string -> int {
    n => if n in m then m[n].createdAt else 0
  }

  /** The list each relationship kind derives, before ordering. A missing
      link along the way (no mother, no father, no spouse) yields []. */
  function Related(m: Members, name: string, rel: Relationship): (r: seq<string>)
    requires Linked(m) && name in m
    ensures forall x :: x in r ==> x in m
  {
    var p := m[name];
    match rel
    case Son => Sons(m, p)
    case Daughter => Daughters(m, p)
    case Sibling => Siblings(m, p)
    case PaternalUncle =>
      (match Father(m, p) case None => [] case Some(f) => Brothers(m, m[f]))
    case MaternalUncle =>
      (match p.mother case None => [] case Some(mo) => Brothers(m, m[mo]))
    case PaternalAunt =>
      (match Father(m, p) case None => [] case Some(f) => Sisters(m, m[f]))
    case MaternalAunt =>
      (match p.mother case None => [] case Some(mo) => Sisters(m, m[mo]))
    case SisterInLaw =>
      (match p.spouse
       case None => []
       case Some(sp) =>
         var brothers := Brothers(m, m[sp]);
         Sisters(m, m[sp]) + SpouseNames(m, Married(m, brothers)))
    case BrotherInLaw =>
      (match p.spouse
       case None => []
       case Some(sp) =>
         var sisters := Sisters(m, m[sp]);
         Brothers(m, m[sp]) + SpouseNames(m, Married(m, sisters)))
  }

  /** getRelationship: an absent person throws first, then an unknown kind;
      otherwise the derived list, stably sorted by creation stamp, as names. */
  function GetRelationship(s: Store, personName: string, kind: string): (r: Result<seq<string>, Error>)
    requires Linked(s.members)
    ensures personName !in s.members ==> r == Failure(NoSuchPerson(personName))
    ensures personName in s.members && ParseRelationship(kind).None? ==>
      r == Failure(UnknownRelationship(kind))
    ensures r.Success? <==> personName in s.members && ParseRelationship(kind).Some?
    ensures r.Success? ==> SortedBy(r.value, StampOf(s.members))
    ensures r.Success? ==>
      multiset(r.value) == multiset(Related(s.members, personName, ParseRelationship(kind).value))
  {
    if personName !in s.members then Failure(NoSuchPerson(personName))
    else
      match ParseRelationship(kind)
      case None => Failure(UnknownRelationship(kind))
      case Some(rel) =>
        Success(SortBy(Related(s.members, personName, rel), StampOf(s.members)))
  }
}
