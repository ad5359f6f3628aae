/** The person record of the family tree (src/models/person.ts) and its
    derived, read-only views. In this model a record does not hold other
    records: its `mother` and `spouse` links and its `children` are NAMES,
    resolved through the name-keyed table of all members. */
module PersonRecord {
  import opened Wrappers
  import opened Seqs

  datatype Gender = Male | Female

  /** One member of the tree. `createdAt` is the creation stamp: the source
      reads a high-resolution clock, the model takes it from a counter that
      grows with every creation. */
  datatype Person = Person(
    name: string,
    gender: Gender,
    mother: Option<string>,
    spouse: Option<string>,
    children: seq<string>,
    createdAt: nat)

  /** All members of one tree, keyed by name. */
  type Members = map<string, Person>

  /** A freshly constructed record: no mother, no spouse, no children. */
  function NewPerson(name: string, gender: Gender, stamp: nat): Person {
    Person(name, gender, None, None, [], stamp)
  }

  /** Every link held by `p` names a member of `m`. */
  ghost predicate Resolves(m: Members, p: Person) {
    && (p.mother.Some? ==> p.mother.value in m)
    && (p.spouse.Some? ==> p.spouse.value in m)
    && (forall c :: c in p.children ==> c in m)
  }

  /** No member holds a dangling link. */
  ghost predicate Linked(m: Members) {
    forall n :: n in m ==> Resolves(m, m[n])
  }

  /** The members among `ns` of gender `g`, in the order of `ns`. */
  function OfGender(m: Members, ns: seq<string>, g: Gender): (r: seq<string>)
    requires forall n :: n in ns ==> n in m
    ensures Subseq(r, ns)
    ensures forall x :: x in r <==> x in ns && m[x].gender == g
  {
    if |ns| == 0 then []
    else if m[ns[0]].gender == g then [ns[0]] + OfGender(m, ns[1..], g)
    else OfGender(m, ns[1..], g)
  }

  /** `ns` without the entries equal to `name`, in the order of `ns`. */
  function Without(ns: seq<string>, name: string): (r: seq<string>)
    ensures Subseq(r, ns)
    ensures forall x :: x in r <==> x in ns && x != name
  {
    if |ns| == 0 then []
    else if ns[0] != name then [ns[0]] + Without(ns[1..], name)
    else
      var r := Without(ns[1..], name);
      assert |r| > 0 ==> r[0] in r;
      r
  }

  /** `Without` drops every copy of `name` and keeps every other entry as
      often as it occurs. */
  lemma {:induction false} WithoutCount(ns: seq<string>, name: string)
    ensures multiset(Without(ns, name)) == multiset(ns)[name := 0]
  {
    if |ns| > 0 {
      WithoutCount(ns[1..], name);
      assert ns == [ns[0]] + ns[1..];
    }
  }

  /** getSons: the MALE children, in `children` order. */
  function Sons(m: Members, p: Person): (r: seq<string>)
    requires Linked(m) && Resolves(m, p)
    ensures Subseq(r, p.children)
    ensures forall x :: x in r <==> x in p.children && m[x].gender == Male
  {
    OfGender(m, p.children, Male)
  }

  /** getDaughters: the FEMALE children, in `children` order. */
  function Daughters(m: Members, p: Person): (r: seq<string>)
    requires Linked(m) && Resolves(m, p)
    ensures Subseq(r, p.children)
    ensures forall x :: x in r <==> x in p.children && m[x].gender == Female
  {
    OfGender(m, p.children, Female)
  }

  /** getSiblings: the mother's children other than `p` itself, compared by
      name; nobody without a mother has siblings. */
  function Siblings(m: Members, p: Person): (r: seq<string>)
    requires Linked(m) && Resolves(m, p)
    ensures p.mother.None? ==> r == []
    ensures p.mother.Some? ==> Subseq(r, m[p.mother.value].children)
    ensures forall x :: x in r <==>
      p.mother.Some? && x in m[p.mother.value].children && x != p.name
    ensures forall x :: x in r ==> x in m
  {
    match p.mother
    case None => []
    case Some(mo) => Without(m[mo].children, p.name)
  }

  /** getBrothers: the MALE siblings, in sibling order. */
  function Brothers(m: Members, p: Person): (r: seq<string>)
    requires Linked(m) && Resolves(m, p)
    ensures Subseq(r, Siblings(m, p))
    ensures forall x :: x in r <==> x in Siblings(m, p) && m[x].gender == Male
  {
    OfGender(m, Siblings(m, p), Male)
  }

  /** getSisters: the FEMALE siblings, in sibling order. */
  function Sisters(m: Members, p: Person): (r: seq<string>)
    requires Linked(m) && Resolves(m, p)
    ensures Subseq(r, Siblings(m, p))
    ensures forall x :: x in r <==> x in Siblings(m, p) && m[x].gender == Female
  {
    OfGender(m, Siblings(m, p), Female)
  }

  /** getFather: the mother's spouse. AS WRITTEN in the source, a mother
      without a spouse is returned as the father herself (`mother.spouse ||
      mother`); this looks unintended, but paternal queries depend on it, so
      the model keeps it. */
  function Father(m: Members, p: Person): (r: Option<string>)
    requires Linked(m) && Resolves(m, p)
    ensures r.None? <==> p.mother.None?
    ensures p.mother.Some? && m[p.mother.value].spouse.Some? ==> r == m[p.mother.value].spouse
    ensures p.mother.Some? && m[p.mother.value].spouse.None? ==> r == p.mother
    ensures r.Some? ==> r.value in m
  {
    match p.mother
    case None => None
    case Some(mo) =>
      match m[mo].spouse
      case Some(f) => Some(f)
      case None => Some(mo)
  }

  /** The entries of `ns` that have a spouse (`filter(b => b.spouse)`). */
  function Married(m: Members, ns: seq<string>): (r: seq<string>)
    requires forall n :: n in ns ==> n in m
    ensures Subseq(r, ns)
    ensures forall x :: x in r <==> x in ns && m[x].spouse.Some?
  {
    if |ns| == 0 then []
    else if m[ns[0]].spouse.Some? then [ns[0]] + Married(m, ns[1..])
    else Married(m, ns[1..])
  }

  /** `Married` keeps every married entry as often as it occurs. */
  lemma {:induction false} MarriedCount(m: Members, ns: seq<string>)
    requires forall n :: n in ns ==> n in m
    ensures forall x :: x in ns && m[x].spouse.Some? ==>
      multiset(Married(m, ns))[x] == multiset(ns)[x]
  {
    if |ns| > 0 {
      MarriedCount(m, ns[1..]);
      assert ns == [ns[0]] + ns[1..];
    }
  }

  /** The spouse of each entry of `ns`, position by position (`map(b => b.spouse)`). */
  function SpouseNames(m: Members, ns: seq<string>): (r: seq<string>)
    requires forall n :: n in ns ==> n in m && m[n].spouse.Some?
    ensures |r| == |ns|
    ensures forall i :: 0 <= i < |ns| ==> r[i] == m[ns[i]].spouse.value
  {
    if |ns| == 0 then []
    else [m[ns[0]].spouse.value] + SpouseNames(m, ns[1..])
  }

  /** With two genders, sons and daughters together are exactly the children. */
  lemma {:induction false} OfGenderPartition(m: Members, ns: seq<string>)
    requires forall n :: n in ns ==> n in m
    ensures multiset(OfGender(m, ns, Male)) + multiset(OfGender(m, ns, Female)) == multiset(ns)
    ensures |OfGender(m, ns, Male)| + |OfGender(m, ns, Female)| == |ns|
    decreases |ns|
  {
    if |ns| > 0 {
      OfGenderPartition(m, ns[1..]);
      assert ns == [ns[0]] + ns[1..];
    }
  }

  lemma SonsDaughtersPartition(m: Members, p: Person)
    requires Linked(m) && Resolves(m, p)
    ensures multiset(Sons(m, p)) + multiset(Daughters(m, p)) == multiset(p.children)
    ensures |Sons(m, p)| + |Daughters(m, p)| == |p.children|
  {
    OfGenderPartition(m, p.children);
  }
}
