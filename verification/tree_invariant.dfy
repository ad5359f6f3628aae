/** Every store the service can reach satisfies `Tree.Valid`: the empty
    store does, and each successful operation keeps it. */
module TreeInvariant {
  import opened Wrappers
  import opened Seqs
  import opened PersonRecord
  import opened Tree

  lemma EmptyValid()
    ensures Valid(Empty())
  {
  }

  lemma AddPersonKeepsValid(s: Store, name: string, gender: Gender)
    requires Valid(s) && name !in s.members
    ensures Valid(AddPerson(s, name, gender).value)
  {
    var t := AddPerson(s, name, gender).value;
    var m, m' := s.members, t.members;
    assert Linked(m') by {
      forall n | n in m' ensures Resolves(m', m'[n]) {
        if n != name {
          assert Resolves(m, m[n]);
        }
      }
    }
    assert Named(m');
    assert Stamped(t);
    assert LinksAgree(m') by {
      forall n | n in m' ensures SpouseOk(m', n) && MotherOk(m', n) && ChildrenOk(m', n) {
        if n != name {
          assert SpouseOk(m, n) && MotherOk(m, n) && ChildrenOk(m, n);
          assert Resolves(m, m[n]);
        }
      }
    }
  }

  lemma AddSpouseKeepsValid(s: Store, personName: string, spouseName: string)
    requires Valid(s) && spouseName !in s.members && personName in s.members
    requires s.members[personName].spouse.None?
    ensures Valid(AddSpouse(s, personName, spouseName).value)
  {
    AddSpouseShape(s, personName, spouseName);
    MarryKeepsValid(s, personName, spouseName);
  }

  /** The store a successful `addSpouse` returns, written out. */
  lemma AddSpouseShape(s: Store, personName: string, spouseName: string)
    requires spouseName !in s.members && personName in s.members
    requires s.members[personName].spouse.None?
    ensures AddSpouse(s, personName, spouseName) == Success(Store(
      s.members[spouseName := NewPerson(spouseName, Opposite(s.members[personName].gender), s.clock).(spouse := Some(personName))]
               [personName := s.members[personName].(spouse := Some(spouseName))],
      s.clock + 1))
  {
    var m := s.members;
    var g := Opposite(m[personName].gender);
    assert GetPerson(s, personName) == Success(m[personName]);
    var q := NewPerson(spouseName, g, s.clock);
    var added := AddPerson(s, spouseName, g);
    assert added == Success(Store(m[spouseName := q], s.clock + 1));
    assert added.value.members[spouseName] == q;
    var a := m[personName].(spouse := Some(spouseName));
    assert m[spouseName := q][spouseName := q.(spouse := Some(personName))][personName := a]
        == m[spouseName := q.(spouse := Some(personName))][personName := a];
  }

  /** The store `addSpouse` builds, stated without the function. */
  lemma MarryKeepsValid(s: Store, personName: string, spouseName: string)
    requires Valid(s) && personName in s.members && spouseName !in s.members
    requires s.members[personName].spouse.None?
    ensures
      var m := s.members;
      var q := NewPerson(spouseName, Opposite(m[personName].gender), s.clock).(spouse := Some(personName));
      var a := m[personName].(spouse := Some(spouseName));
      Valid(Store(m[spouseName := q][personName := a], s.clock + 1))
  {
    var m := s.members;
    var q := NewPerson(spouseName, Opposite(m[personName].gender), s.clock).(spouse := Some(personName));
    var a := m[personName].(spouse := Some(spouseName));
    var t := Store(m[spouseName := q][personName := a], s.clock + 1);
    var m' := t.members;
    assert Linked(m') by {
      forall n | n in m' ensures Resolves(m', m'[n]) {
        if n != spouseName {
          assert Resolves(m, m[n]);
        }
      }
    }
    assert Named(m');
    assert Stamped(t);
    assert LinksAgree(m') by {
      forall n | n in m' ensures SpouseOk(m', n) && MotherOk(m', n) && ChildrenOk(m', n) {
        if n != spouseName {
          assert SpouseOk(m, n) && MotherOk(m, n) && ChildrenOk(m, n);
          assert Resolves(m, m[n]);
          if n != personName && m[n].spouse.Some? {
            assert m[n].spouse.value != personName;
          }
        }
      }
    }
  }

  lemma AddChildKeepsValid(s: Store, personName: string, childName: string, gender: Gender)
    requires Valid(s) && childName !in s.members && personName in s.members
    requires s.members[personName].gender == Female
    ensures Valid(AddChild(s, personName, childName, gender).value)
  {
    AddChildShape(s, personName, childName, gender);
    BearKeepsValid(s, personName, childName, gender);
  }

  /** The store a successful `addChild` returns, written out. */
  lemma AddChildShape(s: Store, personName: string, childName: string, gender: Gender)
    requires childName !in s.members && personName in s.members
    requires s.members[personName].gender == Female
    ensures AddChild(s, personName, childName, gender) == Success(Store(
      s.members[personName := s.members[personName].(children := s.members[personName].children + [childName])]
               [childName := NewPerson(childName, gender, s.clock).(mother := Some(personName))],
      s.clock + 1))
  {
    var m := s.members;
    assert GetPerson(s, personName) == Success(m[personName]);
    var c := NewPerson(childName, gender, s.clock);
    var added := AddPerson(s, childName, gender);
    assert added == Success(Store(m[childName := c], s.clock + 1));
    assert added.value.members[childName] == c;
    var a := m[personName].(children := m[personName].children + [childName]);
    assert m[childName := c][personName := a][childName := c.(mother := Some(personName))]
        == m[personName := a][childName := c.(mother := Some(personName))];
  }

  /** The store `addChild` builds, stated without the function. */
  lemma BearKeepsValid(s: Store, personName: string, childName: string, gender: Gender)
    requires Valid(s) && personName in s.members && childName !in s.members
    requires s.members[personName].gender == Female
    ensures
      var m := s.members;
      var c := NewPerson(childName, gender, s.clock).(mother := Some(personName));
      var a := m[personName].(children := m[personName].children + [childName]);
      Valid(Store(m[personName := a][childName := c], s.clock + 1))
  {
    var m := s.members;
    var c := NewPerson(childName, gender, s.clock).(mother := Some(personName));
    var a := m[personName].(children := m[personName].children + [childName]);
    var t := Store(m[personName := a][childName := c], s.clock + 1);
    var m' := t.members;
    assert Linked(m') by {
      forall n | n in m' ensures Resolves(m', m'[n]) {
        if n != childName {
          assert Resolves(m, m[n]);
        }
      }
    }
    assert Named(m');
    assert Stamped(t);
    assert LinksAgree(m') by {
      forall n | n in m' ensures SpouseOk(m', n) && MotherOk(m', n) && ChildrenOk(m', n) {
        if n != childName {
          assert SpouseOk(m, n) && MotherOk(m, n) && ChildrenOk(m, n);
          assert Resolves(m, m[n]);
          if n == personName {
            assert childName !in m[n].children;
          }
        }
      }
    }
  }

  /** One call on the service's mutation surface. */
  datatype Op =
    | AddPersonOp(name: string, gender: Gender)
    | AddSpouseOp(personName: string, spouseName: string)
    | AddChildOp(personName: string, childName: string, gender: Gender)

  function Apply(s: Store, op: Op): Result<Store, Error> {
    match op
    case AddPersonOp(n, g) => AddPerson(s, n, g)
    case AddSpouseOp(p, q) => AddSpouse(s, p, q)
    case AddChildOp(p, c, g) => AddChild(s, p, c, g)
  }

  /** The name a successful call creates, and the gender it gives it. */
  function CreatedName(op: Op): string {
    match op
    case AddPersonOp(n, _) => n
    case AddSpouseOp(_, q) => q
    case AddChildOp(_, c, _) => c
  }

  /** The service after the calls `ops`, made in order on a new service; a
      call that throws leaves the store as it was. Every such store is valid. */
  function Build(ops: seq<Op>): (s: Store)
    ensures Valid(s)
    decreases |ops|
  {
    if |ops| == 0 then
      EmptyValid();
      Empty()
    else
      var prev := Build(ops[..|ops| - 1]);
      var op := ops[|ops| - 1];
      match Apply(prev, op)
      case Failure(_) => prev
      case Success(next) =>
        ApplyKeepsValid(prev, op);
        next
  }

  lemma ApplyKeepsValid(s: Store, op: Op)
    requires Valid(s) && Apply(s, op).Success?
    ensures Valid(Apply(s, op).value)
  {
    match op
    case AddPersonOp(n, g) => AddPersonKeepsValid(s, n, g);
    case AddSpouseOp(p, q) => AddSpouseKeepsValid(s, p, q);
    case AddChildOp(p, c, g) => AddChildKeepsValid(s, p, c, g);
  }

  /** Insert-only: a successful call adds exactly the name it creates, which
      `getPerson` then finds with the name it was given; no earlier record
      changes its name, gender, stamp or mother, a spouse once set stays, and
      children are only ever appended. */
  lemma ApplyOnlyExtends(s: Store, op: Op)
    requires Apply(s, op).Success?
    ensures var t := Apply(s, op).value;
      && t.members.Keys == s.members.Keys + {CreatedName(op)}
      && CreatedName(op) !in s.members
      && GetPerson(t, CreatedName(op)).Success?
      && GetPerson(t, CreatedName(op)).value.name == CreatedName(op)
    ensures var t := Apply(s, op).value;
      forall n :: n in s.members ==>
        && t.members[n].name == s.members[n].name
        && t.members[n].gender == s.members[n].gender
        && t.members[n].createdAt == s.members[n].createdAt
        && t.members[n].mother == s.members[n].mother
        && (s.members[n].spouse.Some? ==> t.members[n].spouse == s.members[n].spouse)
        && s.members[n].children <= t.members[n].children
  {
    match op
    case AddPersonOp(n, g) =>
    case AddSpouseOp(p, q) =>
      var t := AddSpouse(s, p, q).value;
      assert forall n :: n in s.members && n != p ==> t.members[n] == s.members[n];
      assert t.members[p] == s.members[p].(spouse := Some(q));
    case AddChildOp(p, c, g) =>
      var t := AddChild(s, p, c, g).value;
      assert forall n :: n in s.members && n != p ==> t.members[n] == s.members[n];
      assert t.members[p] == s.members[p].(children := s.members[p].children + [c]);
  }

  /** Round trip: what `addPerson`, `addSpouse` and `addChild` create is found
      by `getPerson` with the name and gender it was created with. */
  lemma AddedIsRetrievable(s: Store, name: string, gender: Gender, anchor: string)
    ensures AddPerson(s, name, gender).Success? ==>
      var p := GetPerson(AddPerson(s, name, gender).value, name);
      p.Success? && p.value.name == name && p.value.gender == gender
    ensures AddChild(s, anchor, name, gender).Success? ==>
      var p := GetPerson(AddChild(s, anchor, name, gender).value, name);
      p.Success? && p.value.name == name && p.value.gender == gender
    ensures AddSpouse(s, anchor, name).Success? ==>
      var p := GetPerson(AddSpouse(s, anchor, name).value, name);
      p.Success? && p.value.name == name && p.value.gender == Opposite(s.members[anchor].gender)
  {
  }

  /** After `addSpouse(A, B)` the two records name each other as spouse. */
  lemma AddSpouseSymmetric(s: Store, a: string, b: string)
    requires AddSpouse(s, a, b).Success?
    ensures var t := AddSpouse(s, a, b).value;
      && GetPerson(t, a).Success? && GetPerson(t, a).value.spouse == Some(b)
      && GetPerson(t, b).Success? && GetPerson(t, b).value.spouse == Some(a)
  {
  }

  /** A second `addChild` with the same child name throws and leaves the
      mother's children as the first call left them. */
  lemma AddChildTwiceRejected(s: Store, mother: string, child: string, g1: Gender, g2: Gender)
    requires AddChild(s, mother, child, g1).Success?
    ensures var t := AddChild(s, mother, child, g1).value;
      AddChild(t, mother, child, g2) == Failure(ChildAlreadyExists)
    ensures |AddChild(s, mother, child, g1).value.members[mother].children| == |s.members[mother].children| + 1
  {
  }
}
