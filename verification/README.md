# Family-tree kinship engine, modelled in Dafny

This project models the core of a small family-tree service:

- **The person record** (`src/models/person.ts`). A person has a name, a gender, a `mother` link, a `spouse` link, an ordered `children` list and a creation stamp. The record also offers the derived views sons, daughters, siblings, brothers, sisters and father.
- **The tree service** (`src/services/tree.service.ts`). This is a name-to-person table with the operations `addPerson`, `getPerson`, `getTree`, `addSpouse` and `addChild`. On top of them sits the query `getRelationship`. For one of nine relationship kinds it collects the related people, sorts them stably by creation stamp and returns their names.

The model is functional.

- **Records and the store.** The table is a `map<string, Person>`. A person's links are name handles: `Option<string>` for mother and spouse, and `seq<string>` for children. The service clock is a counter in the store, `Store(members, clock)`. Each creation takes the counter's value as its stamp and increments it.
- **Operations.** Each operation is a pure function returning `Result<Store, Error>`. A throw is a `Failure` carrying the exact error of the source. A failure carries no store, so a rejected call leaves the service as it was.
- **The query.** `getRelationship` is a pure function of the store.

Files, one module each:

| file | module | contents |
|---|---|---|
| `wrappers.dfy` | `Wrappers` | `Option` and `Result` |
| `seqs.dfy` | `Seqs` | order-preserving sub-sequences, duplicate-free sequences |
| `stable_sort.dfy` | `StableSort` | lodash `sortBy` as a stable insertion sort, with its stability and uniqueness lemmas |
| `person.dfy` | `PersonRecord` | the record and its derived views |
| `tree.dfy` | `Tree` | the store, its invariant, the five operations and `getRelationship` |
| `tree_invariant.dfy` | `TreeInvariant` | every operation keeps the invariant; every sequence of calls builds a valid store; the store only grows |
| `kinship.dfy` | `Kinship` | a reference meaning of each relationship kind on the raw links, and what every answer is: its members, no duplicates, creation order, uniqueness, and in-law lengths |
| `scenarios.dfy` | `Scenarios` | the test suites' scenarios, replayed on the model with the names as parameters |

The store invariant is `Tree.Valid`. It has four parts:

- No link dangles.
- Every record is stored under its own name.
- Stamps are pairwise distinct and below the clock.
- The links agree:
  - a spouse link is mutual, is not reflexive and joins opposite genders;
  - at least one partner of a couple has no mother, having joined the tree as a spouse;
  - a mother is FEMALE;
  - a child's `mother` link and that mother's `children` list agree;
  - a children list holds no name twice.

These are the structural facts the service keeps without checking them.

`getFather` is modelled as written: a mother without a spouse is returned as the father (`src/models/person.ts:40`). Paternal queries therefore answer with the mother's siblings in that case. `Kinship.UnmarriedMotherPaternalIsMaternal` states the consequence, and `Kinship.FatherGender` shows that the "father" is male exactly when the mother is married.

## Model

| member | source | states |
|---|---|---|
| PersonRecord.NewPerson | src/models/person.ts:6-15 | a fresh record: the given name and gender, no mother, no spouse, no children, and the creation stamp it is given |
| PersonRecord.OfGender | src/models/person.ts:18 | the names of gender `g` among `ns`: exactly those, in the order of `ns` |
| PersonRecord.Without | src/models/person.ts:27 | `ns` with every entry equal to `name` removed, and nothing else removed, order kept |
| PersonRecord.WithoutCount | src/models/person.ts:27 | the sibling filter drops every copy of `name` and keeps every other entry exactly as often as the list holds it |
| PersonRecord.Sons | src/models/person.ts:17-19 | a sub-sequence of `children` holding exactly the MALE children, in `children` order |
| PersonRecord.Daughters | src/models/person.ts:21-23 | a sub-sequence of `children` holding exactly the FEMALE children, in `children` order |
| PersonRecord.SonsDaughtersPartition | src/models/person.ts:17-23 | sons and daughters together are a permutation of `children`, and their lengths add up |
| PersonRecord.OfGenderPartition | src/models/person.ts:17-23 | splitting any list by the two genders loses and duplicates nothing |
| PersonRecord.Siblings | src/models/person.ts:25-28 | no mother gives []; otherwise a sub-sequence of the mother's children holding exactly those whose name differs from the person's |
| PersonRecord.Brothers | src/models/person.ts:30-32 | a sub-sequence of the siblings, in sibling order, holding exactly the MALE siblings |
| PersonRecord.Sisters | src/models/person.ts:34-36 | a sub-sequence of the siblings, in sibling order, holding exactly the FEMALE siblings |
| PersonRecord.Father | src/models/person.ts:38-43 | none exactly when there is no mother; a married mother's spouse; an unmarried mother herself |
| PersonRecord.Married | src/services/tree.service.ts:161 | the entries of a list that have a spouse, in list order |
| PersonRecord.MarriedCount | src/services/tree.service.ts:161 | the spouse filter keeps every married entry exactly as often as the list holds it |
| PersonRecord.SpouseNames | src/services/tree.service.ts:162 | position by position, the spouse of each entry |
| Tree.Message | src/services/tree.service.ts:25-178 | the text of every error the service throws, one per error case |
| Tree.KindName | src/services/tree.service.ts:121-178 | the string value of each relationship kind the `switch` recognises |
| Tree.Empty | src/services/tree.service.ts:9 | a new service has no members |
| Tree.Opposite | src/services/tree.service.ts:72 | the spouse's gender differs from the anchor's |
| Tree.AddPerson | src/services/tree.service.ts:19-27 | succeeds exactly for an absent name, else fails with "Person already exists"; it adds exactly that key, and the size grows by one; earlier records are untouched; the new record has the given name and gender and no mother, spouse or children; in a store whose stamps came from the counter, its stamp exceeds every earlier stamp |
| Tree.GetPerson | src/services/tree.service.ts:36-43 | the stored record exactly when the name is present, else "Person N doesn't exist"; in a valid store the record carries the name it was looked up by |
| Tree.GetTree | src/services/tree.service.ts:50-52 | its keys are exactly the names `getPerson` finds, each mapped to the record `getPerson` returns |
| Tree.AddSpouse | src/services/tree.service.ts:62-77 | fails in source order: spouse name present, anchor missing, anchor married; succeeds exactly when none applies; the spouse is created with the opposite gender, no mother and no children; the two spouse links point at each other; no other record changes |
| Tree.AddChild | src/services/tree.service.ts:88-104 | fails in source order: child name present, anchor missing, anchor not FEMALE; succeeds exactly when none applies; the child is appended at the end of the anchor's children and its mother is the anchor; no other record changes |
| Tree.ParseRelationship | src/services/tree.service.ts:121-178 | a recognised value names that kind |
| Tree.ParseKindName | src/services/tree.service.ts:121-178 | each kind is recognised by its own name and by no other value |
| Tree.StampOf | src/services/tree.service.ts:124 | the `createdAt` key by which every derived list is ordered |
| Tree.Related | src/services/tree.service.ts:121-176 | every name a derived list holds is a member |
| Tree.GetRelationship | src/services/tree.service.ts:115-180 | an absent person fails first with "Person N does not exist.", then an unknown kind fails with "Unknown relationship R."; otherwise it succeeds with a permutation of the derived list, in ascending stamp order |
| TreeInvariant.EmptyValid | src/services/tree.service.ts:9 | a new service satisfies the store invariant |
| TreeInvariant.AddPersonKeepsValid | src/services/tree.service.ts:19-27 | `addPerson` keeps the invariant |
| TreeInvariant.AddSpouseKeepsValid | src/services/tree.service.ts:62-77 | `addSpouse` keeps the invariant: the spouse links stay mutual and opposite-gendered |
| TreeInvariant.AddSpouseShape | src/services/tree.service.ts:72-74 | the store a successful `addSpouse` returns, written out record by record |
| TreeInvariant.MarryKeepsValid | src/services/tree.service.ts:72-74 | joining an unmarried member to a new member of the other gender keeps the invariant |
| TreeInvariant.AddChildKeepsValid | src/services/tree.service.ts:88-104 | `addChild` keeps the invariant: mother links and children lists stay in agreement |
| TreeInvariant.AddChildShape | src/services/tree.service.ts:99-101 | the store a successful `addChild` returns, written out record by record |
| TreeInvariant.BearKeepsValid | src/services/tree.service.ts:99-101 | appending a new child to a female member's children keeps the invariant |
| TreeInvariant.Build | src/services/tree.service.ts:19-104 | every sequence of calls on a new service, each either applied or rejected, leaves a valid store |
| TreeInvariant.ApplyKeepsValid | src/services/tree.service.ts:19-104 | every successful mutation keeps the invariant |
| TreeInvariant.ApplyOnlyExtends | src/services/tree.service.ts:19-104 | a successful call adds exactly the name it creates, which was absent and is then found by `getPerson`; no earlier record changes name, gender, stamp or mother; a set spouse stays; children are only appended |
| TreeInvariant.AddedIsRetrievable | src/services/tree.service.ts:36-43 | whatever `addPerson`, `addChild` or `addSpouse` creates is found by `getPerson` with its name and gender |
| TreeInvariant.AddSpouseSymmetric | src/services/tree.service.ts:73-74 | after `addSpouse(A, B)`, A's spouse is B and B's spouse is A |
| TreeInvariant.AddChildTwiceRejected | src/services/tree.service.ts:89-91 | repeating an `addChild` fails with "Child already exists"; the first one grew the mother's children by exactly one |
| Kinship.ChildrenMeaning | src/services/tree.service.ts:100-101 | in a valid store a person's children are exactly the members whose mother is that person |
| Kinship.SiblingsMeaning | src/models/person.ts:25-28 | the siblings are exactly the other members with the same mother |
| Kinship.InLawMeaning | src/services/tree.service.ts:157-176 | the in-law list for a spouse holds exactly the spouse's siblings of one gender and the spouses of the spouse's siblings of the other gender |
| Kinship.RelatedMembers | src/services/tree.service.ts:121-176 | for every kind, the derived list holds exactly the members the reference meaning `Kin` picks |
| Kinship.SiblingsDistinct | src/models/person.ts:25-36 | in a valid store a gendered sibling list holds nobody twice |
| Kinship.SpouseNamesDistinct | src/services/tree.service.ts:162 | the spouses of different married members are different people |
| Kinship.InLawDistinct | src/services/tree.service.ts:157-176 | the two halves of an in-law list are disjoint, so the list holds nobody twice |
| Kinship.RelatedDistinct | src/services/tree.service.ts:121-176 | in a valid store no derived list holds anybody twice |
| Kinship.GetRelationshipMembers | src/services/tree.service.ts:115-180 | an answer names exactly the members the reference meaning picks |
| Kinship.GetRelationshipOrdered | src/services/tree.service.ts:122-176 | an answer holds nobody twice, only members, in strictly increasing creation order |
| Kinship.SortByStamps | src/services/tree.service.ts:124 | ordering duplicate-free member names by stamp orders them strictly |
| Kinship.GetRelationshipStable | src/services/tree.service.ts:124 | people with the same stamp keep their order from the derived list |
| Kinship.GetRelationshipCanonical | src/services/tree.service.ts:122-176 | the answer is the only duplicate-free, creation-ordered list of the people the reference meaning picks |
| Kinship.GetRelationshipOf | src/services/tree.service.ts:121-176 | a known kind asked by its name about a member is answered with its sorted derived list |
| Kinship.InLawCount | src/services/tree.service.ts:157-176 | with a spouse, an in-law answer's length is the spouse's same-gender siblings plus the married other-gender ones; with no spouse it is [] |
| Kinship.EmptyAnswer | src/services/tree.service.ts:122-176 | an empty derived list is answered with [] |
| Kinship.NoMotherNoKin | src/services/tree.service.ts:132-156 | with no mother, siblings and all four uncle and aunt kinds are answered with [] |
| Kinship.NoMotherRelated | src/services/tree.service.ts:132-156 | with no mother, each of those five kinds is answered with [] |
| Kinship.UnmarriedMotherPaternalIsMaternal | src/models/person.ts:40 | with an unmarried mother, the paternal uncle and aunt answers equal the maternal ones |
| Kinship.SameRelated | src/services/tree.service.ts:137-156 | with an unmarried mother, each paternal kind gives the same answer as its maternal counterpart |
| Kinship.FatherGender | src/models/person.ts:38-43 | in a valid store the "father" is MALE exactly when the mother is married |
| StableSort.Insert | src/services/tree.service.ts:124 | insertion keeps the length, adds the one element to the multiset, and keeps a key-ordered list key-ordered |
| StableSort.SortBy | src/services/tree.service.ts:124 | the result is a permutation of the input, in ascending key order |
| StableSort.SortByStable | src/services/tree.service.ts:124 | for every key, the elements with that key keep their input order |
| StableSort.InsertStable | src/services/tree.service.ts:124 | insertion puts the new element before the equal-keyed ones already present |
| StableSort.SortBySorted | src/services/tree.service.ts:124 | a list already in key order is returned unchanged |
| StableSort.SortedPermutationUnique | src/services/tree.service.ts:124 | with an injective key, two key-ordered permutations of each other are equal |
| StableSort.SortByNoDuplicates | src/services/tree.service.ts:124 | sorting a duplicate-free list yields a duplicate-free list |
| Scenarios.PaternalUncleScenario | src/services/tree.service.spec.ts:146-157 | Emily's paternal uncles are David and Robert, in that order |
| Scenarios.SisterInLawScenario | src/services/tree.service.spec.ts:196-210 | Michael's sisters-in-law are Emily, Sarah and Fiona: three names, in that order |
| Scenarios.SisterInLawOrderScenario | src/tests/index.spec.ts:72-75 | Darcy's sisters-in-law are Alice then Lily, although the derived list holds Lily first |
| Scenarios.RejectionScenarios | src/services/tree.service.spec.ts:20-104 | the rejection tests: a repeated name, a non-female mother, a taken spouse name and a married anchor fail with their errors; the two not-found messages are as the tests expect |

## Left out

- `process.hrtime.bigint()` (`src/models/person.ts:14`) is replaced by the store's counter. Wall-clock resolution, and so stamps equal in the source, are not modelled; stability of the sort is still proved for equal keys.
- The lodash chain machinery (`src/services/tree.service.ts:5`) is modelled as a stable sort on the stamp followed by a projection to names. The model works on names throughout, so the projection is the identity.
- Tree.GetRelationship: for SISTER_IN_LAW and BROTHER_IN_LAW on a person with no spouse, the model answers []. In the source, `_.chain(undefined).concat(undefined)` leaks undefined entries into the answer. That is a library artefact, not a kinship result.
- Tree.GetTree: the source returns the live, mutable table. The model returns a read-only copy; mutation through that alias is not modelled.
- The derived views and `getRelationship` never modify the store. This holds by construction, since they are pure functions, so no contract states it.
- Object identity is replaced by names. The source links `Person` objects; the model links names, and the invariant makes each name a unique key.
- `src/constants/genders.ts` and `src/constants/relationships.ts` are not part of this model. Genders are the two constructors MALE and FEMALE. Relationship values are taken to be the strings "SON", "DAUGHTER", "SIBLINGS", "PATERNAL_UNCLE", "MATERNAL_UNCLE", "PATERNAL_AUNT", "MATERNAL_AUNT", "SISTER_IN_LAW" and "BROTHER_IN_LAW".
- `index.js` is a console demo with sample data; it is only I/O.
- `src/services/tree.service.interface.ts` holds declarations only.
- Tree.AddPerson, Tree.AddSpouse, Tree.AddChild: the source returns the created `Person` (`src/services/tree.service.interface.ts:13,21,30`; `src/services/tree.service.ts:23,76,103`). The model returns only the new store. `TreeInvariant.AddedIsRetrievable` and `TreeInvariant.ApplyOnlyExtends` give that record back through `GetPerson`.
- Scenarios.SisterInLawOrderScenario: only Ginerva's branch of the royal tree of `src/tests/index.spec.ts:13-53` is built. The rest of the tree cannot reach Darcy's answer.
- The remaining test cases are covered by the general contracts rather than replayed one by one.
