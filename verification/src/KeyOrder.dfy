/** The order in which a family's entries are stored and walked (crates/uste-graph/src/state_disk.rs:66-79,
    5143-5325). */
module KeyOrder {
  import opened Base
  import opened Families

  function FamilyNumber(family: Family): nat {
    match family
    case Metadata => 1
    case Current => 2
    case History => 3
    case Outgoing => 4
    case Incoming => 5
    case Provenance => 6
    case Reverse => 7
    case Policy => 8
  }

  function Tag(key: Key): nat {
    match key
    case MetadataKey => 0
    case RecordKey(_) => 1
    case VersionKey(_, _) => 2
    case CurrentPolicyKey => 3
    case PolicyKey(_) => 4
    case PairKey(_, _, _) => 5
  }

  function Major(key: Key): nat {
    match key
    case RecordKey(record) => record
    case VersionKey(record, _) => record
    case PairKey(_, left, _) => left
    case PolicyKey(revision) => revision
    case _ => 0
  }

  function Minor(key: Key): nat {
    match key
    case VersionKey(_, revision) => revision
    case PairKey(_, _, right) => right
    case _ => 0
  }

  /** Byte order inside a family; families follow each other. */
  predicate KeyLess(a: Key, b: Key) {
    var f, g := FamilyNumber(FamilyOf(a)), FamilyNumber(FamilyOf(b));
    f < g || (f == g && (Tag(a) < Tag(b) || (Tag(a) == Tag(b)
      && (Major(a) < Major(b) || (Major(a) == Major(b) && Minor(a) < Minor(b))))))
  }

  lemma SameRank(a: Key, b: Key)
    requires !KeyLess(a, b) && !KeyLess(b, a)
    ensures a == b
  {
  }

  lemma KeyLessIsStrictOrder()
    ensures StrictOrder(KeyLess)
  {
    forall a, b | !KeyLess(a, b) && !KeyLess(b, a) ensures a == b { SameRank(a, b); }
  }

  ghost function SortedKeys(keys: set<Key>): (s: seq<Key>)
    ensures Enumerates(s, keys, KeyLess)
    ensures |s| == |keys|
  {
    KeyLessIsStrictOrder();
    SortBy(keys, KeyLess)
  }

  lemma SortedKeysUnique(s: seq<Key>, keys: set<Key>)
    requires Enumerates(s, keys, KeyLess)
    ensures s == SortedKeys(keys)
  {
    KeyLessIsStrictOrder();
    EnumerationUnique(s, SortedKeys(keys), keys, KeyLess);
  }
}
