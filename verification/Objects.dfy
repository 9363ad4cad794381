/**
 The runtime values that the collections store, seen only through the two relations the
 collections use: `Equiv` (value equality) and `Identical` (identity, equality of `Object`s here).
 Every object carries its equality class, and the class carries the 32-bit hash, so `Equiv` is
 an arbitrary equivalence relation that `HashEq` respects; different classes may share a hash.
 A keyword is the only member of its class, because keywords are interned.
 */
module Objects {
  type Hash = h: nat | h < 0x1_0000_0000

  datatype Class = Class(hash: Hash, tag: int)

  datatype Object = Nil | Keyword(cls: Class) | Other(cls: Class, identity: int)

  function HashEq(o: Object): Hash {
    match o
    case Nil => 0
    case Keyword(c) => c.hash
    case Other(c, _) => c.hash
  }

  predicate Equiv(a: Object, b: Object) {
    match (a, b)
    case (Nil, Nil) => true
    case (Keyword(c), Keyword(d)) => c == d
    case (Other(c, _), Other(d, _)) => c == d
    case _ => false
  }

  predicate Identical(a: Object, b: Object) { a == b }

  /** One representative per equality class: the key of the abstract maps. */
  function Id(o: Object): Object {
    match o
    case Other(c, _) => Other(c, 0)
    case _ => o
  }

  lemma EquivSameId(a: Object, b: Object)
    ensures Equiv(a, b) <==> Id(a) == Id(b)
    ensures Equiv(a, b) ==> HashEq(a) == HashEq(b)
  {}

  datatype Entry = Entry(key: Object, val: Object)

  datatype Option<+T> = None | Some(value: T)
}
