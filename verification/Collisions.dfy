/**
 * Collisions of a hash of two digests. Every hash of fixed size has some, so theorems that rest on
 * finding none speak of the pairs that were hashed in the case at hand.
 */
module Collisions {
  /** Two different pairs, one of each set, with one hash. */
  ghost predicate Collide<D>(hash: (D, D) -> D, a: set<(D, D)>, b: set<(D, D)>) {
    exists x, y :: x in a && y in b && x != y && hash(x.0, x.1) == hash(y.0, y.1)
  }

  lemma {:induction false} CollideInMore<D>(hash: (D, D) -> D, a: set<(D, D)>, b: set<(D, D)>, a': set<(D, D)>,
                                            b': set<(D, D)>)
    requires Collide(hash, a, b) && a <= a' && b <= b'
    ensures Collide(hash, a', b')
  {}

  lemma {:induction false} CollideHere<D>(hash: (D, D) -> D, a: set<(D, D)>, b: set<(D, D)>, x: (D, D), y: (D, D))
    requires x in a && y in b && x != y && hash(x.0, x.1) == hash(y.0, y.1)
    ensures Collide(hash, a, b)
  {}
}
