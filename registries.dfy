/** Facts about the module registry that the proxies of one tree share: a dictionary from
    module identities to proxies, where a placeholder value marks a module whose proxy is
    still being built. Stated once for any key and value type; both versions use them.
 */
module Registries {

  /** e2 keeps every key of e1 and every entry of e1 that is not the placeholder. */
  ghost predicate Extends<K, V>(e1: map<K, V>, e2: map<K, V>, placeholder: V) {
    forall k | k in e1 :: k in e2 && (e1[k] != placeholder ==> e2[k] == e1[k])
  }

  /** e2 keeps every entry of e1 unchanged: entries are written once and never replaced. */
  ghost predicate Preserves<K, V>(e1: map<K, V>, e2: map<K, V>) {
    forall k | k in e1 :: k in e2 && e2[k] == e1[k]
  }

  /** Pre-seeding a new key with the placeholder, preserving, then filling that key keeps
      every earlier entry, and the final fill only replaces the placeholder. */
  lemma PreservesAcross<K, V>(e0: map<K, V>, e2: map<K, V>, e3: map<K, V>, id: K, placeholder: V, v: V)
    requires id !in e0 && Preserves(e0[id := placeholder], e2) && e3 == e2[id := v]
    ensures Preserves(e0, e3) && Extends(e2, e3, placeholder)
  {
    forall k | k in e0
      ensures k in e3 && e3[k] == e0[k]
    {
      assert k in e0[id := placeholder] && e0[id := placeholder][k] == e0[k];
    }
  }

  /** Preserving a map in which a new key was pre-seeded preserves the map before seeding. */
  lemma PreservesSeeded<K, V>(e0: map<K, V>, e2: map<K, V>, id: K, placeholder: V)
    requires id !in e0 && Preserves(e0[id := placeholder], e2)
    ensures Preserves(e0, e2) && id in e2
  {
    forall k | k in e0
      ensures k in e2 && e2[k] == e0[k]
    {
      assert k in e0[id := placeholder] && e0[id := placeholder][k] == e0[k];
    }
  }

  lemma SubsetCard<T>(a: set<T>, b: set<T>)
    requires a <= b
    ensures |a| <= |b|
    decreases a
  {
    if a != {} {
      var x :| x in a;
      SubsetCard(a - {x}, b - {x});
    }
  }

  /** Registering one more module leaves fewer modules of the world to visit. */
  lemma UnvisitedShrinks<K>(all: set<K>, before: set<K>, after: set<K>, id: K)
    requires before <= after && id in all && id in after && id !in before
    ensures |all - after| < |all - before|
  {
    assert all - after <= (all - before) - {id};
    SubsetCard(all - after, (all - before) - {id});
  }
}
