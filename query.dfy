/** The store's `.sort({ createdAt: -1 })`: an ordering of a set of documents,
    newest first. Documents with equal timestamps may come in any order, as
    they may from the store. */
module Query {

  /** `ks` lists every key of `stamps` exactly once, newest first. */
  ghost predicate NewestFirst<K>(ks: seq<K>, stamps: map<K, int>)
  {
    && (forall i, j :: 0 <= i < j < |ks| ==> ks[i] != ks[j])
    && (forall i :: 0 <= i < |ks| ==> ks[i] in stamps)
    && (forall k :: k in stamps ==> k in ks)
    && (forall i, j :: 0 <= i < j < |ks| ==> stamps[ks[i]] >= stamps[ks[j]])
  }

  /** A finite non-empty set of documents has a newest one. */
  lemma {:induction false} NewestExists<K>(keys: set<K>, stamps: map<K, int>)
    requires keys != {} && keys <= stamps.Keys
    ensures exists k :: k in keys && forall o :: o in keys ==> stamps[o] <= stamps[k]
    decreases |keys|
  {
    var x :| x in keys;
    var rest := keys - {x};
    if rest != {} {
      NewestExists(rest, stamps);
      var m :| m in rest && forall o :: o in rest ==> stamps[o] <= stamps[m];
      if stamps[x] <= stamps[m] {
        assert forall o :: o in keys ==> stamps[o] <= stamps[m];
      } else {
        assert forall o :: o in keys ==> stamps[o] <= stamps[x];
      }
    } else {
      forall o | o in keys ensures o == x {
        assert o !in rest;
      }
    }
  }

  /** Orders the keys of `stamps` newest first by repeatedly taking a newest
      remaining one. */
  method SortNewestFirst<K>(stamps: map<K, int>) returns (ks: seq<K>)
    ensures NewestFirst(ks, stamps)
  {
    ks := [];
    var rest := stamps.Keys;
    while rest != {}
      invariant rest <= stamps.Keys
      invariant forall i :: 0 <= i < |ks| ==> ks[i] in stamps && ks[i] !in rest
      invariant forall k :: k in stamps ==> k in rest || k in ks
      invariant forall i, j :: 0 <= i < j < |ks| ==> ks[i] != ks[j]
      invariant forall i, j :: 0 <= i < j < |ks| ==> stamps[ks[i]] >= stamps[ks[j]]
      invariant forall i, k :: 0 <= i < |ks| && k in rest ==> stamps[ks[i]] >= stamps[k]
      decreases rest
    {
      NewestExists(rest, stamps);
      var k :| k in rest && forall o :: o in rest ==> stamps[o] <= stamps[k];
      ks := ks + [k];
      rest := rest - {k};
    }
  }
}
