/** Ranging over a Go map visits its keys in an unspecified order. A loop
    over a map is modelled as a loop over `Enumerate`'s sequence of the
    keys, and a listing it builds is characterised by the keys it covers,
    each once, and by the entry it gives for each key. */
module Listings {

  /** `ks` visits every key of `s` exactly once. */
  ghost predicate Enumerates(ks: seq<string>, s: set<string>) {
    && (forall i, j :: 0 <= i < j < |ks| ==> ks[i] != ks[j])
    && (forall i :: 0 <= i < |ks| ==> ks[i] in s)
    && (forall k :: k in s ==> k in ks)
    && |ks| == |s|
  }

  /** The keys of `s` in some order: the order of a `range` over a map. */
  method Enumerate(s: set<string>) returns (ks: seq<string>)
    ensures Enumerates(ks, s)
  {
    ks := [];
    var remaining := s;
    while remaining != {}
      invariant remaining <= s
      invariant forall i, j :: 0 <= i < j < |ks| ==> ks[i] != ks[j]
      invariant forall i :: 0 <= i < |ks| ==> ks[i] in s && ks[i] !in remaining
      invariant forall k :: k in s ==> k in ks || k in remaining
      invariant |ks| + |remaining| == |s|
      decreases remaining
    {
      var k :| k in remaining;
      ks := ks + [k];
      remaining := remaining - {k};
    }
  }

  /** The keys of the entries of a listing. */
  ghost function KeysOf<T>(entries: seq<T>, key: T -> string): set<string> {
    set i | 0 <= i < |entries| :: key(entries[i])
  }

  /** `entries` lists exactly the keys `ids`, once each, and the entry for
      each key is the one `expected` gives. */
  ghost predicate Listing<T>(entries: seq<T>, key: T -> string, expected: map<string, T>, ids: set<string>) {
    && KeysOf(entries, key) == ids
    && (forall i, j :: 0 <= i < j < |entries| ==> key(entries[i]) != key(entries[j]))
    && (forall i :: 0 <= i < |entries| ==>
          key(entries[i]) in expected && entries[i] == expected[key(entries[i])])
  }

  /** Entries built one per key, in the order of an enumeration of `ids`,
      form a listing of `ids` with one entry per key. */
  lemma ListingInOrder<T>(entries: seq<T>, key: T -> string, expected: map<string, T>,
                          ks: seq<string>, ids: set<string>)
    requires Enumerates(ks, ids) && |entries| == |ks|
    requires forall j :: 0 <= j < |ks| ==>
      key(entries[j]) == ks[j] && ks[j] in expected && entries[j] == expected[ks[j]]
    ensures Listing(entries, key, expected, ids) && |entries| == |ids|
  {
    forall k | k in ids ensures k in KeysOf(entries, key) {
      var j :| 0 <= j < |ks| && ks[j] == k;
      assert key(entries[j]) == k;
    }
  }
}
