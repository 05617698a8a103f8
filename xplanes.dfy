/**
 * `XPlanes`: the beacons heard so far, keyed by the address X-Plane listens
 * on. The Go map is keyed by that address's `String()`; here the key is the
 * address itself, assuming every address arrives in one canonical form
 * (`String()` prints an IPv4 address and its IPv4-mapped form alike).
 */
module Xplanes {
  import opened Wrappers
  import opened Beacon

  /** The registry after `Add(xpb)` on m: the first beacon seen at an address stays. */
  function Added(m: map<UdpAddr, XPlaneBeacon>, xpb: XPlaneBeacon): map<UdpAddr, XPlaneBeacon>
  {
    if Addr(xpb) in m then m else m[Addr(xpb) := xpb]
  }

  /** Every entry is filed under its own beacon's address. */
  ghost predicate Keyed(m: map<UdpAddr, XPlaneBeacon>)
  {
    forall a | a in m :: a == Addr(m[a])
  }

  /** After Add the address is known, and it holds the first beacon heard there. */
  lemma AddedHas(m: map<UdpAddr, XPlaneBeacon>, xpb: XPlaneBeacon)
    ensures Addr(xpb) in Added(m, xpb)
    ensures Added(m, xpb)[Addr(xpb)] == if Addr(xpb) in m then m[Addr(xpb)] else xpb
  {
  }

  /** Add touches no other address, and forgets nothing. */
  lemma AddedKeepsOthers(m: map<UdpAddr, XPlaneBeacon>, xpb: XPlaneBeacon, a: UdpAddr)
    requires a != Addr(xpb)
    ensures a in Added(m, xpb) <==> a in m
    ensures a in m ==> Added(m, xpb)[a] == m[a]
  {
  }

  /** Add grows the registry by one exactly when the address is new. */
  lemma AddedSize(m: map<UdpAddr, XPlaneBeacon>, xpb: XPlaneBeacon)
    ensures |Added(m, xpb)| == if Addr(xpb) in m then |m| else |m| + 1
  {
    if Addr(xpb) !in m {
      assert Added(m, xpb).Keys == m.Keys + {Addr(xpb)};
    }
  }

  /** Adding the same beacon twice is adding it once. */
  lemma AddedIdempotent(m: map<UdpAddr, XPlaneBeacon>, xpb: XPlaneBeacon)
    ensures Added(Added(m, xpb), xpb) == Added(m, xpb)
  {
  }

  /** A later beacon from the same address does not replace the first. */
  lemma AddedFirstWins(m: map<UdpAddr, XPlaneBeacon>, first: XPlaneBeacon, later: XPlaneBeacon)
    requires Addr(later) == Addr(first)
    ensures Added(Added(m, first), later) == Added(m, first)
  {
  }

  /** Add keeps every entry under its own address. */
  lemma AddedKeyed(m: map<UdpAddr, XPlaneBeacon>, xpb: XPlaneBeacon)
    requires Keyed(m)
    ensures Keyed(Added(m, xpb))
  {
  }

  /** A walk over keys that has visited order, each key once, and has rest still to visit. */
  ghost predicate Walked(keys: set<UdpAddr>, order: seq<UdpAddr>, rest: set<UdpAddr>)
  {
    && rest <= keys
    && |order| + |rest| == |keys|
    && (forall i | 0 <= i < |order| :: order[i] in keys && order[i] !in rest)
    && (forall a | a in keys :: a in order || a in rest)
    && (forall i, j | 0 <= i < j < |order| :: order[i] != order[j])
  }

  /** Visiting one more key keeps the walk a walk. */
  lemma WalkStep(keys: set<UdpAddr>, order: seq<UdpAddr>, rest: set<UdpAddr>, a: UdpAddr)
    requires Walked(keys, order, rest) && a in rest
    ensures Walked(keys, order + [a], rest - {a})
  {
    var o := order + [a];
    forall i | 0 <= i < |o|
      ensures o[i] in keys && o[i] !in rest - {a}
    {
      if i < |order| {
        assert o[i] == order[i];
      }
    }
    forall b | b in keys
      ensures b in o || b in rest - {a}
    {
      if b in order {
        var i :| 0 <= i < |order| && order[i] == b;
        assert o[i] == b;
      }
    }
    forall i, j | 0 <= i < j < |o|
      ensures o[i] != o[j]
    {
      assert o[i] == order[i];
      if j < |order| {
        assert o[j] == order[j];
      }
    }
  }

  class XPlanes {
    var entries: map<UdpAddr, XPlaneBeacon>

    ghost predicate Valid()
      reads this
    {
      Keyed(entries)
    }

    /** `XPlanes{}` */
    constructor()
      ensures entries == map[] && Valid()
    {
      entries := map[];
    }

    /** `Add` */
    method Add(xpb: XPlaneBeacon)
      requires Valid()
      modifies this
      ensures entries == Added(old(entries), xpb) && Valid()
    {
      var s := Addr(xpb);
      if s in entries {
        return;
      }
      entries := entries[s := xpb];
    }

    /**
     * `List`: the identifiers of all entries, in the order the map happens to
     * be walked; `order` is that walk, each address exactly once.
     */
    method List() returns (list: seq<string>, ghost order: seq<UdpAddr>)
      ensures |list| == |order| == |entries|
      ensures forall i | 0 <= i < |order| :: order[i] in entries && list[i] == Name(entries[order[i]])
      ensures forall a | a in entries :: a in order
      ensures forall i, j | 0 <= i < j < |order| :: order[i] != order[j]
    {
      list := [];
      order := [];
      var rest := entries.Keys;
      while rest != {}
        invariant Walked(entries.Keys, order, rest)
        invariant |list| == |order|
        invariant forall i | 0 <= i < |order| :: order[i] in entries && list[i] == Name(entries[order[i]])
        decreases |rest|
      {
        var a :| a in rest;
        WalkStep(entries.Keys, order, rest, a);
        list := list + [Name(entries[a])];
        order := order + [a];
        rest := rest - {a};
      }
    }

    /**
     * `Find`: the address of an entry whose identifier is id, or nothing when
     * no entry has that identifier.
     */
    method Find(id: string) returns (r: Option<UdpAddr>)
      requires Valid()
      ensures r.None? <==> forall a | a in entries :: Name(entries[a]) != id
      ensures r.Some? ==> r.value in entries && Name(entries[r.value]) == id && r.value == Addr(entries[r.value])
    {
      var rest := entries.Keys;
      while rest != {}
        invariant rest <= entries.Keys
        invariant forall a | a in entries && a !in rest :: Name(entries[a]) != id
        decreases |rest|
      {
        var a :| a in rest;
        if Name(entries[a]) == id {
          return Some(Addr(entries[a]));
        }
        rest := rest - {a};
      }
      return None;
    }
  }
}
