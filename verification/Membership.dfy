/**
 The group table of the channel store as a value: which connection ids each group holds,
 how often a list of groups reaches an id, and the two ways of counting memberships.
 */
module Membership {
  import opened Wrappers

  const TWO_TO_64: nat := 0x1_0000_0000_0000_0000

  type ConnId = i: nat | i < TWO_TO_64
  type Group = string
  type GroupMap = map<Group, set<ConnId>>

  /** The id handed to the registration with the given serial number; the counter starts at 1 and wraps. */
  function IdOf(serial: nat): ConnId {
    (serial + 1) % TWO_TO_64
  }

  /** The first registration that was given this id. */
  function SerialOf(id: ConnId): nat {
    if id == 0 then TWO_TO_64 - 1 else id - 1
  }

  /** The first 2^64 registrations get different ids: an id determines its registration. */
  lemma IdsNeverReused(serial: nat)
    requires serial < TWO_TO_64
    ensures SerialOf(IdOf(serial)) == serial
  {
    if serial + 1 < TWO_TO_64 {
      assert IdOf(serial) == serial + 1;
    } else {
      assert IdOf(serial) == 0;
    }
  }

  /** The counter that hands out the ids: adding one, with the wrap of a 64-bit addition. */
  lemma NextId(serial: nat)
    ensures (IdOf(serial) + 1) % TWO_TO_64 == IdOf(serial + 1)
  {
  }

  /** The bound is exact: the registration after those gets the id of the first one again. */
  lemma IdsWrap(serial: nat)
    ensures IdOf(serial + TWO_TO_64) == IdOf(serial)
  {
    var m: nat := TWO_TO_64;
    assert serial + m + 1 == (serial + 1) + 1 * m;
  }

  function Members(gm: GroupMap, g: Group): set<ConnId> {
    if g in gm then gm[g] else {}
  }

  /** How many positions of the list name a group that holds the id. */
  function Occurrences(gm: GroupMap, list: seq<Group>, id: ConnId): nat {
    if list == [] then 0
    else Occurrences(gm, list[..|list| - 1], id) + (if id in Members(gm, list[|list| - 1]) then 1 else 0)
  }

  /** The positions, among the first n of the list, that name a group holding the id. */
  function Positions(gm: GroupMap, list: seq<Group>, n: nat, id: ConnId): set<nat>
    requires n <= |list|
  {
    set p: nat | p < n && id in Members(gm, list[p])
  }

  lemma OnePositionMore(gm: GroupMap, list: seq<Group>, n: nat, id: ConnId)
    requires n < |list|
    ensures |Positions(gm, list, n + 1, id)| == |Positions(gm, list, n, id)| + (if id in Members(gm, list[n]) then 1 else 0)
  {
    hide Members;
    var before := Positions(gm, list, n, id);
    if id in Members(gm, list[n]) {
      assert Positions(gm, list, n + 1, id) == before + {n};
    } else {
      assert Positions(gm, list, n + 1, id) == before;
    }
  }

  lemma OccurrencesMore(gm: GroupMap, list: seq<Group>, n: nat, id: ConnId)
    requires n < |list|
    ensures Occurrences(gm, list[..n + 1], id)
         == Occurrences(gm, list[..n], id) + (if id in Members(gm, list[n]) then 1 else 0)
  {
    hide Members;
    assert list[..n + 1][..n] == list[..n];
  }

  /** Occurrences counts positions, each one for itself, whatever the list repeats. */
  lemma {:induction false} OccurrencesExactly(gm: GroupMap, list: seq<Group>, n: nat, id: ConnId)
    requires n <= |list|
    ensures Occurrences(gm, list[..n], id) == |Positions(gm, list, n, id)|
  {
    if n > 0 {
      OccurrencesExactly(gm, list, n - 1, id);
      OccurrencesMore(gm, list, n - 1, id);
      OnePositionMore(gm, list, n - 1, id);
      hide *;
    } else {
      assert Positions(gm, list, 0, id) == {};
    }
  }

  /** How many copies a broadcast to the list owes a registered id. */
  function Quota(gm: GroupMap, list: seq<Group>, exclude: Option<ConnId>, id: ConnId): nat {
    if exclude == Some(id) then 0 else Occurrences(gm, list, id)
  }

  function GroupsOf(gm: GroupMap, id: ConnId): set<Group> {
    set g | g in gm && id in gm[g]
  }

  /** The two totals a caller can form: over groups by size, over ids by number of groups. */
  function TotalSize(gm: GroupMap, gs: seq<Group>): nat {
    if gs == [] then 0 else TotalSize(gm, gs[1..]) + |Members(gm, gs[0])|
  }

  function TotalGroups(gm: GroupMap, ids: seq<ConnId>): nat {
    if ids == [] then 0 else TotalGroups(gm, ids[1..]) + |GroupsOf(gm, ids[0])|
  }

  ghost predicate Distinct<T(!new)>(xs: seq<T>) {
    forall i, j :: 0 <= i < j < |xs| ==> xs[i] != xs[j]
  }

  ghost function PairsByGroup(gm: GroupMap, gs: seq<Group>): set<(Group, ConnId)> {
    set g, id | g in gs && id in Members(gm, g) :: (g, id)
  }

  ghost function PairsById(gm: GroupMap, ids: seq<ConnId>): set<(Group, ConnId)> {
    set id, g | id in ids && g in GroupsOf(gm, id) :: (g, id)
  }

  lemma {:induction false} ImageSize<A, B>(xs: set<A>, ys: set<B>, f: A -> B)
    requires forall x, y :: x in xs && y in xs && f(x) == f(y) ==> x == y
    requires ys == set x | x in xs :: f(x)
    ensures |ys| == |xs|
  {
    if xs == {} {
      assert ys == {};
    } else {
      var x :| x in xs;
      var rest := xs - {x};
      var image := ys - {f(x)};
      assert image == set y | y in rest :: f(y);
      ImageSize(rest, image, f);
    }
  }

  lemma {:induction false} TotalSizeCountsPairs(gm: GroupMap, gs: seq<Group>)
    requires Distinct(gs)
    ensures TotalSize(gm, gs) == |PairsByGroup(gm, gs)|
  {
    if gs == [] {
      assert PairsByGroup(gm, gs) == {};
    } else {
      var g, rest := gs[0], gs[1..];
      TotalSizeCountsPairs(gm, rest);
      var here := set id | id in Members(gm, g) :: (g, id);
      ImageSize(Members(gm, g), here, id => (g, id));
      assert forall x :: x in gs <==> x == g || x in rest;
      assert PairsByGroup(gm, gs) == here + PairsByGroup(gm, rest);
      assert here !! PairsByGroup(gm, rest);
    }
  }

  lemma {:induction false} TotalGroupsCountsPairs(gm: GroupMap, ids: seq<ConnId>)
    requires Distinct(ids)
    ensures TotalGroups(gm, ids) == |PairsById(gm, ids)|
  {
    if ids == [] {
      assert PairsById(gm, ids) == {};
    } else {
      var id, rest := ids[0], ids[1..];
      TotalGroupsCountsPairs(gm, rest);
      var here := set g | g in GroupsOf(gm, id) :: (g, id);
      ImageSize(GroupsOf(gm, id), here, g => (g, id));
      assert forall x :: x in ids <==> x == id || x in rest;
      assert PairsById(gm, ids) == here + PairsById(gm, rest);
      assert here !! PairsById(gm, rest);
    }
  }

  /** Listing every group and every member id once, the two totals agree. */
  lemma SizesBalance(gm: GroupMap, gs: seq<Group>, ids: seq<ConnId>)
    requires Distinct(gs) && Distinct(ids)
    requires forall g :: g in gs <==> g in gm
    requires forall g, id :: g in gm && id in gm[g] ==> id in ids
    ensures TotalSize(gm, gs) == TotalGroups(gm, ids)
  {
    TotalSizeCountsPairs(gm, gs);
    TotalGroupsCountsPairs(gm, ids);
    assert PairsByGroup(gm, gs) == PairsById(gm, ids);
  }
}
