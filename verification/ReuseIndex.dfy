/**
 Password reuse between identities: the inverted index of app/routers/credentials_routes.py and the
 pairwise scan of app/credential_intel.py.
 */
module ReuseIndex {
  import opened Sequences

  datatype Identity = Identity(id: nat, tenant: nat, hashes: seq<string>)

  // Ids are the primary key.
  ghost predicate UniqueIds(cis: seq<Identity>) {
    forall i, j :: 0 <= i < j < |cis| ==> cis[i].id != cis[j].id
  }

  // The identities of the tenant among the first n that hold hash h.
  function IdsWith(cis: seq<Identity>, tenant: nat, h: string, n: nat): (r: set<nat>)
    requires n <= |cis|
    ensures forall x ::
      x in r <==> exists i :: 0 <= i < n && cis[i].tenant == tenant && h in cis[i].hashes && cis[i].id == x
  {
    set i | 0 <= i < n && cis[i].tenant == tenant && h in cis[i].hashes :: cis[i].id
  }

  predicate Shares(a: Identity, b: Identity) { exists h :: h in a.hashes && h in b.hashes }

  // The other identities of the tenant, among the first n, that share a password with ci.
  function Partners(cis: seq<Identity>, tenant: nat, ci: Identity, n: nat): set<nat>
    requires n <= |cis|
  {
    set i | 0 <= i < n && cis[i].tenant == tenant && cis[i].id != ci.id && Shares(ci, cis[i]) :: cis[i].id
  }

  // ---------- the pairwise scan ----------

  method ReusePartnerCount(cis: seq<Identity>, tenant: nat, ci: Identity) returns (n: nat)
    ensures n == |Partners(cis, tenant, ci, |cis|)|
  {
    if ci.hashes == [] {
      assert Partners(cis, tenant, ci, |cis|) == {};
      return 0;
    }
    var partners: set<nat> := {};
    for i := 0 to |cis|
      invariant partners == Partners(cis, tenant, ci, i)
    {
      if cis[i].tenant == tenant && cis[i].id != ci.id && Shares(ci, cis[i]) { partners := partners + {cis[i].id}; }
    }
    return |partners|;
  }

  // ---------- the inverted index ----------

  // hash_to_ids: the hashes in the order the index met them, and who holds each.
  datatype Index = Index(order: seq<string>, ids: map<string, set<nat>>)

  function Holders(index: Index, h: string): set<nat> { if h in index.ids then index.ids[h] else {} }

  ghost predicate WellFormed(index: Index) {
    && Distinct(index.order)
    && (forall h :: h in index.ids <==> h in index.order)
    && (forall h :: h in index.ids ==> index.ids[h] != {})
  }

  // The holders, for every hash, while the first m hashes of identity n are in.
  ghost predicate Indexes(index: Index, cis: seq<Identity>, tenant: nat, n: nat, m: nat)
    requires n <= |cis| && (m > 0 ==> n < |cis| && m <= |cis[n].hashes|)
  {
    forall h :: Holders(index, h)
             == IdsWith(cis, tenant, h, n) + if m > 0 && h in cis[n].hashes[..m] then {cis[n].id} else {}
  }

  function SetDefaultAdd(index: Index, h: string, id: nat): Index {
    Index(if h in index.ids then index.order else index.order + [h], index.ids[h := Holders(index, h) + {id}])
  }

  lemma AddKeeps(index: Index, h: string, id: nat)
    requires WellFormed(index)
    ensures WellFormed(SetDefaultAdd(index, h, id))
    ensures forall g :: Holders(SetDefaultAdd(index, h, id), g) == Holders(index, g) + if g == h then {id} else {}
  {
  }

  lemma AddIndexes(index: Index, cis: seq<Identity>, tenant: nat, n: nat, m: nat)
    requires n < |cis| && m < |cis[n].hashes| && cis[n].tenant == tenant
    requires WellFormed(index) && Indexes(index, cis, tenant, n, m)
    ensures Indexes(SetDefaultAdd(index, cis[n].hashes[m], cis[n].id), cis, tenant, n, m + 1)
  {
    hide IdsWith, WellFormed, SetDefaultAdd, Holders;
    var hashes := cis[n].hashes;
    AddKeeps(index, hashes[m], cis[n].id);
    assert hashes[..m + 1] == hashes[..m] + [hashes[m]];
  }

  lemma NextIndexes(index: Index, cis: seq<Identity>, tenant: nat, n: nat)
    requires n < |cis| && Indexes(index, cis, tenant, n, if cis[n].tenant == tenant then |cis[n].hashes| else 0)
    ensures Indexes(index, cis, tenant, n + 1, 0)
  {
    assert cis[n].hashes[..|cis[n].hashes|] == cis[n].hashes;
    hide Holders;
  }

  ghost predicate ById(byId: map<nat, Identity>, cis: seq<Identity>, tenant: nat, n: nat)
    requires n <= |cis|
  {
    forall i :: 0 <= i < n && cis[i].tenant == tenant ==> cis[i].id in byId && byId[cis[i].id] == cis[i]
  }

  method BuildIndex(cis: seq<Identity>, tenant: nat) returns (index: Index, byId: map<nat, Identity>)
    ensures WellFormed(index) && forall h :: Holders(index, h) == IdsWith(cis, tenant, h, |cis|)
    ensures UniqueIds(cis) ==> ById(byId, cis, tenant, |cis|)
  {
    index, byId := Index([], map[]), map[];
    hide IdsWith, WellFormed, Holders, SetDefaultAdd;
    StartIndexes(cis, tenant);
    for n := 0 to |cis|
      invariant WellFormed(index) && Indexes(index, cis, tenant, n, 0)
      invariant UniqueIds(cis) ==> ById(byId, cis, tenant, n)
    {
      if cis[n].tenant == tenant {
        byId := byId[cis[n].id := cis[n]];
        var hashes := cis[n].hashes;
        for m := 0 to |hashes|
          invariant WellFormed(index) && Indexes(index, cis, tenant, n, m)
        {
          AddKeeps(index, hashes[m], cis[n].id);
          AddIndexes(index, cis, tenant, n, m);
          index := SetDefaultAdd(index, hashes[m], cis[n].id);
        }
      }
      NextIndexes(index, cis, tenant, n);
    }
  }

  lemma StartIndexes(cis: seq<Identity>, tenant: nat)
    ensures WellFormed(Index([], map[])) && Indexes(Index([], map[]), cis, tenant, 0, 0)
  {
  }

  // The union of the holders of the first n hashes.
  function HoldersOfAny(hashes: seq<string>, index: Index, n: nat): set<nat>
    requires n <= |hashes|
  {
    if n == 0 then {} else HoldersOfAny(hashes, index, n - 1) + Holders(index, hashes[n - 1])
  }

  lemma {:induction false} HoldersOfAnyHold(hashes: seq<string>, index: Index, n: nat, x: nat)
    requires n <= |hashes|
    ensures x in HoldersOfAny(hashes, index, n) <==> exists k :: 0 <= k < n && x in Holders(index, hashes[k])
    decreases n
  {
    hide Holders;
    if n > 0 { HoldersOfAnyHold(hashes, index, n - 1, x); }
  }

  // The partners the index gives are those of the pairwise scan.
  lemma IndexedPartners(cis: seq<Identity>, tenant: nat, ci: Identity, index: Index)
    requires forall h :: Holders(index, h) == IdsWith(cis, tenant, h, |cis|)
    ensures HoldersOfAny(ci.hashes, index, |ci.hashes|) - {ci.id} == Partners(cis, tenant, ci, |cis|)
  {
    hide Holders;
    var found := HoldersOfAny(ci.hashes, index, |ci.hashes|) - {ci.id};
    var partners := Partners(cis, tenant, ci, |cis|);
    forall x | x in found
      ensures x in partners
    {
      HoldersOfAnyHold(ci.hashes, index, |ci.hashes|, x);
      var k :| 0 <= k < |ci.hashes| && x in Holders(index, ci.hashes[k]);
      var i :| 0 <= i < |cis| && cis[i].tenant == tenant && ci.hashes[k] in cis[i].hashes && cis[i].id == x;
      assert Shares(ci, cis[i]);
    }
    forall x | x in partners
      ensures x in found
    {
      var i :| 0 <= i < |cis| && cis[i].tenant == tenant && cis[i].id != ci.id && Shares(ci, cis[i]) && cis[i].id == x;
      var h :| h in ci.hashes && h in cis[i].hashes;
      var k :| 0 <= k < |ci.hashes| && ci.hashes[k] == h;
      assert x in Holders(index, h);
      HoldersOfAnyHold(ci.hashes, index, |ci.hashes|, x);
    }
  }

  method ReuseCountFor(cis: seq<Identity>, tenant: nat, ci: Identity, index: Index) returns (n: nat)
    requires forall h :: Holders(index, h) == IdsWith(cis, tenant, h, |cis|)
    ensures n == |Partners(cis, tenant, ci, |cis|)|
  {
    hide Partners, IdsWith, Holders;
    var partners: set<nat> := {};
    for k := 0 to |ci.hashes|
      invariant partners == HoldersOfAny(ci.hashes, index, k)
    {
      partners := partners + Holders(index, ci.hashes[k]);
    }
    IndexedPartners(cis, tenant, ci, index);
    return |partners - {ci.id}|;
  }

  // ---------- relations between identities ----------

  // Being related by reuse is symmetric.
  lemma RelatedIsSymmetric(cis: seq<Identity>, tenant: nat, i: nat, j: nat)
    requires i < |cis| && j < |cis| && UniqueIds(cis) && cis[i].tenant == cis[j].tenant == tenant
    ensures cis[j].id in Partners(cis, tenant, cis[i], |cis|) <==> cis[i].id in Partners(cis, tenant, cis[j], |cis|)
  {
    PartnerIff(cis, tenant, cis[i], j);
    PartnerIff(cis, tenant, cis[j], i);
    assert Shares(cis[i], cis[j]) <==> Shares(cis[j], cis[i]);
  }

  lemma PartnerIff(cis: seq<Identity>, tenant: nat, ci: Identity, j: nat)
    requires j < |cis| && UniqueIds(cis) && cis[j].tenant == tenant
    ensures cis[j].id in Partners(cis, tenant, ci, |cis|) <==> cis[j].id != ci.id && Shares(ci, cis[j])
  {
  }

  // ---------- reuse groups ----------

  datatype Group = Group(hash: string, members: set<nat>)

  // The groups shown for the first n hashes of the index.
  function GroupsTo(index: Index, n: nat): seq<Group>
    requires n <= |index.order|
  {
    if n == 0 then []
    else
      var h := index.order[n - 1];
      if |Holders(index, h)| < 2 then GroupsTo(index, n - 1) else GroupsTo(index, n - 1) + [Group(h, Holders(index, h))]
  }

  // groups.sort(key=identity_count, reverse=True): larger groups first, equal ones as they came.
  function InsertBySize(gs: seq<Group>, g: Group): (r: seq<Group>)
    ensures forall x :: x in r <==> x in gs || x == g
    ensures |r| == |gs| + 1
    ensures LargestFirst(gs) ==> LargestFirst(r)
  {
    if gs == [] || |gs[|gs| - 1].members| >= |g.members| then gs + [g]
    else
      var n := |gs| - 1;
      var r := InsertBySize(gs[..n], g);
      assert gs == gs[..n] + [gs[n]];
      assert forall k :: 0 <= k < |r| ==> r[k] in r;
      assert forall k :: 0 <= k < n ==> gs[..n][k] == gs[k];
      assert LargestFirst(gs) ==> forall x :: x in gs[..n] ==> |x.members| >= |gs[n].members|;
      r + [gs[n]]
  }

  predicate LargestFirst(gs: seq<Group>) {
    forall i, j :: 0 <= i < j < |gs| ==> |gs[i].members| >= |gs[j].members|
  }

  function BySize(gs: seq<Group>): (r: seq<Group>)
    ensures forall x :: x in r <==> x in gs
    ensures |r| == |gs| && LargestFirst(r)
  {
    if gs == [] then []
    else
      assert gs == gs[..|gs| - 1] + [gs[|gs| - 1]];
      InsertBySize(BySize(gs[..|gs| - 1]), gs[|gs| - 1])
  }

  // The groups of one size.
  function OfSize(gs: seq<Group>, size: nat): seq<Group> {
    if gs == [] then []
    else
      var n := |gs| - 1;
      if |gs[n].members| == size then OfSize(gs[..n], size) + [gs[n]] else OfSize(gs[..n], size)
  }

  lemma {:induction false} InsertKeepsOrder(gs: seq<Group>, g: Group, size: nat)
    ensures OfSize(InsertBySize(gs, g), size) == OfSize(gs, size) + if |g.members| == size then [g] else []
    decreases |gs|
  {
    var r := InsertBySize(gs, g);
    var n := |gs| - 1;
    if gs == [] || |gs[n].members| >= |g.members| {
      assert r[..|r| - 1] == gs;
    } else {
      InsertKeepsOrder(gs[..n], g, size);
      assert r[..|r| - 1] == InsertBySize(gs[..n], g);
    }
  }

  // Sorting keeps groups of equal size in the order they came.
  lemma {:induction false} BySizeKeepsOrder(gs: seq<Group>, size: nat)
    ensures OfSize(BySize(gs), size) == OfSize(gs, size)
    decreases |gs|
  {
    if gs != [] {
      BySizeKeepsOrder(gs[..|gs| - 1], size);
      InsertKeepsOrder(BySize(gs[..|gs| - 1]), gs[|gs| - 1], size);
    }
  }

  // What a response shows of a group: the first twelve characters of the hash, the size, the ids in ascending order.
  datatype View = View(group: string, identityCount: nat, identities: seq<nat>)

  ghost predicate Shows(v: View, g: Group) {
    && v.group == (if |g.hash| <= 12 then g.hash else g.hash[..12])
    && v.identityCount == |g.members|
    && (forall x :: x in v.identities <==> x in g.members)
    && (forall i, j :: 0 <= i < j < |v.identities| ==> v.identities[i] < v.identities[j])
  }

  // sorted(members)
  method Ascending(members: set<nat>) returns (ids: seq<nat>)
    ensures forall x :: x in ids <==> x in members
    ensures forall i, j :: 0 <= i < j < |ids| ==> ids[i] < ids[j]
  {
    var rest := members;
    ids := [];
    while rest != {}
      invariant rest <= members && forall x :: x in ids <==> x in members && x !in rest
      invariant forall i, j :: 0 <= i < j < |ids| ==> ids[i] < ids[j]
      invariant forall x, y :: x in ids && y in rest ==> x < y
      decreases |rest|
    {
      var least := Least(rest);
      assert forall i :: 0 <= i < |ids| ==> ids[i] in ids;
      ids, rest := ids + [least], rest - {least};
    }
  }

  method Least(s: set<nat>) returns (m: nat)
    requires s != {}
    ensures m in s && forall x :: x in s ==> m <= x
  {
    var rest := s;
    m :| m in rest;
    rest := rest - {m};
    while rest != {}
      invariant rest <= s && m in s && forall x :: x in s && x !in rest ==> m <= x
      decreases |rest|
    {
      var x :| x in rest;
      rest := rest - {x};
      if x < m { m := x; }
    }
  }

  method ShowGroup(g: Group) returns (v: View)
    ensures Shows(v, g)
  {
    var ids := Ascending(g.members);
    return View(if |g.hash| <= 12 then g.hash else g.hash[..12], |g.members|, ids);
  }

  method PasswordReuse(index: Index) returns (views: seq<View>)
    ensures var gs := BySize(GroupsTo(index, |index.order|));
      |views| == |gs| && forall k :: 0 <= k < |gs| ==> Shows(views[k], gs[k])
  {
    hide Shows, Holders, BySize;
    var groups: seq<Group> := [];
    for n := 0 to |index.order|
      invariant groups == GroupsTo(index, n)
    {
      var h := index.order[n];
      if |Holders(index, h)| < 2 { continue; }
      groups := groups + [Group(h, Holders(index, h))];
    }
    hide GroupsTo;
    groups := BySize(groups);
    views := [];
    for k := 0 to |groups|
      invariant |views| == k && forall i :: 0 <= i < k ==> Shows(views[i], groups[i])
    {
      var v := ShowGroup(groups[k]);
      views := views + [v];
    }
  }

  ghost predicate Shown(groups: seq<Group>, h: string, members: set<nat>) {
    exists k :: 0 <= k < |groups| && groups[k] == Group(h, members)
  }

  lemma {:induction false} GroupsShown(index: Index, n: nat, h: string, members: set<nat>)
    requires n <= |index.order|
    ensures Shown(GroupsTo(index, n), h, members)
       <==> h in index.order[..n] && members == Holders(index, h) && |members| >= 2
    decreases n
  {
    if n > 0 {
      GroupsShown(index, n - 1, h, members);
      hide Holders;
      assert index.order[..n] == index.order[..n - 1] + [index.order[n - 1]];
      var before, g := GroupsTo(index, n - 1), Group(index.order[n - 1], Holders(index, index.order[n - 1]));
      if Shown(before, h, members) {
        var k :| 0 <= k < |before| && before[k] == Group(h, members);
        assert (before + [g])[k] == Group(h, members);
      }
      assert (before + [g])[|before|] == g;
    }
  }

  // A group of a hash is all its holders.
  lemma OnlyHolders(index: Index, h: string)
    ensures forall g :: g in BySize(GroupsTo(index, |index.order|)) && g.hash == h ==> g.members == Holders(index, h)
  {
    hide BySize, GroupsTo, Holders;
    var gs := GroupsTo(index, |index.order|);
    forall g | g in BySize(gs) && g.hash == h
      ensures g.members == Holders(index, h)
    {
      var k :| 0 <= k < |gs| && gs[k] == g;
      assert Shown(gs, h, g.members);
      GroupsShown(index, |index.order|, h, g.members);
    }
  }

  lemma TwoMembers(s: set<nat>)
    ensures |s| >= 2 <==> exists x, y :: x in s && y in s && x != y
  {
    if |s| >= 2 {
      var x :| x in s;
      assert |s - {x}| >= 1;
      var y :| y in s - {x};
    }
    if x, y :| x in s && y in s && x != y {
      assert {x, y} <= s;
      SubsetSize({x, y}, s);
    }
  }

  lemma {:induction false} SubsetSize(a: set<nat>, b: set<nat>)
    requires a <= b
    ensures |a| <= |b|
  {
    if a != {} {
      var x :| x in a;
      SubsetSize(a - {x}, b - {x});
    }
  }

  // A hash has a group exactly when two identities of the tenant hold it; the group has all its holders.
  lemma GroupShownIff(cis: seq<Identity>, tenant: nat, index: Index, h: string)
    requires UniqueIds(cis) && WellFormed(index) && forall g :: Holders(index, g) == IdsWith(cis, tenant, g, |cis|)
    ensures Shown(GroupsTo(index, |index.order|), h, IdsWith(cis, tenant, h, |cis|))
       <==> exists i, j :: 0 <= i < j < |cis| && HoldsIt(cis[i], tenant, h) && HoldsIt(cis[j], tenant, h)
    ensures forall g :: g in BySize(GroupsTo(index, |index.order|)) && g.hash == h ==>
      g.members == IdsWith(cis, tenant, h, |cis|)
  {
    OnlyHolders(index, h);
    hide BySize;
    var members := IdsWith(cis, tenant, h, |cis|);
    GroupsShown(index, |index.order|, h, members);
    assert index.order[..|index.order|] == index.order;
    TwoMembers(members);
    assert |members| >= 2 ==> h in index.order;
    hide GroupsTo, Shown, WellFormed, Holders;
    if x, y :| x in members && y in members && x != y {
      var i :| 0 <= i < |cis| && cis[i].tenant == tenant && h in cis[i].hashes && cis[i].id == x;
      var j :| 0 <= j < |cis| && cis[j].tenant == tenant && h in cis[j].hashes && cis[j].id == y;
      assert HoldsIt(cis[i], tenant, h) && HoldsIt(cis[j], tenant, h);
    }
    if i, j :| 0 <= i < j < |cis| && HoldsIt(cis[i], tenant, h) && HoldsIt(cis[j], tenant, h) {
      assert cis[i].id in members && cis[j].id in members && cis[i].id != cis[j].id;
    }
  }

  predicate HoldsIt(ci: Identity, tenant: nat, h: string) { ci.tenant == tenant && h in ci.hashes }
}
