/** The volume classifier of the party profile page (`getParents`, `getVolumes`):
    it sorts the party's volumes into the login user's `individual` and
    `collaborator` tiers and into one `inherited` bucket per member parent.
    Groups hold positions in the party's volume list, so a volume that lands
    in several buckets is one and the same volume. */
module Classify {
  import opened Records
  import opened Sequences

  /** `{p, v}`: an inherited bucket for parent `p`; `v` holds volume positions. */
  datatype Bucket = Bucket(p: Authorization, v: seq<int>)

  datatype VolumeGroups = VolumeGroups(individual: seq<int>, collaborator: seq<int>, inherited: seq<Bucket>)

  /** Where a volume goes, decided by the login user's first access record. */
  datatype Tier = IndividualTier | CollaboratorTier | NoLoginAccess

  /** `getParents`: one empty bucket per parent whose `member` is truthy, in parent order. */
  function GetParents(parents: seq<Authorization>): (r: seq<Bucket>)
    ensures |r| == |Filter(parents, (a: Authorization) => a.member)|
    ensures forall j :: 0 <= j < |r| ==> r[j] == Bucket(Filter(parents, (a: Authorization) => a.member)[j], [])
  {
    var members := Filter(parents, (a: Authorization) => a.member);
    seq(|members|, j requires 0 <= j < |members| => Bucket(members[j], []))
  }

  /** A parent has a bucket iff it is a member; every bucket starts empty. */
  lemma {:induction false} GetParentsMembers(parents: seq<Authorization>, a: Authorization)
    ensures (exists j :: 0 <= j < |GetParents(parents)| && GetParents(parents)[j].p == a) <==> a in parents && a.member
    ensures forall j :: 0 <= j < |GetParents(parents)| ==> GetParents(parents)[j].v == []
  {
    var members := Filter(parents, (a: Authorization) => a.member);
    var r := GetParents(parents);
    if a in parents && a.member {
      assert a in members;
      var j :| 0 <= j < |members| && members[j] == a;
      assert r[j].p == a;
    }
  }

  function TierOf(v: Volume, login: int): Tier
  {
    match FindParty(v.access, login)
    case None => NoLoginAccess
    case Some(a) => if a.individual == Some(ADMIN) then IndividualTier else CollaboratorTier
  }

  /** The `network` marker: the login user's record exists and has `children` set. */
  predicate LoginInherits(v: Volume, login: int)
  {
    FindParty(v.access, login).Some? && FindParty(v.access, login).value.children
  }

  /** `alias || name`: the sort key of a volume. */
  function DisplayName(v: Volume): string
  {
    if v.alias.Some? && v.alias.value != "" then v.alias.value else v.name
  }

  function VolumeKey(vols: seq<Volume>): int -> string
  {
    (k: int) => if 0 <= k < |vols| then DisplayName(vols[k]) else ""
  }

  /** The login tier of each of the first `n` volumes. */
  function Tiers(vols: seq<Volume>, n: nat, login: int): (r: seq<Tier>)
    requires n <= |vols|
    ensures |r| == n
    ensures forall k :: 0 <= k < n ==> r[k] == TierOf(vols[k], login)
  {
    seq(n, k requires 0 <= k < n => TierOf(vols[k], login))
  }

  /** Positions, among the first `n` volumes, of those in tier `t`, in volume order. */
  function Picked(vols: seq<Volume>, n: nat, t: Tier, login: int): (r: seq<int>)
    requires n <= |vols|
  {
    Positions(Tiers(vols, n, login), t)
  }

  /** One more volume is appended when it is in tier `t`. */
  lemma PickedNext(vols: seq<Volume>, n: nat, t: Tier, login: int)
    requires n < |vols|
    ensures Picked(vols, n + 1, t, login)
         == Picked(vols, n, t, login) + (if TierOf(vols[n], login) == t then [n] else [])
  {
    assert Tiers(vols, n + 1, login)[..n] == Tiers(vols, n, login);
  }

  /** Each of the first `n` volumes is picked once when its tier is `t`, else never. */
  lemma PickedCount(vols: seq<Volume>, n: nat, t: Tier, login: int, k: int)
    requires n <= |vols|
    ensures multiset(Picked(vols, n, t, login))[k] == if 0 <= k < n && TierOf(vols[k], login) == t then 1 else 0
  {
    PositionsCount(Tiers(vols, n, login), t, k);
  }

  predicate Inherits(a: Access, pid: int)
  {
    a.children && a.party.id == pid
  }

  /** How many records grant party `pid` inheritable access. */
  function MatchCount(access: seq<Access>, pid: int): (r: nat)
    ensures r <= |access|
    ensures r == 0 <==> forall i :: 0 <= i < |access| ==> !Inherits(access[i], pid)
  {
    if access == [] then 0
    else
      var last := |access| - 1;
      assert forall i :: 0 <= i < last ==> access[..last][i] == access[i];
      MatchCount(access[..last], pid) + (if Inherits(access[last], pid) then 1 else 0)
  }

  /** How many times volume `k` goes into the bucket of parent `pid`. */
  function Entries(v: Volume, pid: int, login: int): nat
  {
    if TierOf(v, login) == NoLoginAccess then MatchCount(v.access, pid) else 0
  }

  /** `Entries` of each of the first `n` volumes. */
  function EntryCounts(vols: seq<Volume>, n: nat, pid: int, login: int): (r: seq<nat>)
    requires n <= |vols|
    ensures |r| == n
    ensures forall k :: 0 <= k < n ==> r[k] == Entries(vols[k], pid, login)
  {
    seq(n, k requires 0 <= k < n => Entries(vols[k], pid, login))
  }

  /** The contents of the bucket of parent `pid` after the first `n` volumes,
      in the order they were pushed. */
  function BucketFill(vols: seq<Volume>, n: nat, pid: int, login: int): seq<int>
    requires n <= |vols|
  {
    Spread(EntryCounts(vols, n, pid, login))
  }

  /** One more volume appends its entries to the bucket. */
  lemma BucketFillNext(vols: seq<Volume>, n: nat, pid: int, login: int)
    requires n < |vols|
    ensures BucketFill(vols, n + 1, pid, login) == BucketFill(vols, n, pid, login) + Repeat(n, Entries(vols[n], pid, login))
  {
    var counts := EntryCounts(vols, n, pid, login);
    assert EntryCounts(vols, n + 1, pid, login) == counts + [Entries(vols[n], pid, login)];
    SpreadNext(counts, Entries(vols[n], pid, login));
  }

  /** A bucket lists its volumes in the order of the party's volume list. */
  lemma BucketFillOrdered(vols: seq<Volume>, n: nat, pid: int, login: int)
    requires n <= |vols|
    ensures forall a, b :: 0 <= a < b < |BucketFill(vols, n, pid, login)| ==>
      BucketFill(vols, n, pid, login)[a] <= BucketFill(vols, n, pid, login)[b]
  {
    SpreadOrdered(EntryCounts(vols, n, pid, login));
  }

  /** A volume without login access lands in the bucket of `pid` once per record
      that lets `pid` inherit; any other volume never does. */
  lemma BucketFillCount(vols: seq<Volume>, n: nat, pid: int, login: int, k: int)
    requires 0 <= k < n <= |vols|
    ensures multiset(BucketFill(vols, n, pid, login))[k] == Entries(vols[k], pid, login)
  {
    SpreadCount(EntryCounts(vols, n, pid, login), k);
  }

  /** A bucket holds positions among the first `n` volumes only. */
  lemma BucketFillWithin(vols: seq<Volume>, n: nat, pid: int, login: int)
    requires n <= |vols|
    ensures InRange(BucketFill(vols, n, pid, login), n)
  {
    SpreadWithin(EntryCounts(vols, n, pid, login));
  }

  function FillBuckets(bs: seq<Bucket>, vols: seq<Volume>, login: int): (r: seq<Bucket>)
  {
    seq(|bs|, j requires 0 <= j < |bs| => Bucket(bs[j].p, BucketFill(vols, |vols|, bs[j].p.party.id, login)))
  }

  /** What `getVolumes` computes, stated group by group. */
  function Classification(vols: seq<Volume>, parents: seq<Authorization>, login: int): VolumeGroups
  {
    VolumeGroups(
      SortBy(Picked(vols, |vols|, IndividualTier, login), VolumeKey(vols)),
      SortBy(Picked(vols, |vols|, CollaboratorTier, login), VolumeKey(vols)),
      FillBuckets(GetParents(parents), vols, login))
  }

  /** The positions, among the first `n` volumes, that get the `network` marker. */
  function NetworkMarked(vols: seq<Volume>, n: nat, login: int): set<int>
    requires n <= |vols|
  {
    if n == 0 then {}
    else NetworkMarked(vols, n - 1, login) + (if LoginInherits(vols[n - 1], login) then {n - 1} else {})
  }

  /** A volume is marked iff the login user's first record on it has `children`
      set; no volume is ever unmarked. */
  lemma {:induction false} NetworkMarkedExactly(vols: seq<Volume>, n: nat, login: int, k: int)
    requires n <= |vols|
    ensures k in NetworkMarked(vols, n, login) <==> 0 <= k < n && LoginInherits(vols[k], login)
  {
    if n > 0 {
      NetworkMarkedExactly(vols, n - 1, login, k);
    }
  }

  /** The innermost loop of `getVolumes`: push volume `k` into every bucket
      whose parent the record `rec` lets inherit. */
  method PushToMatching(buckets: seq<Bucket>, k: int, rec: Access) returns (r: seq<Bucket>)
    ensures |r| == |buckets|
    ensures forall j :: 0 <= j < |r| ==>
      r[j] == if Inherits(rec, buckets[j].p.party.id) then Bucket(buckets[j].p, buckets[j].v + [k]) else buckets[j]
  {
    r := buckets;
    for j := 0 to |r|
      invariant |r| == |buckets|
      invariant forall j' :: 0 <= j' < j ==>
        r[j'] == if Inherits(rec, buckets[j'].p.party.id) then Bucket(buckets[j'].p, buckets[j'].v + [k]) else buckets[j']
      invariant forall j' :: j <= j' < |r| ==> r[j'] == buckets[j']
    {
      if rec.children && rec.party.id == r[j].p.party.id {
        r := r[j := Bucket(r[j].p, r[j].v + [k])];
      }
    }
  }

  /** The loop of `getVolumes` over the records of a volume `k` without login access. */
  method PushInherited(buckets: seq<Bucket>, k: int, access: seq<Access>) returns (r: seq<Bucket>)
    ensures |r| == |buckets|
    ensures forall j :: 0 <= j < |r| ==>
      r[j] == Bucket(buckets[j].p, buckets[j].v + Repeat(k, MatchCount(access, buckets[j].p.party.id)))
  {
    r := buckets;
    for i := 0 to |access|
      invariant |r| == |buckets|
      invariant forall j :: 0 <= j < |r| ==>
        r[j] == Bucket(buckets[j].p, buckets[j].v + Repeat(k, MatchCount(access[..i], buckets[j].p.party.id)))
    {
      assert access[..i + 1][..i] == access[..i];
      r := PushToMatching(r, k, access[i]);
    }
    assert access[..|access|] == access;
  }

  /** The buckets `bs` after the first `n` volumes were pushed. */
  ghost predicate Filled(inherited: seq<Bucket>, bs: seq<Bucket>, vols: seq<Volume>, n: nat, login: int)
    requires n <= |vols|
  {
    |inherited| == |bs|
    && forall j :: 0 <= j < |bs| ==> inherited[j] == Bucket(bs[j].p, BucketFill(vols, n, bs[j].p.party.id, login))
  }

  /** A volume with login access adds nothing to the buckets. */
  lemma FilledSkip(inherited: seq<Bucket>, bs: seq<Bucket>, vols: seq<Volume>, n: nat, login: int)
    requires n < |vols| && Filled(inherited, bs, vols, n, login)
    requires TierOf(vols[n], login) != NoLoginAccess
    ensures Filled(inherited, bs, vols, n + 1, login)
  {
    forall j | 0 <= j < |bs| ensures inherited[j] == Bucket(bs[j].p, BucketFill(vols, n + 1, bs[j].p.party.id, login)) {
      BucketFillNext(vols, n, bs[j].p.party.id, login);
    }
  }

  /** A volume without login access is pushed once per matching record. */
  lemma FilledPush(inherited: seq<Bucket>, pushed: seq<Bucket>, bs: seq<Bucket>, vols: seq<Volume>, n: nat, login: int)
    requires n < |vols| && Filled(inherited, bs, vols, n, login)
    requires TierOf(vols[n], login) == NoLoginAccess
    requires |pushed| == |inherited|
    requires forall j :: 0 <= j < |pushed| ==>
      pushed[j] == Bucket(inherited[j].p, inherited[j].v + Repeat(n, MatchCount(vols[n].access, inherited[j].p.party.id)))
    ensures Filled(pushed, bs, vols, n + 1, login)
  {
    forall j | 0 <= j < |bs| ensures pushed[j] == Bucket(bs[j].p, BucketFill(vols, n + 1, bs[j].p.party.id, login)) {
      BucketFillNext(vols, n, bs[j].p.party.id, login);
    }
  }

  /** The body of the `_.each(volumes, ...)` pass for volume `k`: the `network`
      marker, then the volume pushed into the group its login tier picks. */
  method PlaceVolume(vols: seq<Volume>, login: int, k: nat, ghost bs: seq<Bucket>,
                     individual: seq<int>, collaborator: seq<int>, inherited: seq<Bucket>, network: set<int>)
    returns (individual': seq<int>, collaborator': seq<int>, inherited': seq<Bucket>, network': set<int>)
    requires k < |vols| && Filled(inherited, bs, vols, k, login)
    ensures individual' == individual + (if TierOf(vols[k], login) == IndividualTier then [k] else [])
    ensures collaborator' == collaborator + (if TierOf(vols[k], login) == CollaboratorTier then [k] else [])
    ensures Filled(inherited', bs, vols, k + 1, login)
    ensures network' == network + (if LoginInherits(vols[k], login) then {k} else {})
  {
    individual', collaborator', inherited', network' := individual, collaborator, inherited, network;
    var v := vols[k];
    var isCurrent := FindParty(v.access, login);
    if isCurrent.Some? && isCurrent.value.children {
      network' := network + {k};
    }
    if isCurrent.Some? && isCurrent.value.individual == Some(ADMIN) {
      individual' := individual + [k];
      FilledSkip(inherited, bs, vols, k, login);
    } else if isCurrent.Some? {
      collaborator' := collaborator + [k];
      FilledSkip(inherited, bs, vols, k, login);
    } else {
      inherited' := PushInherited(inherited, k, v.access);
      FilledPush(inherited, inherited', bs, vols, k, login);
    }
  }

  /** The `_.each(volumes, ...)` pass of `getVolumes`: each volume pushed into
      its group, in volume order. The `network` marker is returned as the set of
      volume positions it is written on. */
  method Collate(vols: seq<Volume>, parents: seq<Authorization>, login: int)
    returns (individual: seq<int>, collaborator: seq<int>, inherited: seq<Bucket>, network: set<int>)
    ensures individual == Picked(vols, |vols|, IndividualTier, login)
    ensures collaborator == Picked(vols, |vols|, CollaboratorTier, login)
    ensures inherited == FillBuckets(GetParents(parents), vols, login)
    ensures network == NetworkMarked(vols, |vols|, login)
  {
    individual := [];
    collaborator := [];
    inherited := GetParents(parents);
    ghost var bs := inherited;
    network := {};
    for k := 0 to |vols|
      invariant individual == Picked(vols, k, IndividualTier, login)
      invariant collaborator == Picked(vols, k, CollaboratorTier, login)
      invariant Filled(inherited, bs, vols, k, login)
      invariant network == NetworkMarked(vols, k, login)
    {
      PickedNext(vols, k, IndividualTier, login);
      PickedNext(vols, k, CollaboratorTier, login);
      individual, collaborator, inherited, network :=
        PlaceVolume(vols, login, k, bs, individual, collaborator, inherited, network);
    }
    assert inherited == FillBuckets(bs, vols, login);
  }

  /** `getVolumes`: the collating pass, then the two login tiers sorted by display name. */
  method GetVolumes(vols: seq<Volume>, parents: seq<Authorization>, login: int)
    returns (groups: VolumeGroups, network: set<int>)
    ensures groups == Classification(vols, parents, login)
    ensures network == NetworkMarked(vols, |vols|, login)
  {
    var individual, collaborator, inherited;
    individual, collaborator, inherited, network := Collate(vols, parents, login);
    groups := VolumeGroups(SortBy(individual, VolumeKey(vols)), SortBy(collaborator, VolumeKey(vols)), inherited);
  }

  /** A sorted login tier holds volume `k` once when `k` is in that tier, else never. */
  lemma TierPlaced(vols: seq<Volume>, t: Tier, login: int, k: int)
    requires 0 <= k < |vols|
    ensures multiset(SortBy(Picked(vols, |vols|, t, login), VolumeKey(vols)))[k]
         == if TierOf(vols[k], login) == t then 1 else 0
  {
    SortByPermutes(Picked(vols, |vols|, t, login), VolumeKey(vols));
    PickedCount(vols, |vols|, t, login, k);
  }

  /** Every filled bucket holds volume `k` as often as `Entries` says. */
  lemma BucketsPlaced(bs: seq<Bucket>, vols: seq<Volume>, login: int, k: int)
    requires 0 <= k < |vols|
    ensures forall j :: 0 <= j < |FillBuckets(bs, vols, login)| ==>
      multiset(FillBuckets(bs, vols, login)[j].v)[k] == Entries(vols[k], FillBuckets(bs, vols, login)[j].p.party.id, login)
  {
    var fb := FillBuckets(bs, vols, login);
    forall j | 0 <= j < |fb|
      ensures multiset(fb[j].v)[k] == Entries(vols[k], fb[j].p.party.id, login)
    {
      BucketFillCount(vols, |vols|, bs[j].p.party.id, login, k);
    }
  }

  /** Every volume is placed by its login tier: exactly once in `individual` when the
      login user's first record is ADMIN, exactly once in `collaborator` when that
      record has any other level, and otherwise never in those two but once in the
      bucket of each member parent per record that lets that parent inherit. */
  lemma ClassifiedByLoginRecord(vols: seq<Volume>, parents: seq<Authorization>, login: int, k: int)
    requires 0 <= k < |vols|
    ensures var g := Classification(vols, parents, login);
      && multiset(g.individual)[k] == (if TierOf(vols[k], login) == IndividualTier then 1 else 0)
      && multiset(g.collaborator)[k] == (if TierOf(vols[k], login) == CollaboratorTier then 1 else 0)
      && forall j :: 0 <= j < |g.inherited| ==>
           multiset(g.inherited[j].v)[k] ==
             (if TierOf(vols[k], login) == NoLoginAccess then MatchCount(vols[k].access, g.inherited[j].p.party.id) else 0)
  {
    TierPlaced(vols, IndividualTier, login, k);
    TierPlaced(vols, CollaboratorTier, login, k);
    BucketsPlaced(GetParents(parents), vols, login, k);
  }

  /** The two login tiers are ordered by `alias || name`, ties in volume order;
      every bucket lists its volumes in the order of the party's volume list. */
  lemma {:induction false} ClassificationOrder(vols: seq<Volume>, parents: seq<Authorization>, login: int, name: string)
    ensures var g := Classification(vols, parents, login);
      && SortedBy(g.individual, VolumeKey(vols))
      && SortedBy(g.collaborator, VolumeKey(vols))
      && KeyClass(g.individual, VolumeKey(vols), name) == KeyClass(Picked(vols, |vols|, IndividualTier, login), VolumeKey(vols), name)
      && KeyClass(g.collaborator, VolumeKey(vols), name) == KeyClass(Picked(vols, |vols|, CollaboratorTier, login), VolumeKey(vols), name)
  {
    SortBySorted(Picked(vols, |vols|, IndividualTier, login), VolumeKey(vols));
    SortBySorted(Picked(vols, |vols|, CollaboratorTier, login), VolumeKey(vols));
    SortByStable(Picked(vols, |vols|, IndividualTier, login), VolumeKey(vols), name);
    SortByStable(Picked(vols, |vols|, CollaboratorTier, login), VolumeKey(vols), name);
  }


  /** Every group holds positions of the party's volume list only. */
  ghost predicate GroupsWithin(g: VolumeGroups, n: int)
  {
    InRange(g.individual, n) && InRange(g.collaborator, n)
    && forall j :: 0 <= j < |g.inherited| ==> InRange(g.inherited[j].v, n)
  }

  lemma {:induction false} ClassificationWithin(vols: seq<Volume>, parents: seq<Authorization>, login: int)
    ensures GroupsWithin(Classification(vols, parents, login), |vols|)
  {
    var g := Classification(vols, parents, login);
    var ind := Picked(vols, |vols|, IndividualTier, login);
    var col := Picked(vols, |vols|, CollaboratorTier, login);
    SortByPermutes(ind, VolumeKey(vols));
    SortByPermutes(col, VolumeKey(vols));
    forall i | 0 <= i < |g.individual| ensures 0 <= g.individual[i] < |vols| {
      assert g.individual[i] in multiset(ind);
    }
    forall i | 0 <= i < |g.collaborator| ensures 0 <= g.collaborator[i] < |vols| {
      assert g.collaborator[i] in multiset(col);
    }
    forall j | 0 <= j < |g.inherited| ensures InRange(g.inherited[j].v, |vols|) {
      BucketFillWithin(vols, |vols|, g.inherited[j].p.party.id, login);
    }
  }
}
