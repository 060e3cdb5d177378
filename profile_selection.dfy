/** The selection linker of the party profile page (`unselectAll`,
    `clickVolume`, `clickUser`). The page state is a class whose fields hold
    the `isSelected` and `userAccess` classes of every volume (by position in
    the party's volume list, so a volume listed in several inherited buckets
    has one state), of every inherited bucket and of every person slot. */
module Selection {
  import opened Records
  import opened Sequences
  import opened Classify
  import opened People

  /** The `isSelected` class. `Unset` is the JavaScript `undefined` an item has
      before anything was written to it; `Cleared` is the empty string. */
  datatype Tag = Unset | Cleared | VolumeClicked | UserSelected | NotSelected | UserClicked | VolumeSelected

  /** The `userAccess` class: not written yet, or `'ua'` followed by a level;
      `UA(None)` is the string `'uaundefined'`. */
  datatype Badge = NoBadge | UA(level: Option<int>)

  datatype Mark = Mark(tag: Tag, badge: Badge)

  /** What a click in the volume panel targets: the volume at a position, or an inherited bucket. */
  datatype Item = ListedVolume(k: int) | InheritedBucket(j: int)

  /** The whole selection state: `expanded`, one mark per volume position,
      one tag per inherited bucket, one mark per person slot. */
  datatype Marks = Marks(expanded: bool, volumes: seq<Mark>, buckets: seq<Tag>, people: seq<Mark>)

  /** The party ids of a list of links or records, in order; `party` picks the
      party out of an entry. */
  function PartyIdsOf<T>(s: seq<T>, party: T -> Party): (r: seq<int>)
    ensures |r| == |s|
    ensures forall i :: 0 <= i < |s| ==> r[i] == party(s[i]).id
  {
    seq(|s|, i requires 0 <= i < |s| => party(s[i]).id)
  }

  /** The party ids of the person slots, group after group as the handlers visit them. */
  function PersonIds(u: Users): seq<int>
  {
    var link := (a: Authorization) => a.party;
    PartyIdsOf(u.sponsors, link) + PartyIdsOf(u.databrary, link) + PartyIdsOf(u.labOnly, link)
      + PartyIdsOf(u.otherCollaborators, (a: Access) => a.party)
  }

  predicate InBuckets(bs: seq<Bucket>, k: int)
  {
    exists j :: 0 <= j < |bs| && k in bs[j].v
  }

  /** Volume `k` is listed somewhere on the page: in a login tier or in a bucket. */
  predicate Shown(g: VolumeGroups, k: int)
  {
    k in g.individual || k in g.collaborator || InBuckets(g.inherited, k)
  }

  lemma InBucketsStep(bs: seq<Bucket>, j: int, k: int)
    requires 0 <= j < |bs|
    ensures InBuckets(bs[..j + 1], k) <==> InBuckets(bs[..j], k) || k in bs[j].v
  {
    if InBuckets(bs[..j + 1], k) {
      var b :| 0 <= b < j + 1 && k in bs[..j + 1][b].v;
      if b < j {
        assert bs[..j][b] == bs[b];
      }
    }
    if InBuckets(bs[..j], k) {
      var b :| 0 <= b < j && k in bs[..j][b].v;
      assert bs[..j + 1][b] == bs[b];
    }
    if k in bs[j].v {
      assert bs[..j + 1][j] == bs[j];
    }
  }

  ghost predicate Fits(m: Marks, g: VolumeGroups, n: int, ids: seq<int>)
  {
    |m.volumes| == n && |m.buckets| == |g.inherited| && |m.people| == |ids|
  }

  /** `unselectAll`: `expanded` off and `isSelected` emptied on every listed
      volume, every bucket and every person; `userAccess` is left as it was. */
  function Unselected(m: Marks, g: VolumeGroups): Marks
  {
    Marks(false,
          seq(|m.volumes|, k requires 0 <= k < |m.volumes| =>
            if Shown(g, k) then Mark(Cleared, m.volumes[k].badge) else m.volumes[k]),
          seq(|m.buckets|, _ => Cleared),
          seq(|m.people|, s requires 0 <= s < |m.people| => Mark(Cleared, m.people[s].badge)))
  }

  /** Clearing twice is clearing once. */
  lemma UnselectedIdempotent(m: Marks, g: VolumeGroups)
    ensures Unselected(Unselected(m, g), g) == Unselected(m, g)
  {
    var u := Unselected(m, g);
    var uu := Unselected(u, g);
    assert uu.volumes == u.volumes;
    assert uu.people == u.people;
  }

  /** One access record as `userSelectFunction` applies it to one person. */
  function PersonStep(mk: Mark, id: int, rec: Access): Mark
  {
    if id == rec.party.id then Mark(UserSelected, UA(rec.individual)) else Mark(NotSelected, mk.badge)
  }

  /** A person's mark after the records `recs` were applied in order. */
  function PersonAfter(mk: Mark, id: int, recs: seq<Access>): Mark
  {
    if recs == [] then mk
    else PersonStep(PersonAfter(mk, id, recs[..|recs| - 1]), id, recs[|recs| - 1])
  }

  /** Applying two runs of records is applying their concatenation. */
  lemma {:induction false} PersonAfterConcat(mk: Mark, id: int, a: seq<Access>, b: seq<Access>)
    ensures PersonAfter(mk, id, a + b) == PersonAfter(PersonAfter(mk, id, a), id, b)
  {
    if b == [] {
      assert a + b == a;
    } else {
      var n := |b| - 1;
      PersonAfterConcat(mk, id, a, b[..n]);
      assert (a + b)[..|a + b| - 1] == a + b[..n];
    }
  }

  /** Record `i` is the last one held by party `id`. */
  ghost predicate LastHeld(recs: seq<Access>, id: int, i: int)
  {
    0 <= i < |recs| && recs[i].party.id == id && forall j :: i < j < |recs| ==> recs[j].party.id != id
  }

  /** A person holding none of the records keeps the badge. */
  lemma {:induction false} PersonAfterKept(mk: Mark, id: int, recs: seq<Access>)
    requires forall i :: 0 <= i < |recs| ==> recs[i].party.id != id
    ensures PersonAfter(mk, id, recs).badge == mk.badge
  {
    if recs != [] {
      var pre := recs[..|recs| - 1];
      forall i | 0 <= i < |pre| ensures pre[i].party.id != id {
        assert pre[i] == recs[i];
      }
      PersonAfterKept(mk, id, pre);
    }
  }

  /** The badge is that of the last record the person holds. */
  lemma {:induction false} PersonAfterLastHeld(mk: Mark, id: int, recs: seq<Access>, i: int)
    requires LastHeld(recs, id, i)
    ensures PersonAfter(mk, id, recs).badge == UA(recs[i].individual)
  {
    var n := |recs| - 1;
    if i < n {
      var pre := recs[..n];
      assert pre[i] == recs[i];
      forall j | i < j < n ensures pre[j].party.id != id {
        assert pre[j] == recs[j];
      }
      assert LastHeld(pre, id, i);
      PersonAfterLastHeld(mk, id, pre, i);
    }
  }

  /** The outcome of a run of records for one person: the tag is decided by the
      last record alone, the badge by the last record that person holds. */
  lemma {:induction false} PersonAfterLastWins(mk: Mark, id: int, recs: seq<Access>)
    ensures recs == [] ==> PersonAfter(mk, id, recs) == mk
    ensures recs != [] ==>
      PersonAfter(mk, id, recs).tag == (if recs[|recs| - 1].party.id == id then UserSelected else NotSelected)
    ensures (forall i :: 0 <= i < |recs| ==> recs[i].party.id != id) ==> PersonAfter(mk, id, recs).badge == mk.badge
    ensures forall i :: LastHeld(recs, id, i) ==> PersonAfter(mk, id, recs).badge == UA(recs[i].individual)
  {
    if forall i :: 0 <= i < |recs| ==> recs[i].party.id != id {
      PersonAfterKept(mk, id, recs);
    }
    forall i | LastHeld(recs, id, i)
      ensures PersonAfter(mk, id, recs).badge == UA(recs[i].individual)
    {
      PersonAfterLastHeld(mk, id, recs, i);
    }
  }

  /** Some record is held by `id`, so a last one is. */
  lemma {:induction false} LastHeldExists(recs: seq<Access>, id: int, i: int)
    requires 0 <= i < |recs| && recs[i].party.id == id
    ensures exists l :: LastHeld(recs, id, l)
  {
    var n := |recs| - 1;
    if recs[n].party.id == id {
      assert LastHeld(recs, id, n);
    } else {
      assert i < n;
      LastHeldExists(recs[..n], id, i);
      var l :| LastHeld(recs[..n], id, l);
      assert LastHeld(recs, id, l);
    }
  }

  predicate ValidItem(item: Item, n: int, g: VolumeGroups)
  {
    match item
    case ListedVolume(k) => 0 <= k < n
    case InheritedBucket(j) => 0 <= j < |g.inherited|
  }

  /** `_.flatten([volume.v || volume])`: the volumes whose records a click processes. */
  function ClickedVolumes(g: VolumeGroups, item: Item): seq<int>
    requires item.InheritedBucket? ==> 0 <= item.j < |g.inherited|
  {
    match item
    case ListedVolume(k) => [k]
    case InheritedBucket(j) => g.inherited[j].v
  }

  /** `clickVolume(item)`. */
  function ClickVolumeState(m: Marks, g: VolumeGroups, vols: seq<Volume>, ids: seq<int>, item: Item): Marks
    requires GroupsWithin(g, |vols|) && Fits(m, g, |vols|, ids) && ValidItem(item, |vols|, g)
  {
    var u := Unselected(m, g);
    var recs := AccessOf(vols, ClickedVolumes(g, item));
    Marks(true,
          if item.ListedVolume? then u.volumes[item.k := Mark(VolumeClicked, u.volumes[item.k].badge)] else u.volumes,
          if item.InheritedBucket? then u.buckets[item.j := VolumeClicked] else u.buckets,
          seq(|u.people|, s requires 0 <= s < |u.people| => PersonAfter(u.people[s], ids[s], recs)))
  }

  /** After `clickVolume(item)`: the panel is expanded, the clicked item is
      `volumeClicked`, every other listed volume and every other bucket is
      cleared, no volume badge changes; with no record processed every person is
      cleared, otherwise exactly the persons holding the last processed record
      are `userSelected` and all others `notSelected`, and a person's badge is
      that of the last processed record it holds, or is kept when it holds none. */
  lemma {:induction false} ClickVolumeOutcome(m: Marks, g: VolumeGroups, vols: seq<Volume>, ids: seq<int>,
                                              item: Item, k: int, s: int)
    requires GroupsWithin(g, |vols|) && Fits(m, g, |vols|, ids) && ValidItem(item, |vols|, g)
    requires 0 <= k < |vols| && 0 <= s < |ids|
    ensures var c := ClickVolumeState(m, g, vols, ids, item);
            var recs := AccessOf(vols, ClickedVolumes(g, item));
      && c.expanded
      && c.volumes[k].badge == m.volumes[k].badge
      && (item == ListedVolume(k) ==> c.volumes[k].tag == VolumeClicked)
      && (item != ListedVolume(k) ==> c.volumes[k].tag == if Shown(g, k) then Cleared else m.volumes[k].tag)
      && (forall j :: 0 <= j < |g.inherited| ==> c.buckets[j] == if item == InheritedBucket(j) then VolumeClicked else Cleared)
      && (recs == [] ==> c.people[s] == Mark(Cleared, m.people[s].badge))
      && (recs != [] ==> (c.people[s].tag == UserSelected <==> ids[s] == recs[|recs| - 1].party.id))
      && (recs != [] ==> (c.people[s].tag == NotSelected <==> ids[s] != recs[|recs| - 1].party.id))
      && ((forall i :: 0 <= i < |recs| ==> recs[i].party.id != ids[s]) ==> c.people[s].badge == m.people[s].badge)
      && (forall i :: LastHeld(recs, ids[s], i) ==> c.people[s].badge == UA(recs[i].individual))
  {
    var recs := AccessOf(vols, ClickedVolumes(g, item));
    var u := Unselected(m, g);
    PersonAfterLastWins(u.people[s], ids[s], recs);
  }

  /** Clicking the same item again after `unselectAll` gives the same state. */
  lemma {:induction false} ClickVolumeReplay(m: Marks, g: VolumeGroups, vols: seq<Volume>, ids: seq<int>, item: Item)
    requires GroupsWithin(g, |vols|) && Fits(m, g, |vols|, ids) && ValidItem(item, |vols|, g)
    ensures var c := ClickVolumeState(m, g, vols, ids, item);
      ClickVolumeState(Unselected(c, g), g, vols, ids, item) == c
  {
    var c := ClickVolumeState(m, g, vols, ids, item);
    var c2 := ClickVolumeState(Unselected(c, g), g, vols, ids, item);
    var recs := AccessOf(vols, ClickedVolumes(g, item));
    var u := Unselected(m, g);
    var u2 := Unselected(Unselected(c, g), g);
    forall s | 0 <= s < |ids| ensures c2.people[s] == c.people[s] {
      PersonAfterLastWins(u.people[s], ids[s], recs);
      PersonAfterLastWins(u2.people[s], ids[s], recs);
      if exists i :: 0 <= i < |recs| && recs[i].party.id == ids[s] {
        var i :| 0 <= i < |recs| && recs[i].party.id == ids[s];
        LastHeldExists(recs, ids[s], i);
      }
    }
    assert c2.people == c.people;
    assert c2.volumes == c.volumes;
  }

  /** One access record as `compareFunction` applies it to one volume. */
  function VolumeStep(mk: Mark, id: int, rec: Access): Mark
  {
    if rec.party.id == id then Mark(VolumeSelected, if Truthy(rec.individual) then UA(rec.individual) else mk.badge)
    else mk
  }

  /** A volume's mark after `compareFunction` ran over its records `recs`. */
  function VolumeAfter(mk: Mark, id: int, recs: seq<Access>): Mark
  {
    if recs == [] then mk
    else VolumeStep(VolumeAfter(mk, id, recs[..|recs| - 1]), id, recs[|recs| - 1])
  }

  /** The record grants party `id` a truthy level. */
  predicate Grants(rec: Access, id: int)
  {
    rec.party.id == id && Truthy(rec.individual)
  }

  ghost predicate LastGrant(recs: seq<Access>, id: int, i: int)
  {
    0 <= i < |recs| && Grants(recs[i], id) && forall j :: i < j < |recs| ==> !Grants(recs[j], id)
  }

  /** A volume is `volumeSelected` iff one of its records is held by `id`. */
  lemma {:induction false} VolumeAfterTag(mk: Mark, id: int, recs: seq<Access>)
    ensures VolumeAfter(mk, id, recs).tag
         == if exists i :: 0 <= i < |recs| && recs[i].party.id == id then VolumeSelected else mk.tag
  {
    if recs != [] {
      var n := |recs| - 1;
      var pre := recs[..n];
      VolumeAfterTag(mk, id, pre);
      if exists i :: 0 <= i < |recs| && recs[i].party.id == id {
        var i :| 0 <= i < |recs| && recs[i].party.id == id;
        if i < n {
          assert pre[i].party.id == id;
        }
      }
      if exists i :: 0 <= i < n && pre[i].party.id == id {
        var i :| 0 <= i < n && pre[i].party.id == id;
        assert recs[i].party.id == id;
      }
    }
  }

  /** No record granting `id` a truthy level keeps the badge. */
  lemma {:induction false} VolumeAfterKept(mk: Mark, id: int, recs: seq<Access>)
    requires forall i :: 0 <= i < |recs| ==> !Grants(recs[i], id)
    ensures VolumeAfter(mk, id, recs).badge == mk.badge
  {
    if recs != [] {
      var pre := recs[..|recs| - 1];
      forall i | 0 <= i < |pre| ensures !Grants(pre[i], id) {
        assert pre[i] == recs[i];
      }
      VolumeAfterKept(mk, id, pre);
    }
  }

  /** The badge comes from the last record granting `id` a truthy level. */
  lemma {:induction false} VolumeAfterLastGrant(mk: Mark, id: int, recs: seq<Access>, i: int)
    requires LastGrant(recs, id, i)
    ensures VolumeAfter(mk, id, recs).badge == UA(recs[i].individual)
  {
    var n := |recs| - 1;
    if i < n {
      var pre := recs[..n];
      assert pre[i] == recs[i];
      forall j | i < j < n ensures !Grants(pre[j], id) {
        assert pre[j] == recs[j];
      }
      assert LastGrant(pre, id, i);
      VolumeAfterLastGrant(mk, id, pre, i);
    }
  }

  /** A volume is `volumeSelected` iff one of its records is held by `id`; its
      badge comes from the last record granting `id` a truthy level, and is
      kept when no record does. */
  lemma {:induction false} VolumeAfterOutcome(mk: Mark, id: int, recs: seq<Access>)
    ensures VolumeAfter(mk, id, recs).tag
         == if exists i :: 0 <= i < |recs| && recs[i].party.id == id then VolumeSelected else mk.tag
    ensures (forall i :: 0 <= i < |recs| ==> !Grants(recs[i], id)) ==> VolumeAfter(mk, id, recs).badge == mk.badge
    ensures forall i :: LastGrant(recs, id, i) ==> VolumeAfter(mk, id, recs).badge == UA(recs[i].individual)
  {
    VolumeAfterTag(mk, id, recs);
    if forall i :: 0 <= i < |recs| ==> !Grants(recs[i], id) {
      VolumeAfterKept(mk, id, recs);
    }
    forall i | LastGrant(recs, id, i)
      ensures VolumeAfter(mk, id, recs).badge == UA(recs[i].individual)
    {
      VolumeAfterLastGrant(mk, id, recs, i);
    }
  }

  /** Some record grants `id`, so a last one does. */
  lemma {:induction false} LastGrantExists(recs: seq<Access>, id: int, i: int)
    requires 0 <= i < |recs| && Grants(recs[i], id)
    ensures exists l :: LastGrant(recs, id, l)
  {
    var n := |recs| - 1;
    if Grants(recs[n], id) {
      assert LastGrant(recs, id, n);
    } else {
      assert i < n;
      LastGrantExists(recs[..n], id, i);
      var l :| LastGrant(recs[..n], id, l);
      assert LastGrant(recs, id, l);
    }
  }

  /** Visiting a volume twice (it may sit in several buckets) is visiting it once. */
  lemma {:induction false} VolumeAfterIdempotent(mk: Mark, id: int, recs: seq<Access>)
    ensures VolumeAfter(VolumeAfter(mk, id, recs), id, recs) == VolumeAfter(mk, id, recs)
  {
    var once := VolumeAfter(mk, id, recs);
    VolumeAfterOutcome(mk, id, recs);
    VolumeAfterOutcome(once, id, recs);
    if exists i :: 0 <= i < |recs| && Grants(recs[i], id) {
      var i :| 0 <= i < |recs| && Grants(recs[i], id);
      LastGrantExists(recs, id, i);
    }
  }

  /** `clickUser(s)` for the person in slot `s`. */
  function ClickUserState(m: Marks, g: VolumeGroups, vols: seq<Volume>, ids: seq<int>, s: int): Marks
    requires Fits(m, g, |vols|, ids) && 0 <= s < |ids|
  {
    var u := Unselected(m, g);
    Marks(true,
          seq(|u.volumes|, k requires 0 <= k < |u.volumes| =>
            if Shown(g, k) then VolumeAfter(u.volumes[k], ids[s], vols[k].access) else u.volumes[k]),
          u.buckets,
          u.people[s := Mark(UserClicked, u.people[s].badge)])
  }

  /** After `clickUser(s)`: the panel is expanded, the clicked person is
      `userClicked` and every other person and every bucket cleared, no person
      badge changes; a listed volume is `volumeSelected` iff the person holds
      one of its records, else cleared, and its badge is that of the last record
      granting the person a truthy level, else kept; unlisted volumes are untouched. */
  lemma {:induction false} ClickUserOutcome(m: Marks, g: VolumeGroups, vols: seq<Volume>, ids: seq<int>,
                                            s: int, k: int, t: int)
    requires Fits(m, g, |vols|, ids) && 0 <= s < |ids| && 0 <= k < |vols| && 0 <= t < |ids|
    ensures var c := ClickUserState(m, g, vols, ids, s);
            var recs := vols[k].access;
      && c.expanded
      && c.people[t] == Mark(if t == s then UserClicked else Cleared, m.people[t].badge)
      && (forall j :: 0 <= j < |g.inherited| ==> c.buckets[j] == Cleared)
      && (!Shown(g, k) ==> c.volumes[k] == m.volumes[k])
      && (Shown(g, k) ==> (c.volumes[k].tag == VolumeSelected <==> exists i :: 0 <= i < |recs| && recs[i].party.id == ids[s]))
      && (Shown(g, k) ==> (c.volumes[k].tag == Cleared <==> forall i :: 0 <= i < |recs| ==> recs[i].party.id != ids[s]))
      && ((forall i :: 0 <= i < |recs| ==> !Grants(recs[i], ids[s])) ==> c.volumes[k].badge == m.volumes[k].badge)
      && (Shown(g, k) ==> forall i :: LastGrant(recs, ids[s], i) ==> c.volumes[k].badge == UA(recs[i].individual))
  {
    var u := Unselected(m, g);
    VolumeAfterOutcome(u.volumes[k], ids[s], vols[k].access);
  }

  /** Clicking the same person again after `unselectAll` gives the same state. */
  lemma {:induction false} ClickUserReplay(m: Marks, g: VolumeGroups, vols: seq<Volume>, ids: seq<int>, s: int)
    requires Fits(m, g, |vols|, ids) && 0 <= s < |ids|
    ensures var c := ClickUserState(m, g, vols, ids, s);
      ClickUserState(Unselected(c, g), g, vols, ids, s) == c
  {
    var c := ClickUserState(m, g, vols, ids, s);
    var c2 := ClickUserState(Unselected(c, g), g, vols, ids, s);
    var u := Unselected(m, g);
    var u2 := Unselected(Unselected(c, g), g);
    forall k | 0 <= k < |vols| ensures c2.volumes[k] == c.volumes[k] {
      if Shown(g, k) {
        var recs := vols[k].access;
        VolumeAfterOutcome(u.volumes[k], ids[s], recs);
        VolumeAfterOutcome(u2.volumes[k], ids[s], recs);
        if exists i :: 0 <= i < |recs| && Grants(recs[i], ids[s]) {
          var i :| 0 <= i < |recs| && Grants(recs[i], ids[s]);
          LastGrantExists(recs, ids[s], i);
        }
      }
    }
    assert c2.volumes == c.volumes;
    assert c2.people == c.people;
  }

  /** The page: the classified volumes and people, and their selection classes. */
  class Profile {
    const vols: seq<Volume>
    const groups: VolumeGroups
    const network: set<int>
    const users: Users
    const ids: seq<int>
    var expanded: bool
    var volumeMarks: seq<Mark>
    var bucketTags: seq<Tag>
    var personMarks: seq<Mark>

    function State(): Marks
      reads this
    {
      Marks(expanded, volumeMarks, bucketTags, personMarks)
    }

    ghost predicate Valid()
      reads this
    {
      GroupsWithin(groups, |vols|) && Fits(State(), groups, |vols|, ids)
    }

    /** The controller's set-up: classify the volumes, then gather the people
        from the (sorted) `individual` tier; nothing is selected yet. */
    constructor(volumes: seq<Volume>, parents: seq<Authorization>, children: seq<Authorization>, login: int)
      ensures Valid()
      ensures vols == volumes && groups == Classification(volumes, parents, login)
      ensures network == NetworkMarked(volumes, |volumes|, login)
      ensures users == GetUsers(parents, children, volumes, groups.individual, login)
      ensures ids == PersonIds(users)
      ensures !expanded
      ensures forall k :: 0 <= k < |volumeMarks| ==> volumeMarks[k] == Mark(Unset, NoBadge)
      ensures forall j :: 0 <= j < |bucketTags| ==> bucketTags[j] == Unset
      ensures forall s :: 0 <= s < |personMarks| ==> personMarks[s] == Mark(Unset, NoBadge)
    {
      var g, net := GetVolumes(volumes, parents, login);
      ClassificationWithin(volumes, parents, login);
      vols := volumes;
      groups := g;
      network := net;
      users := GetUsers(parents, children, volumes, g.individual, login);
      ids := PersonIds(GetUsers(parents, children, volumes, g.individual, login));
      expanded := false;
      volumeMarks := seq(|volumes|, _ => Mark(Unset, NoBadge));
      bucketTags := seq(|g.inherited|, _ => Unset);
      personMarks := seq(|PersonIds(GetUsers(parents, children, volumes, g.individual, login))|, _ => Mark(Unset, NoBadge));
    }

    /** `unSetSelected` on the volumes at the positions in `list`. */
    method ClearVolumes(list: seq<int>)
      requires Valid() && InRange(list, |vols|)
      modifies this
      ensures Valid() && expanded == old(expanded) && bucketTags == old(bucketTags) && personMarks == old(personMarks)
      ensures forall k :: 0 <= k < |vols| ==>
        volumeMarks[k] == if k in list then Mark(Cleared, old(volumeMarks[k]).badge) else old(volumeMarks[k])
    {
      for i := 0 to |list|
        invariant Valid() && expanded == old(expanded) && bucketTags == old(bucketTags) && personMarks == old(personMarks)
        invariant forall k :: 0 <= k < |vols| ==>
          volumeMarks[k] == if k in list[..i] then Mark(Cleared, old(volumeMarks[k]).badge) else old(volumeMarks[k])
      {
        volumeMarks := volumeMarks[list[i] := Mark(Cleared, volumeMarks[list[i]].badge)];
        assert list[..i + 1] == list[..i] + [list[i]];
      }
      assert list[..|list|] == list;
    }

    /** `unSetSelected` on every person of the four groups. */
    method ClearPeople()
      requires Valid()
      modifies this
      ensures Valid() && expanded == old(expanded) && volumeMarks == old(volumeMarks) && bucketTags == old(bucketTags)
      ensures forall s :: 0 <= s < |ids| ==> personMarks[s] == Mark(Cleared, old(personMarks[s]).badge)
    {
      for s := 0 to |personMarks|
        invariant Valid() && expanded == old(expanded) && volumeMarks == old(volumeMarks) && bucketTags == old(bucketTags)
        invariant forall t :: 0 <= t < |ids| ==>
          personMarks[t] == if t < s then Mark(Cleared, old(personMarks[t]).badge) else old(personMarks[t])
      {
        personMarks := personMarks[s := Mark(Cleared, personMarks[s].badge)];
      }
    }

    /** `unselectAll`. */
    method UnselectAll()
      requires Valid()
      modifies this
      ensures Valid() && State() == Unselected(old(State()), groups)
    {
      expanded := false;
      ClearVolumes(groups.individual);
      ClearVolumes(groups.collaborator);
      var inherited := groups.inherited;
      for j := 0 to |inherited|
        invariant Valid() && !expanded && personMarks == old(personMarks)
        invariant forall b :: 0 <= b < |bucketTags| ==> bucketTags[b] == if b < j then Cleared else old(bucketTags[b])
        invariant forall k :: 0 <= k < |vols| ==>
          volumeMarks[k] == if k in groups.individual || k in groups.collaborator || InBuckets(inherited[..j], k)
                            then Mark(Cleared, old(volumeMarks[k]).badge) else old(volumeMarks[k])
      {
        bucketTags := bucketTags[j := Cleared];
        ClearVolumes(inherited[j].v);
        forall k | 0 <= k < |vols| {
          InBucketsStep(inherited, j, k);
        }
      }
      ClearPeople();
      assert inherited[..|inherited|] == inherited;
      assert volumeMarks == Unselected(old(State()), groups).volumes;
    }

    /** `userSelectFunction` for one access record over every person slot. */
    method MarkPeople(rec: Access)
      requires Valid()
      modifies this
      ensures Valid() && expanded == old(expanded) && volumeMarks == old(volumeMarks) && bucketTags == old(bucketTags)
      ensures forall s :: 0 <= s < |ids| ==> personMarks[s] == PersonStep(old(personMarks[s]), ids[s], rec)
    {
      for s := 0 to |personMarks|
        invariant Valid() && expanded == old(expanded) && volumeMarks == old(volumeMarks) && bucketTags == old(bucketTags)
        invariant forall t :: 0 <= t < |ids| ==>
          personMarks[t] == if t < s then PersonStep(old(personMarks[t]), ids[t], rec) else old(personMarks[t])
      {
        if ids[s] == rec.party.id {
          personMarks := personMarks[s := Mark(UserSelected, UA(rec.individual))];
        } else {
          personMarks := personMarks[s := Mark(NotSelected, personMarks[s].badge)];
        }
      }
    }

    /** The records of one volume, each applied to every person slot in turn. */
    method MarkPeopleFor(recs: seq<Access>)
      requires Valid()
      modifies this
      ensures Valid() && expanded == old(expanded) && volumeMarks == old(volumeMarks) && bucketTags == old(bucketTags)
      ensures forall s :: 0 <= s < |ids| ==> personMarks[s] == PersonAfter(old(personMarks[s]), ids[s], recs)
    {
      for r := 0 to |recs|
        invariant Valid() && expanded == old(expanded) && volumeMarks == old(volumeMarks) && bucketTags == old(bucketTags)
        invariant forall s :: 0 <= s < |ids| ==> personMarks[s] == PersonAfter(old(personMarks[s]), ids[s], recs[..r])
      {
        assert recs[..r + 1][..r] == recs[..r];
        MarkPeople(recs[r]);
      }
      assert recs[..|recs|] == recs;
    }

    /** `clickVolume(item)`. */
    method ClickVolume(item: Item)
      requires Valid() && ValidItem(item, |vols|, groups)
      modifies this
      ensures Valid() && State() == ClickVolumeState(old(State()), groups, vols, ids, item)
    {
      UnselectAll();
      ghost var u := State();
      match item {
        case ListedVolume(k) =>
          volumeMarks := volumeMarks[k := Mark(VolumeClicked, volumeMarks[k].badge)];
        case InheritedBucket(j) =>
          bucketTags := bucketTags[j := VolumeClicked];
      }
      expanded := true;
      var list := ClickedVolumes(groups, item);
      ghost var clicked := State();
      for i := 0 to |list|
        invariant Valid() && expanded && volumeMarks == clicked.volumes && bucketTags == clicked.buckets
        invariant forall s :: 0 <= s < |ids| ==>
          personMarks[s] == PersonAfter(u.people[s], ids[s], AccessOf(vols, list[..i]))
      {
        assert list[..i + 1] == list[..i] + [list[i]];
        AccessOfAppend(vols, list[..i], list[i]);
        MarkPeopleFor(vols[list[i]].access);
        forall s | 0 <= s < |ids|
          ensures personMarks[s] == PersonAfter(u.people[s], ids[s], AccessOf(vols, list[..i + 1]))
        {
          PersonAfterConcat(u.people[s], ids[s], AccessOf(vols, list[..i]), vols[list[i]].access);
        }
      }
      assert list[..|list|] == list;
      assert personMarks == ClickVolumeState(old(State()), groups, vols, ids, item).people;
    }

    /** `compareFunction` on the volume at position `k`. */
    method SelectVolume(k: int, id: int)
      requires Valid() && 0 <= k < |vols|
      modifies this
      ensures Valid() && expanded == old(expanded) && bucketTags == old(bucketTags) && personMarks == old(personMarks)
      ensures volumeMarks == old(volumeMarks)[k := VolumeAfter(old(volumeMarks)[k], id, vols[k].access)]
    {
      var recs := vols[k].access;
      for j := 0 to |recs|
        invariant Valid() && expanded == old(expanded) && bucketTags == old(bucketTags) && personMarks == old(personMarks)
        invariant volumeMarks == old(volumeMarks)[k := VolumeAfter(old(volumeMarks)[k], id, recs[..j])]
      {
        assert recs[..j + 1][..j] == recs[..j];
        if recs[j].party.id == id {
          var badge := volumeMarks[k].badge;
          if Truthy(recs[j].individual) {
            badge := UA(recs[j].individual);
          }
          volumeMarks := volumeMarks[k := Mark(VolumeSelected, badge)];
        }
      }
      assert recs[..|recs|] == recs;
    }

    /** `_.each(list, compareFunction)`. */
    method SelectVolumes(list: seq<int>, id: int)
      requires Valid() && InRange(list, |vols|)
      modifies this
      ensures Valid() && expanded == old(expanded) && bucketTags == old(bucketTags) && personMarks == old(personMarks)
      ensures forall k :: 0 <= k < |vols| ==>
        volumeMarks[k] == if k in list then VolumeAfter(old(volumeMarks[k]), id, vols[k].access) else old(volumeMarks[k])
    {
      for i := 0 to |list|
        invariant Valid() && expanded == old(expanded) && bucketTags == old(bucketTags) && personMarks == old(personMarks)
        invariant forall k :: 0 <= k < |vols| ==>
          volumeMarks[k] == if k in list[..i] then VolumeAfter(old(volumeMarks[k]), id, vols[k].access) else old(volumeMarks[k])
      {
        VolumeAfterIdempotent(old(volumeMarks[list[i]]), id, vols[list[i]].access);
        SelectVolume(list[i], id);
        assert list[..i + 1] == list[..i] + [list[i]];
      }
      assert list[..|list|] == list;
    }

    /** `clickUser` on the person in slot `s`. */
    method ClickUser(s: int)
      requires Valid() && 0 <= s < |ids|
      modifies this
      ensures Valid() && State() == ClickUserState(old(State()), groups, vols, ids, s)
    {
      UnselectAll();
      ghost var u := State();
      personMarks := personMarks[s := Mark(UserClicked, personMarks[s].badge)];
      expanded := true;
      var id := ids[s];
      SelectVolumes(groups.individual, id);
      SelectVolumes(groups.collaborator, id);
      forall k | 0 <= k < |vols| {
        VolumeAfterIdempotent(u.volumes[k], id, vols[k].access);
      }
      var inherited := groups.inherited;
      for j := 0 to |inherited|
        invariant Valid() && expanded && bucketTags == u.buckets
        invariant personMarks == u.people[s := Mark(UserClicked, u.people[s].badge)]
        invariant forall k :: 0 <= k < |vols| ==>
          volumeMarks[k] == if k in groups.individual || k in groups.collaborator || InBuckets(inherited[..j], k)
                            then VolumeAfter(u.volumes[k], id, vols[k].access) else u.volumes[k]
      {
        SelectVolumes(inherited[j].v, id);
        forall k | 0 <= k < |vols| {
          InBucketsStep(inherited, j, k);
        }
      }
      assert inherited[..|inherited|] == inherited;
      assert volumeMarks == ClickUserState(old(State()), groups, vols, ids, s).volumes;
    }
  }
}
