/** The people aggregator of the party profile page (`getUsers`): the viewed
    party's parents become `sponsors`, its children split into `databrary`
    and `labOnly` by site permission, and the remaining holders of access on
    the login user's `individual` volumes become `otherCollaborators`. */
module People {
  import opened Records
  import opened Sequences

  datatype Users = Users(
    sponsors: seq<Authorization>,
    databrary: seq<Authorization>,
    labOnly: seq<Authorization>,
    otherCollaborators: seq<Access>)

  function PartyId(a: Access): int
  {
    a.party.id
  }

  /** `i.party.sortname`: the sort key of every people group. The groups hold
      authorization links or access records, and `SortBy` takes a key over its
      own element type, so the key is written once per record type. */
  function LinkSortname(a: Authorization): string
  {
    a.party.sortname
  }

  function AccessSortname(a: Access): string
  {
    a.party.sortname
  }

  /** The party ids of a list of records; as with the sort key, once per record type. */
  function Ids(s: seq<Access>): set<int>
  {
    set a | a in s :: a.party.id
  }

  function LinkIds(s: seq<Authorization>): set<int>
  {
    set a | a in s :: a.party.id
  }

  /** `_(volumes).pluck('access').flatten()`: the records of the listed volumes, volume after volume. */
  function AccessOf(vols: seq<Volume>, idx: seq<int>): (r: seq<Access>)
    requires InRange(idx, |vols|)
    ensures forall a :: a in r <==> exists i :: 0 <= i < |idx| && a in vols[idx[i]].access
  {
    if idx == [] then []
    else
      var rest := AccessOf(vols, idx[1..]);
      assert forall i :: 0 <= i < |idx| - 1 ==> idx[1..][i] == idx[i + 1];
      vols[idx[0]].access + rest
  }

  /** Flattening one more volume appends its records. */
  lemma {:induction false} AccessOfAppend(vols: seq<Volume>, idx: seq<int>, k: int)
    requires InRange(idx, |vols|) && 0 <= k < |vols|
    ensures InRange(idx + [k], |vols|)
    ensures AccessOf(vols, idx + [k]) == AccessOf(vols, idx) + vols[k].access
  {
    if idx == [] {
      assert ([] + [k])[1..] == [];
    } else {
      assert (idx + [k])[1..] == idx[1..] + [k];
      AccessOfAppend(vols, idx[1..], k);
    }
  }

  /** `uniq` by `party.id`: the first record of each party, in order of first appearance. */
  function UniqById(s: seq<Access>): (r: seq<Access>)
    ensures |r| <= |s|
    ensures forall x :: x in r ==> x in s
  {
    if s == [] then []
    else
      var n := |s| - 1;
      var r := UniqById(s[..n]);
      if s[n].party.id in Ids(s[..n]) then r else r + [s[n]]
  }

  /** `uniq` loses no party and keeps no party twice. */
  lemma {:induction false} UniqByIdParties(s: seq<Access>)
    ensures Ids(UniqById(s)) == Ids(s)
    ensures DistinctBy(UniqById(s), PartyId)
  {
    if s != [] {
      var n := |s| - 1;
      var r := UniqById(s[..n]);
      UniqByIdParties(s[..n]);
      assert s == s[..n] + [s[n]];
      assert Ids(s) == Ids(s[..n]) + {s[n].party.id};
      if s[n].party.id !in Ids(s[..n]) {
        var r' := r + [s[n]];
        assert Ids(r') == Ids(r) + {s[n].party.id};
        forall j | 0 <= j < |r| ensures r'[j].party.id != s[n].party.id {
          assert r[j] in r;
        }
      }
    }
  }

  /** Each record `uniq` keeps is the first record of its party. */
  lemma {:induction false} UniqByIdFirst(s: seq<Access>)
    ensures forall a :: a in UniqById(s) ==> FindParty(s, a.party.id) == Some(a)
  {
    if s != [] {
      var n := |s| - 1;
      var r := UniqById(s[..n]);
      UniqByIdFirst(s[..n]);
      assert s == s[..n] + [s[n]];
      forall a | a in UniqById(s) ensures FindParty(s, a.party.id) == Some(a) {
        if a in r {
          FindPartyExtends(s[..n], [s[n]], a.party.id);
        } else {
          assert a == s[n] && s[n].party.id !in Ids(s[..n]);
          forall i | 0 <= i < n ensures s[i].party.id != s[n].party.id {
            assert s[..n][i] == s[i];
            assert s[..n][i] in s[..n];
          }
          assert FirstIndexOf(s, s[n].party.id) == Some(n);
        }
      }
    }
  }

  /** Where the first record of party `id` sits in `s`; `|s|` when it has none. */
  ghost function FirstPos(s: seq<Access>, id: int): int
  {
    match FirstIndexOf(s, id)
    case None => |s|
    case Some(i) => i
  }

  /** Ranks a record by the first appearance of its party in `s`. */
  ghost function FirstRank(s: seq<Access>): Access -> int
  {
    (a: Access) => FirstPos(s, a.party.id)
  }

  /** `uniq` keeps its records in order of their party's first appearance. */
  lemma {:induction false} UniqByIdOrder(s: seq<Access>)
    ensures IncreasingBy(UniqById(s), FirstRank(s))
  {
    if s != [] {
      var n := |s| - 1;
      var pre := s[..n];
      var r := UniqById(pre);
      UniqByIdOrder(pre);
      assert s == pre + [s[n]];
      forall x | x in r ensures FirstPos(s, x.party.id) == FirstPos(pre, x.party.id) < n {
        assert x in pre;
        var m :| 0 <= m < n && pre[m] == x;
        assert FirstIndexOf(pre, x.party.id).Some?;
        FirstIndexOfExtends(pre, [s[n]], x.party.id);
      }
      if s[n].party.id !in Ids(pre) {
        var r' := r + [s[n]];
        forall i | 0 <= i < n ensures s[i].party.id != s[n].party.id {
          assert pre[i] == s[i];
          assert pre[i] in pre;
        }
        assert FirstPos(s, s[n].party.id) == n;
        forall i, j | 0 <= i < j < |r'| ensures FirstRank(s)(r'[i]) < FirstRank(s)(r'[j]) {
          assert r'[i] == r[i] && r[i] in r;
          if j < |r| {
            assert r'[j] == r[j] && r[j] in r;
            assert FirstRank(pre)(r[i]) < FirstRank(pre)(r[j]);
          }
        }
      } else {
        forall i, j | 0 <= i < j < |r| ensures FirstRank(s)(r[i]) < FirstRank(s)(r[j]) {
          assert r[i] in r && r[j] in r;
          assert FirstRank(pre)(r[i]) < FirstRank(pre)(r[j]);
        }
      }
    }
  }

  /** The three network groups joined, as `arrayOfEverything`. */
  function Network(sponsors: seq<Authorization>, databrary: seq<Authorization>, labOnly: seq<Authorization>): seq<Authorization>
  {
    sponsors + databrary + labOnly
  }

  /** A child with some permission on the site. */
  predicate OnSite(c: Authorization)
  {
    c.site > NONE
  }

  /** A child with no permission on the site at all. */
  predicate LabOnly(c: Authorization)
  {
    c.site == NONE
  }

  /** The filter of `otherCollaborators`: not the login user and in none of the `known` groups. */
  function Outsider(login: int, known: set<int>): Access -> bool
  {
    (a: Access) => a.party.id != login && a.party.id !in known
  }

  /** `otherCollaborators` before sorting. */
  function Others(parents: seq<Authorization>, children: seq<Authorization>,
                  vols: seq<Volume>, individual: seq<int>, login: int): seq<Access>
    requires InRange(individual, |vols|)
  {
    var known := LinkIds(Network(parents, Filter(children, OnSite), Filter(children, LabOnly)));
    Filter(UniqById(AccessOf(vols, individual)), Outsider(login, known))
  }

  /** The four groups of `getUsers`, each stably sorted by `party.sortname`. */
  function Sponsors(parents: seq<Authorization>): seq<Authorization>
  {
    SortBy(parents, LinkSortname)
  }

  function Databrary(children: seq<Authorization>): seq<Authorization>
  {
    SortBy(Filter(children, OnSite), LinkSortname)
  }

  function LabOnlyGroup(children: seq<Authorization>): seq<Authorization>
  {
    SortBy(Filter(children, LabOnly), LinkSortname)
  }

  function OtherCollaboratorsOf(parents: seq<Authorization>, children: seq<Authorization>,
                                vols: seq<Volume>, individual: seq<int>, login: int): seq<Access>
    requires InRange(individual, |vols|)
  {
    SortBy(Others(parents, children, vols, individual, login), AccessSortname)
  }

  /** `getUsers`. `individual` is the already classified list of the login
      user's ADMIN volumes. */
  function GetUsers(parents: seq<Authorization>, children: seq<Authorization>,
                    vols: seq<Volume>, individual: seq<int>, login: int): Users
    requires InRange(individual, |vols|)
  {
    Users(Sponsors(parents), Databrary(children), LabOnlyGroup(children),
          OtherCollaboratorsOf(parents, children, vols, individual, login))
  }

  /** `sponsors` are exactly the parents, ordered by sortname. */
  lemma SponsorsGroup(parents: seq<Authorization>)
    ensures multiset(Sponsors(parents)) == multiset(parents)
    ensures SortedBy(Sponsors(parents), LinkSortname)
  {
    SortByPermutes(parents, LinkSortname);
    SortBySorted(parents, LinkSortname);
  }

  /** A child is in `databrary` iff its site level is above NONE; the group is
      ordered by sortname and holds each such child as often as `children` does. */
  lemma DatabraryGroup(children: seq<Authorization>, c: Authorization)
    ensures c in Databrary(children) <==> c in children && c.site > NONE
    ensures multiset(Databrary(children)) == multiset(Filter(children, OnSite))
    ensures SortedBy(Databrary(children), LinkSortname)
  {
    SortByPermutes(Filter(children, OnSite), LinkSortname);
    SortBySorted(Filter(children, OnSite), LinkSortname);
    assert c in Databrary(children) <==> c in multiset(Filter(children, OnSite));
  }

  /** A child is in `labOnly` iff its site level equals NONE, so no child is in
      both groups and a child below NONE is in neither. */
  lemma LabOnlyMembers(children: seq<Authorization>, c: Authorization)
    ensures c in LabOnlyGroup(children) <==> c in children && c.site == NONE
    ensures multiset(LabOnlyGroup(children)) == multiset(Filter(children, LabOnly))
    ensures SortedBy(LabOnlyGroup(children), LinkSortname)
  {
    SortByPermutes(Filter(children, LabOnly), LinkSortname);
    SortBySorted(Filter(children, LabOnly), LinkSortname);
    assert c in LabOnlyGroup(children) <==> c in multiset(Filter(children, LabOnly));
  }

  /** Lists with the same members have the same party ids. */
  lemma LinkIdsOfMembers(s: seq<Authorization>, t: seq<Authorization>)
    requires forall x :: x in s <==> x in t
    ensures LinkIds(s) == LinkIds(t)
  {
    forall id | id in LinkIds(s) ensures id in LinkIds(t) {
      var a :| a in s && a.party.id == id;
      assert a in t;
    }
    forall id | id in LinkIds(t) ensures id in LinkIds(s) {
      var a :| a in t && a.party.id == id;
      assert a in s;
    }
  }

  /** A permutation of each part keeps the members of the joined network. */
  lemma NetworkMembers(sp: seq<Authorization>, sd: seq<Authorization>, sl: seq<Authorization>,
                       p: seq<Authorization>, d: seq<Authorization>, l: seq<Authorization>)
    requires multiset(sp) == multiset(p) && multiset(sd) == multiset(d) && multiset(sl) == multiset(l)
    ensures forall x :: x in Network(sp, sd, sl) <==> x in Network(p, d, l)
  {
    forall x ensures x in Network(sp, sd, sl) <==> x in Network(p, d, l) {
      calc {
        x in Network(sp, sd, sl);
        x in multiset(sp) || x in multiset(sd) || x in multiset(sl);
        x in multiset(p) || x in multiset(d) || x in multiset(l);
        x in Network(p, d, l);
      }
    }
  }

  /** Sorting the three network groups does not change who is in them. */
  lemma NetworkIdsSorted(parents: seq<Authorization>, children: seq<Authorization>)
    ensures LinkIds(Network(Sponsors(parents), Databrary(children), LabOnlyGroup(children)))
         == LinkIds(Network(parents, Filter(children, OnSite), Filter(children, LabOnly)))
  {
    var databrary, labOnly := Filter(children, OnSite), Filter(children, LabOnly);
    SortByPermutes(parents, LinkSortname);
    SortByPermutes(databrary, LinkSortname);
    SortByPermutes(labOnly, LinkSortname);
    NetworkMembers(Sponsors(parents), Databrary(children), LabOnlyGroup(children), parents, databrary, labOnly);
    LinkIdsOfMembers(Network(Sponsors(parents), Databrary(children), LabOnlyGroup(children)),
                     Network(parents, databrary, labOnly));
  }

  /** A party is among `otherCollaborators` iff it holds a record on one of the
      `individual` volumes, is not the login user and is in none of the three
      network groups; it appears there once, as its first record on those
      volumes, and the group is ordered by sortname. */
  lemma {:induction false} OtherCollaborators(parents: seq<Authorization>, children: seq<Authorization>,
                                              vols: seq<Volume>, individual: seq<int>, login: int, id: int)
    requires InRange(individual, |vols|)
    ensures var others := OtherCollaboratorsOf(parents, children, vols, individual, login);
      && (id in Ids(others) <==>
            id in Ids(AccessOf(vols, individual)) && id != login
            && id !in LinkIds(Network(Sponsors(parents), Databrary(children), LabOnlyGroup(children))))
      && DistinctBy(others, PartyId)
      && (forall a :: a in others ==> FindParty(AccessOf(vols, individual), a.party.id) == Some(a))
      && SortedBy(others, AccessSortname)
  {
    var sorted := OtherCollaboratorsOf(parents, children, vols, individual, login);
    var known := LinkIds(Network(parents, Filter(children, OnSite), Filter(children, LabOnly)));
    var records := AccessOf(vols, individual);
    var uniq := UniqById(records);
    var others := Others(parents, children, vols, individual, login);
    assert others == Filter(uniq, Outsider(login, known));
    UniqByIdParties(records);
    UniqByIdFirst(records);
    NetworkIdsSorted(parents, children);
    SortByPermutes(others, AccessSortname);
    SortBySorted(others, AccessSortname);
    assert Ids(sorted) == Ids(others) by {
      forall a ensures a in sorted <==> a in others {
        assert a in sorted <==> a in multiset(others);
      }
    }
    if id in Ids(records) && id != login && id !in known {
      assert id in Ids(uniq);
      var a :| a in uniq && a.party.id == id;
      assert a in others;
    }
    FilterDistinct(uniq, Outsider(login, known), PartyId);
    SortByDistinct(others, AccessSortname, PartyId);
    forall a | a in sorted ensures FindParty(records, a.party.id) == Some(a) {
      assert a in multiset(others);
    }
  }

  /** Parties with equal sortnames keep, in `otherCollaborators`, the order in
      which they first hold a record on the `individual` volumes: the sort is
      stable over the order `uniq` leaves and the filter keeps. */
  lemma OtherCollaboratorsOrder(parents: seq<Authorization>, children: seq<Authorization>,
                                vols: seq<Volume>, individual: seq<int>, login: int, name: string)
    requires InRange(individual, |vols|)
    ensures var tied := KeyClass(OtherCollaboratorsOf(parents, children, vols, individual, login), AccessSortname, name);
      && tied == KeyClass(Others(parents, children, vols, individual, login), AccessSortname, name)
      && IncreasingBy(tied, FirstRank(AccessOf(vols, individual)))
  {
    var records := AccessOf(vols, individual);
    var known := LinkIds(Network(parents, Filter(children, OnSite), Filter(children, LabOnly)));
    var others := Others(parents, children, vols, individual, login);
    assert others == Filter(UniqById(records), Outsider(login, known));
    SortByStable(others, AccessSortname, name);
    UniqByIdOrder(records);
    FilterIncreasing(UniqById(records), Outsider(login, known), FirstRank(records));
    KeyClassIncreasing(others, AccessSortname, name, FirstRank(records));
  }
}
