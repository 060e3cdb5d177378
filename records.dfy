/** The shared vocabulary of the profile page and the citation widget:
    parties, their parent/child links, volumes and access records, and the
    two permission levels the code compares against. */
module Records {

  datatype Option<+T> = None | Some(value: T)

  /** Permission levels are ordered integers; only these two are compared against. */
  const NONE: int := 0
  const ADMIN: int := 5

  /** A person or institution account. */
  datatype Party = Party(id: int, name: string, sortname: string)

  /** An entry of `party.parents` or `party.children`: the linked party, its
      site-wide permission and whether it is a member (truthy `member`). */
  datatype Authorization = Authorization(party: Party, site: int, member: bool)

  /** An access record of a volume. `individual` is None when the record has no
      direct level (JavaScript `undefined`); `children` is the inheritable flag. */
  datatype Access = Access(party: Party, individual: Option<int>, children: bool)

  /** A dataset container with its ordered access records. */
  datatype Volume = Volume(id: int, name: string, alias: Option<string>, doi: Option<string>, access: seq<Access>)

  /** JavaScript truthiness of an optional permission level: present and non-zero. */
  predicate Truthy(level: Option<int>)
  {
    level.Some? && level.value != 0
  }

  /** The position of the first record held by the party with identifier `id`. */
  function FirstIndexOf(access: seq<Access>, id: int): (r: Option<nat>)
    ensures r.None? <==> forall i :: 0 <= i < |access| ==> access[i].party.id != id
    ensures r.Some? ==> r.value < |access| && access[r.value].party.id == id
    ensures r.Some? ==> forall j :: 0 <= j < r.value ==> access[j].party.id != id
  {
    if access == [] then None
    else if access[0].party.id == id then Some(0)
    else
      match FirstIndexOf(access[1..], id)
      case None => None
      case Some(i) => Some(i + 1)
  }

  /** `_.find(access, r => r.party.id === id)`: the first record of that party. */
  function FindParty(access: seq<Access>, id: int): Option<Access>
  {
    match FirstIndexOf(access, id)
    case None => None
    case Some(i) => Some(access[i])
  }

  /** Appending records never moves the first record of a party, once the
      prefix already holds one. */
  lemma FirstIndexOfExtends(access: seq<Access>, more: seq<Access>, id: int)
    requires FirstIndexOf(access, id).Some?
    ensures FirstIndexOf(access + more, id) == FirstIndexOf(access, id)
  {
    var i := FirstIndexOf(access, id).value;
    var s := access + more;
    assert s[i] == access[i];
    assert forall j :: 0 <= j < i ==> s[j] == access[j];
  }

  /** Appending records never changes which record of a party comes first,
      once the prefix already holds one. */
  lemma FindPartyExtends(access: seq<Access>, more: seq<Access>, id: int)
    requires FindParty(access, id).Some?
    ensures FindParty(access + more, id) == FindParty(access, id)
  {
    FirstIndexOfExtends(access, more, id);
    var i := FirstIndexOf(access, id).value;
    assert (access + more)[i] == access[i];
  }
}
