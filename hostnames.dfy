/** The hostname record of a pull zone and the two linear searches over a zone's
    hostname list: by name (after a create) and by id (every other lookup). */
module Hostnames {

  /** Go's int64, the type of both identifiers. */
  newtype int64 = x: int | -0x8000_0000_0000_0000 <= x < 0x8000_0000_0000_0000

  /** One hostname attached to a pull zone. `id` is zero until the remote assigns one;
      `pullzoneId` is never part of the remote listing and is filled in from context. */
  datatype Hostname = Hostname(
    id: int64,
    pullzoneId: int64,
    name: string,
    isSystemHostname: bool,
    hasCertificate: bool,
    forceSsl: bool)

  datatype Option<T> = None | Some(value: T)

  /** What a search compares: the name, or the remote identifier. */
  datatype Key = ByName(name: string) | ById(id: int64)

  predicate Matches(h: Hostname, key: Key) {
    match key
    case ByName(n) => h.name == n
    case ById(i) => h.id == i
  }

  /** The index of the first hostname of the listing that matches `key`, if any. */
  function FindFirst(hostnames: seq<Hostname>, key: Key): (r: Option<nat>)
    ensures r.Some? ==> r.value < |hostnames| && Matches(hostnames[r.value], key)
    ensures r.Some? ==> forall j :: 0 <= j < r.value ==> !Matches(hostnames[j], key)
    ensures r.None? <==> forall j :: 0 <= j < |hostnames| ==> !Matches(hostnames[j], key)
    decreases |hostnames|
  {
    if |hostnames| == 0 then None
    else if Matches(hostnames[0], key) then Some(0)
    else match FindFirst(hostnames[1..], key)
      case None => None
      case Some(i) => Some(i + 1)
  }

  /** Names are the join key after a create: within one zone they are meant to be unique. */
  predicate NamesUnique(hostnames: seq<Hostname>) {
    forall i, j :: 0 <= i < j < |hostnames| ==> hostnames[i].name != hostnames[j].name
  }

  /** With unique names, the search by name finds the one entry carrying that name. */
  lemma FindByNameUnique(hostnames: seq<Hostname>, k: nat)
    requires NamesUnique(hostnames)
    requires k < |hostnames|
    ensures FindFirst(hostnames, ByName(hostnames[k].name)) == Some(k)
  {
    var r := FindFirst(hostnames, ByName(hostnames[k].name));
    assert r.Some? by { assert Matches(hostnames[k], ByName(hostnames[k].name)); }
  }
}
