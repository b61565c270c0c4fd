/** The oldest inventory, src/inventory.rs: an immutable value whose
    default host list is the single local host. */
module LegacyInventory {
  import opened Errors
  import opened HostEntry
  import opened HostLists
  import opened Json
  import opened HostDocuments

  type Record = HostRecord<string, string>

  datatype Inventory = Inventory(hosts: seq<Record>)

  /** `default_hostlist`: one host, `root@localhost:22`, without tags or
      variables. */
  function DefaultHostList(): (hosts: seq<Record>)
    ensures |hosts| == 1
    ensures hosts[0] == HostRecord("localhost", "localhost:22", "root", [], map[])
  {
    [NewRecord("localhost", "localhost:22")]
  }

  /** `Inventory::new`: the inventory of the default host list. */
  function New(): (inventory: Inventory)
    ensures inventory.hosts == DefaultHostList()
  {
    Inventory(DefaultHostList())
  }

  /** The derived `Deserialize` (behind `from_toml` and `from_json`): ids
      and tags are plain strings, a document without `hosts` is the
      default single-localhost inventory, and a `hosts` array is accepted
      exactly when every host in it is. */
  function FromValue(v: Value): (r: Result<Inventory>)
    ensures v.Object? && "hosts" !in v.fields ==> r == Ok(New())
    ensures r.Ok? && !(v.Object? && "hosts" !in v.fields) ==>
      v.Object? && v.fields["hosts"].Array? && |r.value.hosts| == |v.fields["hosts"].items| &&
      forall i :: 0 <= i < |r.value.hosts| ==>
        HostFromValue(v.fields["hosts"].items[i], ParseString, ParseString) == Ok(r.value.hosts[i])
    ensures v.Object? && "hosts" in v.fields ==>
      (r.Ok? <==> v.fields["hosts"].Array? &&
                  forall i :: 0 <= i < |v.fields["hosts"].items| ==>
                    HostFromValue(v.fields["hosts"].items[i], ParseString, ParseString).Ok?)
    ensures !v.Object? || ("hosts" in v.fields && !v.fields["hosts"].Array?) ==> r == Err(InvalidType)
  {
    var hosts :- InventoryFromValue(v, ParseString, ParseString, DefaultHostList());
    Ok(Inventory(hosts))
  }

  /** `get_host_by_id`: the first host with an equal id, or `None`. */
  function GetHostById(inventory: Inventory, id: string): (r: Option<Record>)
    ensures r.None? <==> forall i :: 0 <= i < |inventory.hosts| ==> inventory.hosts[i].id != id
    ensures r.Some? ==> r.value.id == id
    ensures r.Some? ==>
      exists i :: 0 <= i < |inventory.hosts| && inventory.hosts[i] == r.value &&
        (forall j :: 0 <= j < i ==> inventory.hosts[j].id != id)
  {
    FindById(inventory.hosts, id)
  }

  /** `get_hosts_by_tags`: hosts having at least one of the tags, in
      inventory order, each as often as the inventory holds it; an
      empty tag list selects nothing. */
  function GetHostsByTags(inventory: Inventory, tags: seq<string>): (r: seq<Record>)
    ensures forall h :: h in r <==> h in inventory.hosts && exists i :: 0 <= i < |tags| && tags[i] in h.tags
    ensures forall h :: multiset(r)[h] == (if HasAnyTag(h.tags, tags) then multiset(inventory.hosts)[h] else 0)
    ensures r == SelectByAnyTag(inventory.hosts, tags)
    ensures tags == [] ==> r == []
  {
    SelectByAnyTagMembers(inventory.hosts, tags);
    SelectByAnyTag(inventory.hosts, tags)
  }

  /** The default inventory answers for `localhost` and for nothing
      else. */
  lemma NewFindsOnlyLocalhost(id: string)
    ensures GetHostById(New(), id).Some? <==> id == "localhost"
    ensures GetHostById(New(), "localhost") == Some(HostRecord("localhost", "localhost:22", "root", [], map[]))
  {
  }
}
