/** The older inventory of src/core/inventory.rs, over string ids and
    tags: a host list changed in place, looked up by id and filtered by
    "has at least one of these tags". */
module CoreInventory {
  import opened Errors
  import opened HostEntry
  import opened HostLists

  type Record = HostRecord<string, string>

  class Inventory {
    var hosts: seq<Record>

    /** `Inventory::new`: no hosts. */
    constructor ()
      ensures hosts == []
    {
      hosts := [];
    }

    /** `add_host`: appended at the end. */
    method AddHost(host: Record)
      modifies this
      ensures hosts == old(hosts) + [host]
    {
      hosts := hosts + [host];
    }

    /** `remove_host`: every host whose id equals the string is dropped,
        the rest keep their order. */
    method RemoveHost(id: string)
      modifies this
      ensures hosts == WithoutId(old(hosts), id)
    {
      hosts := WithoutId(hosts, id);
    }

    /** `get_host_by_id`: the first host with an equal id, or `None`. */
    function GetHostById(id: string): (r: Option<Record>)
      reads this
      ensures r.None? <==> forall i :: 0 <= i < |hosts| ==> hosts[i].id != id
      ensures r.Some? ==> r.value.id == id
      ensures r.Some? ==>
        exists i :: 0 <= i < |hosts| && hosts[i] == r.value && (forall j :: 0 <= j < i ==> hosts[j].id != id)
    {
      FindById(hosts, id)
    }

    /** `get_hosts_by_tags`: the hosts having at least one of the tags, in
        inventory order, each as often as the inventory holds it; an
        empty tag list selects nothing. */
    function GetHostsByTags(tags: seq<string>): (r: seq<Record>)
      reads this
      ensures forall h :: h in r <==> h in hosts && exists i :: 0 <= i < |tags| && tags[i] in h.tags
      ensures forall h :: multiset(r)[h] == (if HasAnyTag(h.tags, tags) then multiset(hosts)[h] else 0)
      ensures r == SelectByAnyTag(hosts, tags)
      ensures tags == [] ==> r == []
    {
      SelectByAnyTagMembers(hosts, tags);
      SelectByAnyTag(hosts, tags)
    }
  }

  /** The add/remove test: add example-0 and example-1, remove example-1;
      one host is left and it is example-0 with its address. */
  method AddRemoveScenario() returns (count: nat, found: Option<Record>)
    ensures count == 1
    ensures found.Some? && found.value.address == "127.0.1.1:22"
  {
    var inventory := new Inventory();
    inventory.AddHost(NewRecord("example-0", "127.0.1.1:22"));
    inventory.AddHost(NewRecord("example-1", "127.0.1.2:22"));
    var before := inventory.hosts;
    inventory.RemoveHost("example-1");
    WithoutIdMeaning([before[0]], [before[1]], "example-1", before[0]);
    assert before == [before[0]] + [before[1]];
    WithoutIdMeaning([before[1]], [], "example-1", before[0]);
    assert FindById([before[1]], "example-1").Some?;
    assert WithoutId([before[1]], "example-1") == [];
    assert WithoutId([before[0]], "example-1") == [before[0]];
    count := |inventory.hosts|;
    found := inventory.GetHostById("example-0");
  }
}
