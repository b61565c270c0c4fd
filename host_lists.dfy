/** Operations on a list of host records shared by the three inventories:
    first match by id (`iter().find`), removal by id (`retain`) and the
    older inventories' any-of-these-tags selection (`iter().filter`). */
module HostLists {
  import opened Errors
  import opened Seqs
  import opened HostEntry

  /** Position of the first host with the given id, or `|hosts|` if there
      is none. */
  function FirstIndexOfId<Id(==), Tag>(hosts: seq<HostRecord<Id, Tag>>, id: Id): (i: nat)
    ensures i <= |hosts|
    ensures forall j :: 0 <= j < i ==> hosts[j].id != id
    ensures i < |hosts| ==> hosts[i].id == id
  {
    if hosts == [] then 0
    else if hosts[0].id == id then 0
    else 1 + FirstIndexOfId(hosts[1..], id)
  }

  /** `iter().find(|host| host.id == id).map(clone)`: the first host in
      list order whose id is equal, or `None` when no host has it. */
  function FindById<Id(==), Tag>(hosts: seq<HostRecord<Id, Tag>>, id: Id): (r: Option<HostRecord<Id, Tag>>)
    ensures r.None? <==> forall i :: 0 <= i < |hosts| ==> hosts[i].id != id
    ensures r.Some? ==> r.value.id == id
    ensures r.Some? ==>
      exists i :: 0 <= i < |hosts| && hosts[i] == r.value && (forall j :: 0 <= j < i ==> hosts[j].id != id)
  {
    var i := FirstIndexOfId(hosts, id);
    if i < |hosts| then Some(hosts[i]) else None
  }

  /** Finding is unaffected by hosts appended after a match, and looks
      past the list into appended hosts only when the list has no match. */
  lemma {:induction false} FindByIdAppend<Id, Tag>(hosts: seq<HostRecord<Id, Tag>>, more: seq<HostRecord<Id, Tag>>, id: Id)
    ensures FindById(hosts, id).Some? ==> FindById(hosts + more, id) == FindById(hosts, id)
    ensures FindById(hosts, id).None? ==> FindById(hosts + more, id) == FindById(more, id)
  {
    if hosts != [] {
      assert (hosts + more)[1..] == hosts[1..] + more;
      FindByIdAppend(hosts[1..], more, id);
    } else {
      assert hosts + more == more;
    }
  }

  /** `retain(|host| host.id != id)` */
  function WithoutId<Id(==), Tag>(hosts: seq<HostRecord<Id, Tag>>, id: Id): seq<HostRecord<Id, Tag>> {
    Filter(hosts, (h: HostRecord<Id, Tag>) => h.id != id)
  }

  /** Removal by id drops every host with that id, keeps every other host
      as often as it was there and in the same order, and changes nothing
      when no host has the id. */
  lemma WithoutIdMeaning<Id, Tag>(hosts: seq<HostRecord<Id, Tag>>, more: seq<HostRecord<Id, Tag>>, id: Id, other: HostRecord<Id, Tag>)
    ensures FindById(WithoutId(hosts, id), id).None?
    ensures other.id != id ==> multiset(WithoutId(hosts, id))[other] == multiset(hosts)[other]
    ensures FindById(hosts, id).None? ==> WithoutId(hosts, id) == hosts
    ensures WithoutId(hosts + more, id) == WithoutId(hosts, id) + WithoutId(more, id)
  {
    var keep := (h: HostRecord<Id, Tag>) => h.id != id;
    FilterCount(hosts, keep, other);
    FilterAppend(hosts, more, keep);
    if FindById(hosts, id).None? {
      FilterKeepsAll(hosts, keep);
    }
  }

  /** The older inventories' tag test: the loop over the wanted tags
      returns true at the first one the host has. */
  function HasAnyTag<Tag(==)>(hostTags: seq<Tag>, wanted: seq<Tag>): (r: bool)
    ensures r <==> exists i :: 0 <= i < |wanted| && wanted[i] in hostTags
  {
    if wanted == [] then false
    else if wanted[0] in hostTags then true
    else HasAnyTag(hostTags, wanted[1..])
  }

  /** `iter().filter(has any wanted tag).collect()` */
  function SelectByAnyTag<Id, Tag(==)>(hosts: seq<HostRecord<Id, Tag>>, wanted: seq<Tag>): seq<HostRecord<Id, Tag>> {
    Filter(hosts, (h: HostRecord<Id, Tag>) => HasAnyTag(h.tags, wanted))
  }

  /** The selection holds exactly the hosts that share a tag with the
      wanted list, keeps inventory order (it distributes over
      concatenation), and an empty wanted list selects nothing. */
  lemma SelectByAnyTagMeaning<Id, Tag>(hosts: seq<HostRecord<Id, Tag>>, more: seq<HostRecord<Id, Tag>>, wanted: seq<Tag>, h: HostRecord<Id, Tag>)
    ensures h in SelectByAnyTag(hosts, wanted) <==>
      h in hosts && exists i :: 0 <= i < |wanted| && wanted[i] in h.tags
    ensures SelectByAnyTag(hosts + more, wanted) == SelectByAnyTag(hosts, wanted) + SelectByAnyTag(more, wanted)
    ensures wanted == [] ==> SelectByAnyTag(hosts, wanted) == []
  {
    var keep := (x: HostRecord<Id, Tag>) => HasAnyTag(x.tags, wanted);
    FilterCount(hosts, keep, h);
    FilterAppend(hosts, more, keep);
  }

  /** `SelectByAnyTagMeaning` for every host at once, with each selected
      host kept as many times as the inventory holds it. */
  lemma SelectByAnyTagMembers<Id, Tag>(hosts: seq<HostRecord<Id, Tag>>, wanted: seq<Tag>)
    ensures forall h :: h in SelectByAnyTag(hosts, wanted) <==>
      h in hosts && exists i :: 0 <= i < |wanted| && wanted[i] in h.tags
    ensures forall h ::
              multiset(SelectByAnyTag(hosts, wanted))[h] == (if HasAnyTag(h.tags, wanted) then multiset(hosts)[h] else 0)
    ensures wanted == [] ==> SelectByAnyTag(hosts, wanted) == []
  {
    forall h: HostRecord<Id, Tag> {
      SelectByAnyTagMeaning(hosts, [], wanted, h);
    }
    forall h: HostRecord<Id, Tag>
      ensures multiset(SelectByAnyTag(hosts, wanted))[h] ==
        (if HasAnyTag(h.tags, wanted) then multiset(hosts)[h] else 0)
    {
      FilterCount(hosts, (x: HostRecord<Id, Tag>) => HasAnyTag(x.tags, wanted), h);
    }
  }
}
