/** A host of the inventory (src/prelude/inventory/host_entry.rs) and its
    builder setters. The older string-based host of src/core/host.rs has
    the same fields and setters; both are this one generic class, the newer
    one over validated ids and tags, the older one over plain strings. */
module HostEntry {
  import opened Errors
  import opened Json
  import opened Seqs
  import opened HostIds
  import opened HostTags

  /** A host as a value: what `clone`/`to_owned` hands out and what the
      inventory stores. */
  datatype HostRecord<Id, Tag> = HostRecord(
    id: Id,
    address: string,
    user: string,
    tags: seq<Tag>,
    vars: map<string, Value>)

  const DefaultUser: string := "root"

  /** `Host::new`'s record: the given id and address with the default user,
      no tags and no variables. */
  function NewRecord<Id, Tag>(id: Id, address: string): (h: HostRecord<Id, Tag>)
    ensures h.id == id && h.address == address
    ensures h.user == "root" && h.tags == [] && h.vars == map[]
  {
    HostRecord(id, address, DefaultUser, [], map[])
  }

  /** The tag list after `retain(|t| *t != tag)`. */
  function WithoutTag<Tag(==)>(tags: seq<Tag>, tag: Tag): seq<Tag> {
    Filter(tags, t => t != tag)
  }

  /** `remove_tag` drops every occurrence of the tag and keeps every other
      tag as often as it was there, in the same order. */
  lemma WithoutTagMeaning<Tag>(tags: seq<Tag>, tag: Tag, other: Tag)
    ensures tag !in WithoutTag(tags, tag)
    ensures other != tag ==> multiset(WithoutTag(tags, tag))[other] == multiset(tags)[other]
    ensures tag !in tags ==> WithoutTag(tags, tag) == tags
    ensures WithoutTag(tags + [other], tag) ==
      WithoutTag(tags, tag) + (if other == tag then [] else [other])
  {
    var keep := t => t != tag;
    FilterCount(tags, keep, tag);
    FilterCount(tags, keep, other);
    if tag !in tags {
      FilterKeepsAll(tags, keep);
    }
    FilterAppend(tags, [other], keep);
    assert [other][1..] == [];
  }

  /** A host whose fields the builder setters change in place. */
  class Host<Id, Tag(==)> {
    var id: Id
    var address: string
    var user: string
    var tags: seq<Tag>
    var vars: map<string, Value>

    /** The host's current value. */
    function Record(): HostRecord<Id, Tag>
      reads this
    {
      HostRecord(id, address, user, tags, vars)
    }

    /** `Host::new(id, address)` */
    constructor (id: Id, address: string)
      ensures Record() == NewRecord(id, address)
    {
      this.id := id;
      this.address := address;
      this.user := DefaultUser;
      this.tags := [];
      this.vars := map[];
    }

    /** `set_user`: only the user changes. */
    method SetUser(user: string)
      modifies this
      ensures Record() == old(Record()).(user := user)
    {
      this.user := user;
    }

    /** `add_tag`: the tag is appended, duplicates included. */
    method AddTag(tag: Tag)
      modifies this
      ensures Record() == old(Record()).(tags := old(tags) + [tag])
    {
      tags := tags + [tag];
    }

    /** `remove_tag`: every equal tag is dropped, the rest keep their
        order. */
    method RemoveTag(tag: Tag)
      modifies this
      ensures Record() == old(Record()).(tags := WithoutTag(old(tags), tag))
    {
      tags := WithoutTag(tags, tag);
    }

    /** `set_var`: inserts or overwrites exactly one key. */
    method SetVar(key: string, val: Value)
      modifies this
      ensures Record() == old(Record()).(vars := old(vars)[key := val])
    {
      vars := vars[key := val];
    }

    /** `remove_var`: the key is gone; a missing key is no change. */
    method RemoveVar(key: string)
      modifies this
      ensures Record() == old(Record()).(vars := old(vars) - {key})
    {
      vars := vars - {key};
    }
  }

  /** `Host::id`: the same as `HostId::new`. */
  function Id(src: string): (r: Result<HostId>)
    ensures r == NewHostId(src)
  {
    NewHostId(src)
  }

  /** `Host::tag`: the same as `HostTag::new`. */
  function Tag(src: string): (r: Result<HostTag>)
    ensures r == NewHostTag(src)
  {
    NewHostTag(src)
  }

  /** A variable that was set reads back; a removed one is absent; other
      keys are untouched by both. */
  lemma VarsReadBack(vars: map<string, Value>, key: string, other: string, val: Value)
    ensures vars[key := val][key] == val
    ensures key !in vars - {key}
    ensures other != key && other in vars ==>
      other in vars[key := val] && vars[key := val][other] == vars[other] &&
      other in vars - {key} && (vars - {key})[other] == vars[other]
    ensures key !in vars ==> vars - {key} == vars
  {
  }

  /** The builder chain of the host tests: defaults, then user, tags and
      variables set and removed again. */
  method BuilderScenario() returns (created: HostRecord<HostId, HostTag>, built: HostRecord<HostId, HostTag>)
    ensures created.id == HostId("localhost") && created.address == "localhost:8022"
    ensures created.user == "root" && |created.tags| == 0 && |created.vars| == 0
    ensures built.user == "admin"
    ensures built.tags == [HostTag("bar")]
    ensures "foo" !in built.vars
    ensures "answer" in built.vars && built.vars["answer"] == Number(42)
  {
    var h := new Host<HostId, HostTag>(HostId("localhost"), "localhost:8022");
    created := h.Record();
    h.SetUser("admin");
    h.AddTag(HostTag("foo"));
    h.AddTag(HostTag("bar"));
    h.RemoveTag(HostTag("foo"));
    h.SetVar("foo", Number(42));
    h.SetVar("answer", Number(42));
    h.RemoveVar("foo");
    WithoutTagMeaning([HostTag("foo")], HostTag("foo"), HostTag("bar"));
    assert WithoutTag([HostTag("foo")], HostTag("foo")) == [];
    built := h.Record();
  }
}
