/** The older host of src/core/host.rs: the same builder over plain string
    ids and tags. */
module CoreHost {
  import opened Json
  import opened HostEntry

  type Record = HostRecord<string, string>

  /** Removing a tag added twice among two others leaves the others, in
      order. */
  lemma RemoveDuplicated(dup: string, a: string, b: string)
    requires dup != a && dup != b
    ensures WithoutTag([dup, a, dup, b], dup) == [a, b]
  {
    var tags := [dup, a, dup, b];
    assert tags[1..][1..][1..][1..] == [];
    assert WithoutTag(tags[3..], dup) == [b];
    assert tags[2..][1..] == tags[3..];
    assert WithoutTag(tags[2..], dup) == [b];
    assert tags[1..][1..] == tags[2..];
    assert WithoutTag(tags[1..], dup) == [a, b];
  }

  /** A builder chain on a string host: a duplicated tag is kept until it
      is removed, removal drops every copy and keeps the other tags in
      order, and removing a missing variable changes nothing. */
  method BuilderScenario(id: string, address: string, user: string, dup: string, a: string, b: string,
                         key: string, missing: string, val: Value) returns (built: Record)
    requires dup != a && dup != b && key != missing
    ensures built.id == id && built.address == address && built.user == user
    ensures built.tags == [a, b]
    ensures built.vars == map[key := val]
  {
    var h := new Host<string, string>(id, address);
    h.SetUser(user);
    h.AddTag(dup);
    h.AddTag(a);
    h.AddTag(dup);
    h.AddTag(b);
    assert h.tags == [dup, a, dup, b];
    RemoveDuplicated(dup, a, b);
    h.RemoveTag(dup);
    h.SetVar(key, val);
    h.RemoveVar(missing);
    assert map[key := val] - {missing} == map[key := val];
    built := h.Record();
  }
}
