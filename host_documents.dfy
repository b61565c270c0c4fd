/** Inventory documents: the derived `Deserialize` of hosts and inventories
    and the derived `Serialize` of a host, over the JSON value tree that
    both the TOML and the JSON parser produce. Ids and tags of the newer
    inventory deserialize through their validating constructors
    (src/prelude/inventory/host_id.rs, host_tag.rs); the older inventories
    take any string. */
module HostDocuments {
  import opened Errors
  import opened Json
  import opened HostIds
  import opened HostTags
  import opened HostEntry

  /** A value of the wrong JSON type where a field expects another. */
  const InvalidType: Error := Boxed("invalid type")

  /** A required field that the document lacks. */
  function MissingField(name: string): Error {
    Boxed("missing field `" + name + "`")
  }

  /** `serde::de::Error::custom(err)`: the constructor's error, displayed. */
  function Custom<T>(r: Result<T>): (c: Result<T>)
    ensures c.Ok? <==> r.Ok?
    ensures c.Ok? ==> c == r
    ensures c.Err? ==> c.error == Boxed(Display(r.error))
  {
    if r.Ok? then r else Err(Boxed(Display(r.error)))
  }

  /** `HostId`'s `Deserialize`: a string, then `HostId::new`. */
  function ParseHostId(s: string): (r: Result<HostId>)
    ensures r.Ok? <==> MatchesIdRegex(s)
    ensures r.Ok? ==> r.value == HostId(s)
  {
    Custom(NewHostId(s))
  }

  /** `HostTag`'s `Deserialize`: a string, then `HostTag::new`. */
  function ParseHostTag(s: string): (r: Result<HostTag>)
    ensures r.Ok? <==> MatchesTagRegex(s)
    ensures r.Ok? ==> r.value == HostTag(s)
  {
    Custom(NewHostTag(s))
  }

  /** A plain `String` field of the older hosts: any string is accepted. */
  function ParseString(s: string): (r: Result<string>)
    ensures r == Ok(s)
  {
    Ok(s)
  }

  /** A required string field. */
  function RequiredString(fields: map<string, Value>, name: string): (r: Result<string>)
    ensures r.Ok? <==> name in fields && fields[name].Str?
    ensures r.Ok? ==> fields[name] == Str(r.value)
  {
    if name !in fields then Err(MissingField(name))
    else if fields[name].Str? then Ok(fields[name].s)
    else Err(InvalidType)
  }

  /** Each element of a list, parsed in order; the first failure is the
      result. */
  function ParseEach<T>(items: seq<Value>, parse: string -> Result<T>): (r: Result<seq<T>>)
    ensures r.Ok? <==> forall i :: 0 <= i < |items| ==> items[i].Str? && parse(items[i].s).Ok?
    ensures r.Ok? ==> |r.value| == |items|
    ensures r.Ok? ==> forall i :: 0 <= i < |items| ==> items[i].Str? && parse(items[i].s) == Ok(r.value[i])
  {
    if items == [] then Ok([])
    else if !items[0].Str? then Err(InvalidType)
    else
      match parse(items[0].s)
      case Err(e) => Err(e)
      case Ok(first) =>
        match ParseEach(items[1..], parse)
        case Err(e) => Err(e)
        case Ok(rest) => Ok([first] + rest)
  }

  /** The derived `Deserialize` of a host: `id` and `address` required;
      `user` defaults to `"root"`, `tags` to `[]` and `vars` to `{}`. */
  function HostFromValue<Id, Tag>(v: Value, parseId: string -> Result<Id>, parseTag: string -> Result<Tag>): (r: Result<HostRecord<Id, Tag>>)
    ensures r.Ok? ==> v.Object? && "id" in v.fields && v.fields["id"].Str? && parseId(v.fields["id"].s) == Ok(r.value.id)
    ensures r.Ok? ==> "address" in v.fields && v.fields["address"] == Str(r.value.address)
    ensures r.Ok? ==> if "user" in v.fields then v.fields["user"] == Str(r.value.user) else r.value.user == DefaultUser
    ensures r.Ok? && "tags" !in v.fields ==> r.value.tags == []
    ensures r.Ok? && "tags" in v.fields ==>
      v.fields["tags"].Array? && |r.value.tags| == |v.fields["tags"].items| &&
      forall i :: 0 <= i < |r.value.tags| ==>
        v.fields["tags"].items[i].Str? && parseTag(v.fields["tags"].items[i].s) == Ok(r.value.tags[i])
    ensures r.Ok? ==> if "vars" in v.fields then v.fields["vars"] == Object(r.value.vars) else r.value.vars == map[]
    ensures v.Object? && "id" in v.fields && v.fields["id"].Str? && parseId(v.fields["id"].s).Err? ==> r.Err?
    ensures (v.Object? && "tags" in v.fields && v.fields["tags"].Array? &&
             exists i :: 0 <= i < |v.fields["tags"].items| && v.fields["tags"].items[i].Str? &&
               parseTag(v.fields["tags"].items[i].s).Err?) ==> r.Err?
  {
    if !v.Object? then Err(InvalidType)
    else
      var fields := v.fields;
      var idText :- RequiredString(fields, "id");
      var id :- parseId(idText);
      var address :- RequiredString(fields, "address");
      var user :- if "user" in fields then RequiredString(fields, "user") else Ok(DefaultUser);
      var tags :-
        if "tags" !in fields then Ok([])
        else if fields["tags"].Array? then ParseEach(fields["tags"].items, parseTag)
        else Err(InvalidType);
      var vars :-
        if "vars" !in fields then Ok(map[])
        else if fields["vars"].Object? then Ok(fields["vars"].fields)
        else Err(InvalidType);
      Ok(HostRecord(id, address, user, tags, vars))
  }

  /** Each host of a `hosts` list, in order; the first failure is the
      result. */
  function HostsFromValues<Id, Tag>(items: seq<Value>, parseId: string -> Result<Id>, parseTag: string -> Result<Tag>): (r: Result<seq<HostRecord<Id, Tag>>>)
    ensures r.Ok? <==> forall i :: 0 <= i < |items| ==> HostFromValue(items[i], parseId, parseTag).Ok?
    ensures r.Ok? ==> |r.value| == |items|
    ensures r.Ok? ==> forall i :: 0 <= i < |items| ==> HostFromValue(items[i], parseId, parseTag) == Ok(r.value[i])
  {
    if items == [] then Ok([])
    else
      match HostFromValue(items[0], parseId, parseTag)
      case Err(e) => Err(e)
      case Ok(first) =>
        match HostsFromValues(items[1..], parseId, parseTag)
        case Err(e) => Err(e)
        case Ok(rest) => Ok([first] + rest)
  }

  /** The derived `Deserialize` of an inventory: the host list of the
      `hosts` field, or `default` when the document has none. A `hosts`
      array is accepted exactly when every host in it is; anything other
      than an object, or a `hosts` that is not an array, is a type error. */
  function InventoryFromValue<Id, Tag>(v: Value, parseId: string -> Result<Id>, parseTag: string -> Result<Tag>,
                                       default: seq<HostRecord<Id, Tag>>): (r: Result<seq<HostRecord<Id, Tag>>>)
    ensures v.Object? && "hosts" !in v.fields ==> r == Ok(default)
    ensures r.Ok? && !(v.Object? && "hosts" !in v.fields) ==>
      v.Object? && v.fields["hosts"].Array? && |r.value| == |v.fields["hosts"].items| &&
      forall i :: 0 <= i < |r.value| ==> HostFromValue(v.fields["hosts"].items[i], parseId, parseTag) == Ok(r.value[i])
    ensures (v.Object? && "hosts" in v.fields && v.fields["hosts"].Array? &&
             exists i :: 0 <= i < |v.fields["hosts"].items| &&
               HostFromValue(v.fields["hosts"].items[i], parseId, parseTag).Err?) ==> r.Err?
    ensures v.Object? && "hosts" in v.fields ==>
      (r.Ok? <==> v.fields["hosts"].Array? &&
                  forall i :: 0 <= i < |v.fields["hosts"].items| ==>
                    HostFromValue(v.fields["hosts"].items[i], parseId, parseTag).Ok?)
    ensures !v.Object? || ("hosts" in v.fields && !v.fields["hosts"].Array?) ==> r == Err(InvalidType)
  {
    if !v.Object? then Err(InvalidType)
    else if "hosts" !in v.fields then Ok(default)
    else if v.fields["hosts"].Array? then HostsFromValues(v.fields["hosts"].items, parseId, parseTag)
    else Err(InvalidType)
  }

  /** The newer inventory's document: validated ids and tags, no hosts by
      default. */
  function PreludeInventoryFromValue(v: Value): Result<seq<HostRecord<HostId, HostTag>>> {
    InventoryFromValue(v, ParseHostId, ParseHostTag, [])
  }

  /** The derived `Serialize` of a host: every field under its own name,
      ids and tags as their strings. */
  function ToJson<Id, Tag>(h: HostRecord<Id, Tag>, idText: Id -> string, tagText: Tag -> string): (v: Value)
    ensures v.Object? && v.fields.Keys == {"id", "address", "user", "tags", "vars"}
  {
    Object(map[
      "id" := Str(idText(h.id)),
      "address" := Str(h.address),
      "user" := Str(h.user),
      "tags" := Array(seq(|h.tags|, i requires 0 <= i < |h.tags| => Str(tagText(h.tags[i])))),
      "vars" := Object(h.vars)])
  }

  function HostIdText(id: HostId): string { id.value }
  function HostTagText(tag: HostTag): string { tag.value }

  /** A serialized host deserializes back to itself whenever its id and
      every tag parse back from their text. */
  lemma FromToJson<Id, Tag>(h: HostRecord<Id, Tag>, idText: Id -> string, tagText: Tag -> string,
                            parseId: string -> Result<Id>, parseTag: string -> Result<Tag>)
    requires parseId(idText(h.id)) == Ok(h.id)
    requires forall i :: 0 <= i < |h.tags| ==> parseTag(tagText(h.tags[i])) == Ok(h.tags[i])
    ensures HostFromValue(ToJson(h, idText, tagText), parseId, parseTag) == Ok(h)
  {
    var v := ToJson(h, idText, tagText);
    var items := v.fields["tags"].items;
    var tags := ParseEach(items, parseTag);
    assert tags.Ok?;
    assert tags.value == h.tags;
  }

  /** The newer hosts: a host with a valid id and valid tags survives a
      serialization round trip. */
  lemma PreludeRoundTrip(h: HostRecord<HostId, HostTag>)
    requires ValidHostId(h.id)
    requires forall i :: 0 <= i < |h.tags| ==> ValidHostTag(h.tags[i])
    ensures HostFromValue(ToJson(h, HostIdText, HostTagText), ParseHostId, ParseHostTag) == Ok(h)
  {
    FromToJson(h, HostIdText, HostTagText, ParseHostId, ParseHostTag);
  }

  /** A one-host document with the given id, address and, optionally,
      tags. */
  function OneHostDocument(id: string, address: string, tags: Option<seq<string>>): Value {
    var host := map["id" := Str(id), "address" := Str(address)];
    var withTags := if tags.Some? then host["tags" := Array(seq(|tags.value|, i requires 0 <= i < |tags.value| => Str(tags.value[i])))] else host;
    Object(map["hosts" := Array([Object(withTags)])])
  }

  /** A document whose host id fails `HostId::new` is rejected. */
  lemma DocumentWithInvalidId(id: string, address: string, tags: Option<seq<string>>)
    requires !MatchesIdRegex(id)
    ensures PreludeInventoryFromValue(OneHostDocument(id, address, tags)).Err?
  {
    var doc := OneHostDocument(id, address, tags);
    assert HostFromValue(doc.fields["hosts"].items[0], ParseHostId, ParseHostTag).Err?;
  }

  /** A document with one tag failing `HostTag::new` is rejected. */
  lemma DocumentWithInvalidTag(id: string, address: string, tags: seq<string>, bad: nat)
    requires bad < |tags| && !MatchesTagRegex(tags[bad])
    ensures PreludeInventoryFromValue(OneHostDocument(id, address, Some(tags))).Err?
  {
    var doc := OneHostDocument(id, address, Some(tags));
    var host := doc.fields["hosts"].items[0];
    assert host.fields["tags"].items[bad] == Str(tags[bad]);
    assert HostFromValue(host, ParseHostId, ParseHostTag).Err?;
  }

  /** A document with a valid id and no optional field yields that one
      host with the default user, no tags and no variables. */
  lemma DocumentWithDefaults(id: string, address: string)
    requires MatchesIdRegex(id)
    ensures PreludeInventoryFromValue(OneHostDocument(id, address, None)) ==
      Ok([HostRecord(HostId(id), address, "root", [], map[])])
  {
    var doc := OneHostDocument(id, address, None);
    var items := doc.fields["hosts"].items;
    assert HostFromValue(items[0], ParseHostId, ParseHostTag) ==
      Ok(HostRecord(HostId(id), address, "root", [], map[]));
    assert items == [items[0]];
    assert items[1..] == [];
    var rec := HostRecord(HostId(id), address, "root", [], map[]);
    assert HostsFromValues(items[1..], ParseHostId, ParseHostTag) == Ok([]);
    assert [rec] + [] == [rec];
    assert HostsFromValues(items, ParseHostId, ParseHostTag) == Ok([rec]);
  }

  /** The inventory test's document with id `example-0$` is rejected. */
  lemma InvalidIdExample(id: string, address: string)
    requires id == "example-0$"
    ensures PreludeInventoryFromValue(OneHostDocument(id, address, None)).Err?
  {
    assert id[9] == '$' && !IsIdChar(id[9]);
    DocumentWithInvalidId(id, address, None);
  }

  /** The inventory test's document with tag `&foo` is rejected. */
  lemma InvalidTagExample(id: string, address: string, tag: string)
    requires tag == "&foo"
    ensures PreludeInventoryFromValue(OneHostDocument(id, address, Some([tag]))).Err?
  {
    assert [tag][0][0] == '&' && !IsTagChar([tag][0][0]);
    DocumentWithInvalidTag(id, address, [tag], 0);
  }

  /** The inventory test's document with `example-0` and no optional
      field yields that host with the defaults. */
  lemma DefaultsExample(id: string, address: string)
    requires id == "example-0"
    ensures PreludeInventoryFromValue(OneHostDocument(id, address, None)) ==
      Ok([HostRecord(HostId(id), address, "root", [], map[])])
  {
    assert MatchesIdRegex(id) by {
      assert forall i :: 0 <= i < |id| ==> id[i] in "example-0";
    }
    DocumentWithDefaults(id, address);
  }

  /** A document without `hosts` yields no host. */
  lemma NoHostsDocument()
    ensures PreludeInventoryFromValue(EmptyObject) == Ok([])
  {
  }
}
